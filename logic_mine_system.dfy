/** `MineSystem`: dropping mines, setting them off, and the per-tick sweep
    that ticks explosions down, removes spent or misplaced mines and keeps
    at most one mine per cell. Damage goes through the damage system's
    request ledger; an exception the C# code would throw ends the operation
    with a `Throw` outcome. */
module LogicMineSystem {
  import opened Wrappers
  import opened LogicDirections
  import opened LogicStun
  import opened LogicTanks
  import opened LogicScore
  import opened LogicMines
  import opened LogicGrid
  import opened LogicDamage

  /** `MineDamage`. */
  const MineDamage := 50

  // ---------------------------------------------------------------------
  // Mine ids

  /** No two mines of the list share an id: the counter hands out each id
      once. */
  predicate DistinctIds(ms: seq<Mine>) {
    forall j, k :: 0 <= j < k < |ms| ==> IdAt(ms, j) != IdAt(ms, k)
  }

  /** The id of the `k`-th mine. */
  function IdAt(ms: seq<Mine>, k: int): int
    requires 0 <= k < |ms|
  {
    ms[k].id
  }

  /** With distinct ids, the `i`-th mine is none of the others. */
  lemma {:induction false} Unaliased(ms: seq<Mine>, i: nat)
    requires DistinctIds(ms) && i < |ms|
    ensures forall k :: 0 <= k < |ms| && k != i ==> ms[k] != ms[i]
  {
    forall k | 0 <= k < |ms| && k != i
      ensures ms[k] != ms[i]
    {
      if k < i {
        assert IdAt(ms, k) != IdAt(ms, i);
      } else {
        assert IdAt(ms, i) != IdAt(ms, k);
      }
    }
  }

  // ---------------------------------------------------------------------
  // Frames

  /** The mine's layer, as a frame. */
  function LayerOf(m: Mine): set<Player>
    reads m`layer
  {
    if m.layer == null then {} else {m.layer}
  }

  // ---------------------------------------------------------------------
  // One explosion

  /** The tank's own player laid the mine. */
  predicate Suicide(mine: Mine, tank: Tank)
    reads mine`layerId, tank`owner
  {
    mine.layerId == Some(tank.owner.id)
  }

  /** The damage request of an explosion under a tank: the mine's damage,
      and the layer as damager unless the tank's own player laid it. */
  function MineRequest(mine: Mine, tank: Tank): (r: DamageRequest)
    requires mine.damage.Some?
    reads mine`damage, mine`layerId, mine`layer, tank`owner
    ensures r.target == tank.ownerId && r.amount == mine.damage.value
    ensures r.damager.Some? <==> mine.layer != null && !Suicide(mine, tank)
    ensures r.damager.Some? ==> r.damager.value == mine.layer.id
  {
    DamageRequest(tank.ownerId, mine.damage.value, if Suicide(mine, tank) then None else IdOf(mine.layer))
  }

  /** In STEREO builds the layer has no team, so comparing teams throws. */
  predicate NullTeam(mine: Mine, tank: Tank, stereo: bool)
    reads mine`layer, mine`layerId, tank`owner, LayerOf(mine)`team
  {
    stereo && mine.layer != null && !Suicide(mine, tank) && mine.layer.team == null
  }

  /** The layer is credited with the damage: there is a layer, it is not
      the victim's own player, and in STEREO builds its team is not the
      victim's. */
  predicate Credits(mine: Mine, tank: Tank, stereo: bool)
    reads mine`layer, mine`layerId, tank`owner, LayerOf(mine)`team, tank.owner`team
  {
    mine.layer != null && !Suicide(mine, tank) &&
    (stereo ==> mine.layer.team != null && !mine.layer.team.Equals(tank.owner.team))
  }

  // ---------------------------------------------------------------------
  // `TryExplodeAt`

  /** The mine lies on (x, y) and has not exploded. */
  predicate Armed(m: Mine, x: int, y: int)
    reads m`x, m`y, m`explosionRemainingTicks
  {
    m.x == x && m.y == y && !m.IsExploded()
  }

  /** Which listed mines `TryExplodeAt(x, y)` sets off: the armed ones,
      each at its first place in the list (by its second place it has
      exploded). */
  ghost function FiresOf(ms: seq<Mine>, x: int, y: int): (r: seq<bool>)
    reads ms`x, ms`y, ms`explosionRemainingTicks
    ensures |r| == |ms|
    ensures forall k :: 0 <= k < |ms| ==> r[k] == (Armed(ms[k], x, y) && ms[k] !in ms[..k])
  {
    if |ms| == 0 then []
    else
      var p := ms[..|ms| - 1];
      assert forall k :: 0 <= k < |p| ==> p[k] == ms[k] && p[..k] == ms[..k];
      FiresOf(p, x, y) + [Armed(ms[|ms| - 1], x, y) && ms[|ms| - 1] !in p]
  }

  /** The request each listed mine would send under `tank`; a mine without
      damage sends none (its explosion throws). */
  ghost function RequestsOf(ms: seq<Mine>, tank: Tank): (r: seq<seq<DamageRequest>>)
    reads ms`damage, ms`layerId, ms`layer, tank`owner
    ensures |r| == |ms|
    ensures forall k :: 0 <= k < |ms| ==> r[k] == if ms[k].damage.Some? then [MineRequest(ms[k], tank)] else []
  {
    if |ms| == 0 then []
    else
      var m := ms[|ms| - 1];
      RequestsOf(ms[..|ms| - 1], tank) + [if m.damage.Some? then [MineRequest(m, tank)] else []]
  }

  /** What an explosion's request reads of a mine. */
  datatype Charge = Charge(damage: Option<int>, layerId: Option<string>, layer: Player?)

  /** The mine's charge now. */
  function ChargeOf(m: Mine): Charge
    reads m`damage, m`layerId, m`layer
  {
    Charge(m.damage, m.layerId, m.layer)
  }

  /** The charges of the mines. */
  ghost function Charges(ms: seq<Mine>): (r: seq<Charge>)
    reads ms`damage, ms`layerId, ms`layer
    ensures |r| == |ms| && forall k :: 0 <= k < |ms| ==> r[k] == ChargeOf(ms[k])
  {
    if |ms| == 0 then [] else Charges(ms[..|ms| - 1]) + [ChargeOf(ms[|ms| - 1])]
  }

  /** The request a mine with charge `c` sends when it explodes under the
      tank `target` of the player `ownerId`; none without damage. */
  function ChargeRequest(c: Charge, target: string, ownerId: string): seq<DamageRequest> {
    if c.damage.None? then []
    else [DamageRequest(target, c.damage.value, if c.layerId == Some(ownerId) then None else IdOf(c.layer))]
  }

  /** The requests of the fired mines among the first `i`, in list order. */
  function Fired(fires: seq<bool>, rs: seq<seq<DamageRequest>>, i: nat): seq<DamageRequest>
    requires i <= |fires| && i <= |rs|
  {
    if i == 0 then [] else Fired(fires, rs, i - 1) + (if fires[i - 1] then rs[i - 1] else [])
  }

  /** The stun map after each fired mine among the first `i`, in list
      order, stuns the player `target`. */
  function FiredStuns(sm: map<string, Effects>, fires: seq<bool>, ms: seq<Mine>, target: string, i: nat): map<string, Effects>
    requires i <= |fires| && i <= |ms|
  {
    if i == 0 then sm
    else
      var before := FiredStuns(sm, fires, ms, target, i - 1);
      if fires[i - 1] then ApplyTo(before, target, ms[i - 1].Stun()) else before
  }

  /** The damage requests `TryExplodeAt(x, y)` sends when `tank` is the
      first tank on the cell: one per armed mine, in list order. */
  ghost function ExplosionRequests(ms: seq<Mine>, x: int, y: int, tank: Tank): seq<DamageRequest>
    reads ms`x, ms`y, ms`explosionRemainingTicks, ms`damage, ms`layerId, ms`layer, tank`owner
  {
    Fired(FiresOf(ms, x, y), RequestsOf(ms, tank), |ms|)
  }

  /** The stun map after those explosions: each armed mine, in list order,
      stuns the player `target`. */
  ghost function ExplosionStuns(sm: map<string, Effects>, ms: seq<Mine>, x: int, y: int, target: string): map<string, Effects>
    reads ms`x, ms`y, ms`explosionRemainingTicks
  {
    FiredStuns(sm, FiresOf(ms, x, y), ms, target, |ms|)
  }

  // ---------------------------------------------------------------------
  // The sweep of `Update`

  /** What the sweep reads of a mine: its cell and its countdown. */
  datatype Spot = Spot(x: int, y: int, ticks: Option<int>)

  /** A mine at the spot lies on (x, y) and has not exploded. */
  predicate ArmedAt(s: Spot, x: int, y: int) {
    s.x == x && s.y == y && s.ticks.None?
  }

  /** The mine's spot now. */
  function SpotOf(m: Mine): Spot
    reads m`x, m`y, m`explosionRemainingTicks
  {
    Spot(m.x, m.y, m.explosionRemainingTicks)
  }

  /** The spots of the mines. */
  function Spots(ms: seq<Mine>): (r: seq<Spot>)
    reads ms`x, ms`y, ms`explosionRemainingTicks
    ensures |r| == |ms| && forall k :: 0 <= k < |ms| ==> r[k] == SpotOf(ms[k])
  {
    if |ms| == 0 then [] else Spots(ms[..|ms| - 1]) + [SpotOf(ms[|ms| - 1])]
  }

  /** A mine at the spot goes in the sweep: off the `dim` by `dim` grid, on
      a wall, or spent. */
  predicate GoneAt(s: Spot, dim: int, walls: seq<seq<Option<Wall>>>)
    requires Square(walls, dim)
  {
    !(0 <= s.x < dim && 0 <= s.y < dim) || walls[s.x][s.y].Some? || FullyExploded(s.ticks)
  }

  /** The mine goes in the sweep. */
  predicate Gone(m: Mine, grid: Grid)
    requires grid.Valid()
    reads m`x, m`y, m`explosionRemainingTicks, grid`dim, grid`wallGrid
  {
    GoneAt(SpotOf(m), grid.dim, grid.wallGrid)
  }

  /** The countdown the sweep leaves on a mine: a mine that goes keeps it;
      an unexploded one explodes when a tank stands on it; an exploded one
      ticks down. */
  function SweptTicks(m: Mine, grid: Grid): (r: Option<int>)
    requires grid.Valid()
    reads m`x, m`y, m`explosionRemainingTicks, grid`dim, grid`wallGrid, grid`tanks, grid.tanks`x, grid.tanks`y
    ensures Gone(m, grid) ==> r == m.explosionRemainingTicks
    ensures !Gone(m, grid) && m.IsExploded() ==> r == Decreased(m.explosionRemainingTicks)
    ensures !Gone(m, grid) && !m.IsExploded() ==>
      r == if FirstTankAt(grid.tanks, m.x, m.y).Some? then Some(ExplosionTicks) else None
  {
    if Gone(m, grid) then m.explosionRemainingTicks
    else if m.IsExploded() then Decreased(m.explosionRemainingTicks)
    else if FirstTankAt(grid.tanks, m.x, m.y).Some? then Some(ExplosionTicks)
    else None
  }

  /** The countdowns the sweep leaves on the mines. */
  ghost function SweptAll(ms: seq<Mine>, grid: Grid): (r: seq<Option<int>>)
    requires grid.Valid()
    reads ms`x, ms`y, ms`explosionRemainingTicks, grid`dim, grid`wallGrid, grid`tanks, grid.tanks`x, grid.tanks`y
    ensures |r| == |ms| && forall k :: 0 <= k < |ms| ==> r[k] == SweptTicks(ms[k], grid)
  {
    if |ms| == 0 then [] else SweptAll(ms[..|ms| - 1], grid) + [SweptTicks(ms[|ms| - 1], grid)]
  }

  /** The sweep sets the mine off: it stays, has not exploded, and a tank
      stands on it. */
  predicate SetsOff(m: Mine, grid: Grid)
    requires grid.Valid()
    reads m`x, m`y, m`explosionRemainingTicks, grid`dim, grid`wallGrid, grid`tanks, grid.tanks`x, grid.tanks`y
  {
    !Gone(m, grid) && !m.IsExploded() && FirstTankAt(grid.tanks, m.x, m.y).Some?
  }

  /** Whether a mine at each spot goes in the sweep. */
  function GoneFlags(ss: seq<Spot>, dim: int, walls: seq<seq<Option<Wall>>>): (r: seq<bool>)
    requires Square(walls, dim)
    ensures |r| == |ss| && forall k :: 0 <= k < |ss| ==> r[k] == GoneAt(ss[k], dim, walls)
  {
    if |ss| == 0 then [] else GoneFlags(ss[..|ss| - 1], dim, walls) + [GoneAt(ss[|ss| - 1], dim, walls)]
  }

  /** The entries not flagged to go, in list order. */
  function Keep<T>(ms: seq<T>, drop: seq<bool>): (r: seq<T>)
    requires |drop| == |ms|
    ensures |r| <= |ms|
  {
    if |ms| == 0 then []
    else Keep(ms[..|ms| - 1], drop[..|ms| - 1]) + if drop[|ms| - 1] then [] else [ms[|ms| - 1]]
  }

  /** The mines the sweep keeps, in list order. */
  function Survivors(ms: seq<Mine>, grid: Grid): (r: seq<Mine>)
    requires grid.Valid()
    reads ms`x, ms`y, ms`explosionRemainingTicks, grid`dim, grid`wallGrid
  {
    Keep(ms, GoneFlags(Spots(ms), grid.dim, grid.wallGrid))
  }

  /** Keeping from a prefix one longer. */
  lemma {:induction false} KeepSnoc<T>(ms: seq<T>, drop: seq<bool>, i: nat)
    requires |drop| == |ms| && i < |ms|
    ensures Keep(ms[..i + 1], drop[..i + 1]) == Keep(ms[..i], drop[..i]) + if drop[i] then [] else [ms[i]]
  {
    assert ms[..i + 1][..i] == ms[..i] && drop[..i + 1][..i] == drop[..i];
  }

  /** Exactly the unflagged mines are kept. */
  lemma {:induction false} KeepExact<T>(ms: seq<T>, drop: seq<bool>)
    requires |drop| == |ms|
    ensures forall m :: m in Keep(ms, drop) ==> m in ms
    ensures forall k :: 0 <= k < |ms| && !drop[k] ==> ms[k] in Keep(ms, drop)
  {
    if |ms| > 0 {
      var n := |ms| - 1;
      KeepExact(ms[..n], drop[..n]);
      forall k | 0 <= k < |ms| && !drop[k]
        ensures ms[k] in Keep(ms, drop)
      {
        if k < n {
          assert ms[..n][k] == ms[k] && drop[..n][k] == drop[k];
        }
      }
    }
  }

  /** A mine survives the sweep exactly when it is listed and does not go. */
  lemma {:induction false} SurvivorsExact(ms: seq<Mine>, grid: Grid)
    requires grid.Valid()
    ensures forall m :: m in Survivors(ms, grid) ==> m in ms && !Gone(m, grid)
    ensures forall m :: m in ms && !Gone(m, grid) ==> m in Survivors(ms, grid)
  {
    KeepExact(ms, GoneFlags(Spots(ms), grid.dim, grid.wallGrid));
    KeepGone(ms, GoneFlags(Spots(ms), grid.dim, grid.wallGrid), grid);
  }

  /** Every kept mine was unflagged. */
  lemma {:induction false} KeepGone(ms: seq<Mine>, drop: seq<bool>, grid: Grid)
    requires grid.Valid() && drop == GoneFlags(Spots(ms), grid.dim, grid.wallGrid)
    ensures forall m :: m in Keep(ms, drop) ==> !Gone(m, grid)
  {
    KeepUnflagged(ms, drop);
    forall m | m in Keep(ms, drop)
      ensures !Gone(m, grid)
    {
      var k :| 0 <= k < |ms| && ms[k] == m && !drop[k];
      assert Spots(ms)[k] == SpotOf(m);
    }
  }

  /** Every kept entry was not flagged. */
  lemma {:induction false} KeepUnflagged<T>(ls: seq<T>, drop: seq<bool>)
    requires |drop| == |ls|
    ensures forall l: T :: l in Keep(ls, drop) ==> exists k :: 0 <= k < |ls| && ls[k] == l && !drop[k]
  {
    if |ls| > 0 {
      var n := |ls| - 1;
      KeepUnflagged(ls[..n], drop[..n]);
      forall l | l in Keep(ls, drop)
        ensures exists k :: 0 <= k < |ls| && ls[k] == l && !drop[k]
      {
        if l in Keep(ls[..n], drop[..n]) {
          var k :| 0 <= k < n && ls[..n][k] == l && !drop[..n][k];
          assert ls[k] == l && !drop[k];
        } else {
          assert ls[n] == l && !drop[n];
        }
      }
    }
  }

  /** Keeping some of the mines keeps their ids distinct. */
  lemma {:induction false} KeepDistinct(ms: seq<Mine>, drop: seq<bool>)
    requires |drop| == |ms| && DistinctIds(ms)
    ensures DistinctIds(Keep(ms, drop))
  {
    if |ms| > 0 {
      var n := |ms| - 1;
      var p := ms[..n];
      assert DistinctIds(p) by {
        forall j, k | 0 <= j < k < |p|
          ensures IdAt(p, j) != IdAt(p, k)
        {
          assert IdAt(ms, j) != IdAt(ms, k);
        }
      }
      KeepDistinct(p, drop[..n]);
      KeepExact(p, drop[..n]);
      var s := Keep(p, drop[..n]);
      var r := Keep(ms, drop);
      forall k | 0 <= k < |s|
        ensures s[k].id != ms[n].id
      {
        assert s[k] in p;
        var e :| 0 <= e < |p| && s[k] == p[e];
        assert IdAt(ms, e) != IdAt(ms, n);
      }
      forall j, k | 0 <= j < k < |r|
        ensures IdAt(r, j) != IdAt(r, k)
      {
        if k < |s| {
          assert IdAt(s, j) != IdAt(s, k);
        }
      }
    }
  }

  /** Every layer of the mines is among `players`. */
  predicate LayersWithin(ms: seq<Mine>, players: set<Player>)
    reads ms`layer
  {
    forall k :: 0 <= k < |ms| && ms[k].layer != null ==> ms[k].layer in players
  }

  // ---------------------------------------------------------------------
  // De-duplication

  /** The cell of a mine. */
  function CellOf(m: Mine): (int, int)
    reads m`x, m`y
  {
    (m.x, m.y)
  }

  /** The cells of the mines, in list order. */
  function Cells(ms: seq<Mine>): (r: seq<(int, int)>)
    reads ms`x, ms`y
    ensures |r| == |ms| && forall k :: 0 <= k < |ms| ==> r[k] == CellOf(ms[k])
  {
    if |ms| == 0 then [] else Cells(ms[..|ms| - 1]) + [CellOf(ms[|ms| - 1])]
  }

  /** Of the entries `xs` at cells `cs`, those whose cell no earlier entry
      has, in list order. */
  function FirstPerCell<T>(xs: seq<T>, cs: seq<(int, int)>): (r: seq<T>)
    requires |cs| == |xs|
    ensures |r| <= |xs|
  {
    if |xs| == 0 then []
    else
      var n := |xs| - 1;
      FirstPerCell(xs[..n], cs[..n]) + if cs[n] in cs[..n] then [] else [xs[n]]
  }

  /** Keeping from a prefix one longer. */
  lemma {:induction false} FirstPerCellSnoc<T>(xs: seq<T>, cs: seq<(int, int)>, i: nat)
    requires |cs| == |xs| && i < |xs|
    ensures FirstPerCell(xs[..i + 1], cs[..i + 1]) ==
      FirstPerCell(xs[..i], cs[..i]) + if cs[i] in cs[..i] then [] else [xs[i]]
  {
    assert xs[..i + 1][..i] == xs[..i] && cs[..i + 1][..i] == cs[..i];
  }

  /** Keeping by cells commutes with taking the cells. */
  lemma {:induction false} FirstPerCellCells(ms: seq<Mine>)
    ensures Cells(FirstPerCell(ms, Cells(ms))) == FirstPerCell(Cells(ms), Cells(ms))
  {
    if |ms| > 0 {
      var n := |ms| - 1;
      assert Cells(ms)[..n] == Cells(ms[..n]);
      FirstPerCellCells(ms[..n]);
    }
  }

  /** Exactly the cells of the list are kept. */
  lemma {:induction false} FirstCellsCover(cs: seq<(int, int)>)
    ensures forall c :: c in FirstPerCell(cs, cs) <==> c in cs
  {
    if |cs| > 0 {
      var n := |cs| - 1;
      FirstCellsCover(cs[..n]);
      assert cs == cs[..n] + [cs[n]];
    }
  }

  /** No entry of `s` repeats. */
  predicate NoRepeats<T(==)>(s: seq<T>) {
    forall j, k :: 0 <= j < k < |s| ==> s[j] != s[k]
  }

  /** No cell is kept twice. */
  lemma {:induction false} FirstCellsUnique(cs: seq<(int, int)>)
    ensures NoRepeats(FirstPerCell(cs, cs))
  {
    if |cs| > 0 {
      var n := |cs| - 1;
      var rp := FirstPerCell(cs[..n], cs[..n]);
      FirstCellsUnique(cs[..n]);
      FirstCellsCover(cs[..n]);
      if cs[n] !in cs[..n] {
        var r := rp + [cs[n]];
        assert FirstPerCell(cs, cs) == r;
        forall j, k | 0 <= j < k < |r|
          ensures r[j] != r[k]
        {
          if k == |rp| {
            assert r[j] == rp[j] && rp[j] in rp;
          } else {
            assert r[j] == rp[j] && r[k] == rp[k];
          }
        }
      } else {
        assert FirstPerCell(cs, cs) == rp;
      }
    }
  }

  /** An entry whose cell no earlier entry has is kept. */
  lemma {:induction false} FirstPerCellKeepsFirst<T>(xs: seq<T>, cs: seq<(int, int)>, k: nat)
    requires |cs| == |xs| && k < |xs| && cs[k] !in cs[..k]
    ensures xs[k] in FirstPerCell(xs, cs)
  {
    var n := |xs| - 1;
    if k < n {
      assert xs[..n][k] == xs[k] && cs[..n][k] == cs[k] && cs[..n][..k] == cs[..k];
      FirstPerCellKeepsFirst(xs[..n], cs[..n], k);
    }
  }

  /** After de-duplication no two mines share a cell, and every cell that
      had a mine still has one. */
  lemma {:induction false} FirstPerCellUnique(ms: seq<Mine>)
    ensures var r := FirstPerCell(ms, Cells(ms));
      NoRepeats(Cells(r)) && forall c :: c in Cells(r) <==> c in Cells(ms)
  {
    FirstPerCellCells(ms);
    FirstCellsUnique(Cells(ms));
    FirstCellsCover(Cells(ms));
  }

  class MineSystem {
    const grid: Grid
    const damage: DamageSystem
    const score: ScoreSystem
    const stun: StunSystem
    const ids: MineIds

    constructor (grid: Grid, damage: DamageSystem, score: ScoreSystem, stun: StunSystem, ids: MineIds)
      ensures this.grid == grid && this.damage == damage && this.score == score
      ensures this.stun == stun && this.ids == ids
    {
      this.grid := grid;
      this.damage := damage;
      this.score := score;
      this.stun := stun;
      this.ids := ids;
    }

    /** What the damage system reports as dealt by an explosion that is
        the `n`-th damage request. */
    function MineDealt(mine: Mine, tank: Tank, n: nat): int
      requires mine.damage.Some?
      reads mine`damage, mine`layerId, mine`layer, tank`owner
    {
      damage.Reported(n, MineRequest(mine, tank))
    }

    /** `TryDropMine`: without `CanUse` nothing happens; otherwise a mine
        of `MineDamage`, laid by the tank's player, goes on the cell behind
        the tank, and the ability is used once. */
    method TryDropMine(ability: MineAbility) returns (mine: Mine?)
      requires ability.tank != null
      modifies grid`mines, ids, ability`timer, ability.tank`item
      ensures !old(ability.CanUse(stun)) ==>
        mine == null && grid.mines == old(grid.mines) && ids.next == old(ids.next) &&
        ability.timer == old(ability.timer) && ability.tank.item == old(ability.tank.item)
      ensures old(ability.CanUse(stun)) ==>
        var tank := ability.tank;
        mine != null && fresh(mine) && grid.mines == old(grid.mines) + [mine] &&
        mine.x == tank.x - Normal(tank.direction).0 && mine.y == tank.y - Normal(tank.direction).1 &&
        mine.damage == Some(MineDamage) && mine.layer == tank.owner && mine.layerId == Some(tank.owner.id) &&
        !mine.IsExploded() && mine.id == old(ids.next) && ids.next == old(ids.next) + 1 &&
        (ability.stereo ==> ability.timer == Some(MineRegenerationTicks) && tank.item == old(tank.item)) &&
        (!ability.stereo ==> ability.timer == old(ability.timer) && tank.item.None?)
    {
      if !ability.CanUse(stun) {
        return null;
      }
      var tank := ability.tank;
      var (dx, dy) := Normal(tank.direction);
      mine := new Mine.Dropped(ids, tank.x - dx, tank.y - dy, MineDamage, tank.owner);
      grid.mines := grid.mines + [mine];
      ability.Use();
    }

    /** `HandleMineExplosion`: the mine (re)starts its explosion; a tank on
        it is sent a damage request, the layer is credited with what was
        dealt (never for a self-inflicted explosion, and in STEREO builds
        never for a team mate), and the tank is stunned by the mine. */
    method HandleMineExplosion(mine: Mine, tank: Tank?) returns (o: Outcome)
      requires stun.Valid()
      modifies mine`explosionRemainingTicks, damage`requests, stun`stunMap
      modifies LayerOf(mine)`score, TeamsOf(LayerOf(mine))`score
      ensures stun.Valid()
      ensures mine.explosionRemainingTicks == Some(ExplosionTicks)
      ensures tank == null ==> o == Pass
      ensures tank != null && mine.damage.None? ==> o == Throw(InvalidOperation)
      ensures tank == null || mine.damage.None? ==> damage.requests == old(damage.requests)
      ensures tank != null && mine.damage.Some? ==> damage.requests == old(damage.requests) + [old(MineRequest(mine, tank))]
      ensures tank != null && mine.damage.Some? ==>
        var dealt := MineDealt(mine, tank, |old(damage.requests)|);
        (NullTeam(mine, tank, score.stereo) ==> o == Throw(NullReference)) &&
        (Credits(mine, tank, score.stereo) && dealt < 0 ==> o == Throw(ArgumentOutOfRange)) &&
        (o.Pass? <==> !NullTeam(mine, tank, score.stereo) && !(Credits(mine, tank, score.stereo) && dealt < 0))
      ensures tank != null && o.Pass? ==> stun.stunMap == ApplyTo(old(stun.stunMap), tank.ownerId, mine.Stun())
      ensures tank == null || o.Throw? ==> stun.stunMap == old(stun.stunMap)
      ensures var l := mine.layer;
        l != null ==>
        if tank != null && mine.damage.Some? && Credits(mine, tank, score.stereo) && o.Pass? then
          var dealt := MineDealt(mine, tank, |old(damage.requests)|);
          (score.stereo ==> l.team.score == old(l.team.score) + dealt && l.score == old(l.score)) &&
          (!score.stereo ==> l.score == old(l.score) + dealt && (l.team != null ==> l.team.score == old(l.team.score)))
        else
          l.score == old(l.score) && (l.team != null ==> l.team.score == old(l.team.score))
    {
      mine.Explode();
      if tank == null {
        return Pass;
      }
      if mine.damage.None? {
        return Throw(InvalidOperation);
      }
      var suicide := Suicide(mine, tank);
      var dealt := damage.ApplyDamage(tank, mine.damage.value, if suicide then null else mine.layer);
      o := Pass;
      if mine.layer != null && !suicide {
        var layer := mine.layer;
        if score.stereo && layer.team == null {
          return Throw(NullReference);
        }
        if !score.stereo || !layer.team.Equals(tank.owner.team) {
          assert layer.team != null ==> layer.team in TeamsOf(LayerOf(mine));
          o := score.AwardPlayerScore(layer, dealt);
          if o.Throw? {
            return;
          }
        }
      }
      stun.ApplyStunKey(tank.ownerId, mine.Stun());
    }

    /** One mine of `TryExplodeAt(x, y)`'s walk: an armed mine explodes
        under the tank, any other mine is left alone. */
    method SetOff(mine: Mine, tank: Tank?, x: int, y: int, ghost players: set<Player>, ghost teams: set<Team>)
      returns (o: Outcome, fired: bool)
      requires stun.Valid() && LayerOf(mine) <= players && TeamsWithin(players, teams)
      modifies mine`explosionRemainingTicks, damage`requests, stun`stunMap, players`score, teams`score
      ensures stun.Valid()
      ensures fired == old(Armed(mine, x, y))
      ensures fired ==> mine.explosionRemainingTicks == Some(ExplosionTicks)
      ensures !fired ==> o == Pass && mine.explosionRemainingTicks == old(mine.explosionRemainingTicks)
      ensures !fired || tank == null ==> damage.requests == old(damage.requests) && stun.stunMap == old(stun.stunMap)
      ensures tank == null ==> o == Pass
      ensures old(damage.requests) <= damage.requests
      ensures fired && o.Pass? && tank != null ==> mine.damage.Some?
      ensures fired && o.Pass? && tank != null ==>
        damage.requests == old(damage.requests) + [old(MineRequest(mine, tank))] &&
        stun.stunMap == ApplyTo(old(stun.stunMap), tank.ownerId, mine.Stun())
    {
      fired := mine.x == x && mine.y == y && !mine.IsExploded();
      if !fired {
        return Pass, false;
      }
      TeamsWithinOf(LayerOf(mine), players, teams);
      o := HandleMineExplosion(mine, tank);
    }

    /** `TryExplodeAt`'s walk has reached the `i`-th of the listed mines
        `ms`, whose spots were `spots`: the mines are where they were, the
        armed ones before the `i`-th have exploded and every other mine
        keeps its countdown. */
    ghost predicate Ticked(ms: seq<Mine>, spots: seq<Spot>, charges: seq<Charge>, x: int, y: int, i: nat)
      reads ms`x, ms`y, ms`explosionRemainingTicks, ms`damage, ms`layerId, ms`layer
    {
      i <= |ms| == |spots| == |charges| &&
      forall k :: 0 <= k < |ms| ==>
        ms[k].x == spots[k].x && ms[k].y == spots[k].y && ChargeOf(ms[k]) == charges[k] &&
        ms[k].explosionRemainingTicks ==
          if ms[k] in ms[..i] && ArmedAt(spots[k], x, y) then Some(ExplosionTicks) else spots[k].ticks
    }

    /** ... and, under `tank`, the fired mines before it have sent their
        requests and stunned the tank's player, starting from the ledger
        `reqs` and the stun map `sm`. */
    ghost predicate Logged(ms: seq<Mine>, tank: Tank?, fires: seq<bool>, rs: seq<seq<DamageRequest>>,
                           reqs: seq<DamageRequest>, sm: map<string, Effects>, i: nat)
      reads this, damage, stun
    {
      i <= |ms| == |fires| == |rs| &&
      (tank == null ==> damage.requests == reqs && stun.stunMap == sm) &&
      (tank != null ==>
        damage.requests == reqs + Fired(fires, rs, i) && stun.stunMap == FiredStuns(sm, fires, ms, tank.ownerId, i))
    }

    /** One mine of `TryExplodeAt(x, y)`'s walk. */
    method ExplodeStep(ms: seq<Mine>, i: nat, tank: Tank?, x: int, y: int, ghost spots: seq<Spot>,
                       ghost charges: seq<Charge>, ghost fires: seq<bool>, ghost rs: seq<seq<DamageRequest>>,
                       ghost reqs: seq<DamageRequest>, ghost sm: map<string, Effects>,
                       ghost players: set<Player>, ghost teams: set<Team>)
      returns (o: Outcome)
      requires stun.Valid() && LayersWithin(ms, players) && TeamsWithin(players, teams) && i < |ms|
      requires Ticked(ms, spots, charges, x, y, i) && Logged(ms, tank, fires, rs, reqs, sm, i)
      requires fires[i] == (ArmedAt(spots[i], x, y) && ms[i] !in ms[..i])
      requires tank != null ==> rs[i] == ChargeRequest(charges[i], tank.ownerId, tank.owner.id)
      modifies ms`explosionRemainingTicks, damage`requests, stun`stunMap, players`score, teams`score
      ensures stun.Valid() && Ticked(ms, spots, charges, x, y, i + 1)
      ensures old(damage.requests) <= damage.requests
      ensures tank == null ==> o == Pass
      ensures o.Pass? ==> Logged(ms, tank, fires, rs, reqs, sm, i + 1)
    {
      var mine := ms[i];
      assert forall m :: m in ms[..i + 1] <==> m in ms[..i] || m == mine;
      assert Armed(mine, x, y) <==> fires[i];
      assert mine.layer != null ==> mine.layer in players;
      ghost var sent: seq<DamageRequest> := if tank != null && mine.damage.Some? then [MineRequest(mine, tank)] else [];
      assert tank != null ==> rs[i] == sent;
      var armed;
      o, armed := SetOff(mine, tank, x, y, players, teams);
      if o.Pass? && tank != null {
        assert damage.requests == old(damage.requests) + (if fires[i] then sent else []);
        assert Fired(fires, rs, i + 1) == Fired(fires, rs, i) + (if fires[i] then rs[i] else []);
        ghost var before := FiredStuns(sm, fires, ms, tank.ownerId, i);
        assert old(stun.stunMap) == before;
        assert stun.stunMap == if fires[i] then ApplyTo(before, tank.ownerId, mine.Stun()) else before;
        assert FiredStuns(sm, fires, ms, tank.ownerId, i + 1) == stun.stunMap;
      }
    }

    /** The walk of `TryExplodeAt(x, y)` over the listed mines `ms`, whose
        spots are `spots`, under `tank`: the mines flagged in `fires`
        explode in list order, and unless one throws each sends its request
        from `rs` and stuns the tank's player. */
    method ExplodeLoop(ms: seq<Mine>, tank: Tank?, x: int, y: int, ghost spots: seq<Spot>, ghost charges: seq<Charge>,
                      ghost fires: seq<bool>, ghost rs: seq<seq<DamageRequest>>, ghost players: set<Player>, ghost teams: set<Team>)
      returns (o: Outcome)
      requires stun.Valid() && LayersWithin(ms, players) && TeamsWithin(players, teams)
      requires Ticked(ms, spots, charges, x, y, 0) && |fires| == |rs| == |ms|
      requires forall k :: 0 <= k < |ms| ==> fires[k] == (ArmedAt(spots[k], x, y) && ms[k] !in ms[..k])
      requires tank != null ==> forall k :: 0 <= k < |ms| ==>
        rs[k] == ChargeRequest(charges[k], tank.ownerId, tank.owner.id)
      modifies ms`explosionRemainingTicks, damage`requests, stun`stunMap, players`score, teams`score
      ensures stun.Valid() && old(damage.requests) <= damage.requests
      ensures forall k :: 0 <= k < |ms| && !ArmedAt(spots[k], x, y) ==> ms[k].explosionRemainingTicks == spots[k].ticks
      ensures tank == null ==> o == Pass
      ensures o.Pass? ==> Ticked(ms, spots, charges, x, y, |ms|) && Logged(ms, tank, fires, rs, old(damage.requests), old(stun.stunMap), |ms|)
    {
      ghost var reqs, sm := damage.requests, stun.stunMap;
      o := Pass;
      var i := 0;
      while i < |ms| && o.Pass?
        invariant stun.Valid() && old(damage.requests) <= damage.requests && (tank == null ==> o == Pass)
        invariant Ticked(ms, spots, charges, x, y, i) && (o.Pass? ==> Logged(ms, tank, fires, rs, reqs, sm, i))
      {
        o := ExplodeStep(ms, i, tank, x, y, spots, charges, fires, rs, reqs, sm, players, teams);
        i := i + 1;
      }
    }

    /** The walk of `TryExplodeAt(x, y)` over the listed mines `ms` under
        `tank`, the first tank on the cell if any: the armed mines explode
        in list order; unless one throws, each sends its request and stuns
        the tank's player; no other mine changes. */
    method ExplodeAll(ms: seq<Mine>, tank: Tank?, x: int, y: int, ghost players: set<Player>, ghost teams: set<Team>)
      returns (o: Outcome)
      requires stun.Valid() && LayersWithin(ms, players) && TeamsWithin(players, teams)
      modifies ms`explosionRemainingTicks, damage`requests, stun`stunMap, players`score, teams`score
      ensures stun.Valid() && old(damage.requests) <= damage.requests
      ensures forall m :: m in ms && !old(Armed(m, x, y)) ==> m.explosionRemainingTicks == old(m.explosionRemainingTicks)
      ensures o.Pass? ==> forall m :: m in ms && old(Armed(m, x, y)) ==> m.explosionRemainingTicks == Some(ExplosionTicks)
      ensures tank == null ==> o == Pass && damage.requests == old(damage.requests) && stun.stunMap == old(stun.stunMap)
      ensures tank != null && o.Pass? ==>
        damage.requests == old(damage.requests) + old(ExplosionRequests(ms, x, y, tank)) &&
        stun.stunMap == old(ExplosionStuns(stun.stunMap, ms, x, y, tank.ownerId))
    {
      ghost var spots := Spots(ms);
      ghost var charges := Charges(ms);
      ghost var fires := FiresOf(ms, x, y);
      ghost var rs: seq<seq<DamageRequest>> := if tank != null then RequestsOf(ms, tank) else seq(|ms|, k => []);
      assert forall k :: 0 <= k < |ms| ==> fires[k] == (ArmedAt(spots[k], x, y) && ms[k] !in ms[..k]);
      assert ms[..0] == [];
      o := ExplodeLoop(ms, tank, x, y, spots, charges, fires, rs, players, teams);
      assert ms[..|ms|] == ms;
    }

    /** `TryExplodeAt(x, y)`: every mine on the cell that has not exploded
        explodes, in list order, under the first tank on the cell, which
        receives one damage request and one stun per explosion; no other
        mine changes. */
    method TryExplodeAt(x: int, y: int, ghost players: set<Player>, ghost teams: set<Team>) returns (o: Outcome)
      requires stun.Valid() && LayersWithin(grid.mines, players) && TeamsWithin(players, teams)
      modifies grid.mines`explosionRemainingTicks, damage`requests, stun`stunMap, players`score, teams`score
      ensures stun.Valid()
      ensures forall m :: m in grid.mines && !old(Armed(m, x, y)) ==>
        m.explosionRemainingTicks == old(m.explosionRemainingTicks)
      ensures o.Pass? ==> forall m :: m in grid.mines && old(Armed(m, x, y)) ==>
        m.explosionRemainingTicks == Some(ExplosionTicks)
      ensures old(FirstTankAt(grid.tanks, x, y)).None? ==>
        o == Pass && damage.requests == old(damage.requests) && stun.stunMap == old(stun.stunMap)
      ensures old(damage.requests) <= damage.requests
      ensures var t := old(FirstTankAt(grid.tanks, x, y));
        t.Some? && o.Pass? ==>
        damage.requests == old(damage.requests) + old(ExplosionRequests(grid.mines, x, y, grid.tanks[t.value])) &&
        stun.stunMap == old(ExplosionStuns(stun.stunMap, grid.mines, x, y, grid.tanks[t.value].ownerId))
    {
      var t := FirstTankAt(grid.tanks, x, y);
      var tank: Tank? := if t.Some? then grid.tanks[t.value] else null;
      o := ExplodeAll(grid.mines, tank, x, y, players, teams);
    }

    /** The sweep has reached the `i`-th of the listed mines `ms`: the
        mines before it carry the countdowns `swept` gives them, and for
        the rest `flags` still tells which go and `swept` what they will
        carry. */
    ghost predicate Reached(ms: seq<Mine>, flags: seq<bool>, swept: seq<Option<int>>, i: nat)
      requires grid.Valid()
      reads grid`dim, grid`wallGrid, grid`tanks, grid.tanks`x, grid.tanks`y, ms`x, ms`y, ms`explosionRemainingTicks
    {
      i <= |ms| == |flags| == |swept| &&
      (forall k :: 0 <= k < i ==> ms[k].explosionRemainingTicks == swept[k]) &&
      forall k :: i <= k < |ms| ==>
        flags[k] == GoneAt(Spot(ms[k].x, ms[k].y, ms[k].explosionRemainingTicks), grid.dim, grid.wallGrid) &&
        swept[k] == SweptTicks(ms[k], grid)
    }

    /** One mine of `Update`'s sweep: a mine off the grid, on a wall or
        spent goes; an unexploded mine explodes under the first tank on its
        cell; an exploded one ticks down. */
    method SweepMine(mine: Mine, ghost players: set<Player>, ghost teams: set<Team>) returns (o: Outcome, gone: bool)
      requires grid.Valid() && stun.Valid() && LayerOf(mine) <= players && TeamsWithin(players, teams)
      modifies mine`explosionRemainingTicks, damage`requests, stun`stunMap, players`score, teams`score
      ensures stun.Valid() && TeamsWithin(players, teams)
      ensures gone == old(Gone(mine, grid))
      ensures o.Pass? ==> mine.explosionRemainingTicks == old(SweptTicks(mine, grid))
      ensures !old(SetsOff(mine, grid)) ==>
        o == Pass && damage.requests == old(damage.requests) && stun.stunMap == old(stun.stunMap)
    {
      o := Pass;
      gone := !grid.IsCellWithinBounds(mine.x, mine.y) || grid.WallAt(mine.x, mine.y).Some? || mine.IsFullyExploded();
      if gone {
      } else if !mine.IsExploded() {
        var t := FirstTankAt(grid.tanks, mine.x, mine.y);
        if t.Some? {
          TeamsWithinOf(LayerOf(mine), players, teams);
          o := HandleMineExplosion(mine, grid.tanks[t.value]);
        }
      } else {
        mine.DecreaseExplosionTicks();
      }
    }

    /** The sweep's loop body: the `i`-th listed mine is swept, and kept
        when it does not go. */
    method SweepStep(ms: seq<Mine>, i: nat, ghost flags: seq<bool>, ghost swept: seq<Option<int>>, kept: seq<Mine>,
                     ghost players: set<Player>, ghost teams: set<Team>)
      returns (o: Outcome, kept': seq<Mine>)
      requires grid.Valid() && stun.Valid() && i < |ms| && DistinctIds(ms)
      requires Reached(ms, flags, swept, i) && kept == Keep(ms[..i], flags[..i])
      requires LayersWithin(ms, players) && TeamsWithin(players, teams)
      modifies ms`explosionRemainingTicks, damage`requests, stun`stunMap, players`score, teams`score
      ensures stun.Valid() && LayersWithin(ms, players) && TeamsWithin(players, teams)
      ensures kept' == Keep(ms[..i + 1], flags[..i + 1])
      ensures o.Pass? ==> Reached(ms, flags, swept, i + 1)
    {
      assert ms[i].layer != null ==> ms[i].layer in players;
      Unaliased(ms, i);
      KeepSnoc(ms, flags, i);
      var gone;
      o, gone := SweepMine(ms[i], players, teams);
      kept' := if gone then kept else kept + [ms[i]];
    }

    /** The sweep's loop over the listed mines `ms`: each one, in order,
        goes, explodes or ticks down; unless an explosion throws, the mines
        kept are those not flagged to go. */
    method SweepList(ms: seq<Mine>, ghost flags: seq<bool>, ghost swept: seq<Option<int>>,
                     ghost players: set<Player>, ghost teams: set<Team>)
      returns (o: Outcome, kept: seq<Mine>)
      requires grid.Valid() && stun.Valid() && DistinctIds(ms) && Reached(ms, flags, swept, 0)
      requires LayersWithin(ms, players) && TeamsWithin(players, teams)
      modifies ms`explosionRemainingTicks, damage`requests, stun`stunMap, players`score, teams`score
      ensures stun.Valid()
      ensures o.Pass? ==> kept == Keep(ms, flags)
      ensures o.Pass? ==> forall k :: 0 <= k < |ms| ==> ms[k].explosionRemainingTicks == swept[k]
    {
      kept := [];
      o := Pass;
      var i := 0;
      while i < |ms| && o.Pass?
        invariant grid.Valid() && stun.Valid() && LayersWithin(ms, players) && TeamsWithin(players, teams)
        invariant i <= |ms| && kept == Keep(ms[..i], flags[..i])
        invariant o.Pass? ==> Reached(ms, flags, swept, i)
      {
        o, kept := SweepStep(ms, i, flags, swept, kept, players, teams);
        i := i + 1;
      }
      assert o.Pass? ==> ms[..|ms|] == ms && flags[..|ms|] == flags;
    }

    /** The first half of `Update`: every listed mine, in order, leaves the
        list, explodes or ticks down; the list left is the survivors. */
    method Sweep(ghost players: set<Player>, ghost teams: set<Team>) returns (o: Outcome)
      requires grid.Valid() && stun.Valid() && LayersWithin(grid.mines, players) && TeamsWithin(players, teams)
      requires DistinctIds(grid.mines)
      modifies grid`mines, grid.mines`explosionRemainingTicks, damage`requests, stun`stunMap, players`score, teams`score
      ensures stun.Valid()
      ensures o.Pass? ==> grid.mines == old(Survivors(grid.mines, grid)) && DistinctIds(grid.mines)
      ensures o.Pass? ==> forall m :: m in old(grid.mines) ==> m.explosionRemainingTicks == old(SweptTicks(m, grid))
    {
      var ms := grid.mines;
      ghost var flags := GoneFlags(Spots(ms), grid.dim, grid.wallGrid);
      ghost var swept := SweptAll(ms, grid);
      var kept;
      o, kept := SweepList(ms, flags, swept, players, teams);
      if o.Pass? {
        KeepDistinct(ms, flags);
        grid.mines := kept;
      }
    }

    /** The de-duplication loop's body: the `i`-th listed mine stays when
        no mine before it was on its cell, and its cell is seen. */
    method DedupeStep(ms: seq<Mine>, i: nat, ghost cs: seq<(int, int)>, kept: seq<Mine>, seen: set<(int, int)>)
      returns (kept': seq<Mine>, seen': set<(int, int)>)
      requires i < |ms| == |cs| && cs[i] == CellOf(ms[i])
      requires kept == FirstPerCell(ms[..i], cs[..i]) && forall c :: c in seen <==> c in cs[..i]
      ensures kept' == FirstPerCell(ms[..i + 1], cs[..i + 1]) && forall c :: c in seen' <==> c in cs[..i + 1]
    {
      var mine := ms[i];
      FirstPerCellSnoc(ms, cs, i);
      assert cs[..i + 1] == cs[..i] + [cs[i]];
      if (mine.x, mine.y) in seen {
        kept' := kept;
        seen' := seen;
      } else {
        kept' := kept + [mine];
        seen' := seen + {(mine.x, mine.y)};
      }
    }

    /** The de-duplication loop over the listed mines `ms`: the mines that
        stay, in list order. */
    method Deduplicated(ms: seq<Mine>) returns (kept: seq<Mine>)
      ensures kept == FirstPerCell(ms, Cells(ms))
    {
      ghost var cs := Cells(ms);
      kept := [];
      var seen: set<(int, int)> := {};
      for i := 0 to |ms|
        invariant kept == FirstPerCell(ms[..i], cs[..i]) && forall c :: c in seen <==> c in cs[..i]
      {
        kept, seen := DedupeStep(ms, i, cs, kept, seen);
      }
      assert ms[..|ms|] == ms && cs[..|ms|] == cs;
    }

    /** The second half of `Update`: of the mines sharing a cell only the
        first in list order stays. */
    method Dedupe()
      modifies grid`mines
      ensures grid.mines == FirstPerCell(old(grid.mines), Cells(old(grid.mines)))
    {
      grid.mines := Deduplicated(grid.mines);
    }

    /** `Update`: the sweep, then the de-duplication. Unless an explosion
        throws, the mines left are the first on each cell among the
        survivors, no two share a cell, and every cell with a survivor
        still has a mine. */
    method Update(ghost players: set<Player>, ghost teams: set<Team>) returns (o: Outcome)
      requires grid.Valid() && stun.Valid() && LayersWithin(grid.mines, players) && TeamsWithin(players, teams)
      requires DistinctIds(grid.mines)
      modifies grid`mines, grid.mines`explosionRemainingTicks, damage`requests, stun`stunMap, players`score, teams`score
      ensures stun.Valid()
      ensures o.Pass? ==> var s := old(Survivors(grid.mines, grid));
        grid.mines == FirstPerCell(s, Cells(s)) && NoRepeats(Cells(grid.mines)) &&
        forall c :: c in Cells(grid.mines) <==> c in Cells(s)
      ensures o.Pass? ==> forall m :: m in old(grid.mines) ==> m.explosionRemainingTicks == old(SweptTicks(m, grid))
    {
      o := Sweep(players, teams);
      if o.Throw? {
        return;
      }
      Dedupe();
      FirstPerCellUnique(old(Survivors(grid.mines, grid)));
    }
  }
}
