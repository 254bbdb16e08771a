/** `LaserSystem`: firing a laser beam along the turret, and the per-tick
    update that ages the lasers, removes the spent ones, damages the tanks
    standing in a beam and sets off the mines under it. Damage goes through
    the damage system's request ledger; an exception the C# code would
    throw ends the operation with a `Throw` outcome. */
module LogicLaserSystem {
  import opened Wrappers
  import opened LogicDirections
  import opened LogicStun
  import opened LogicTanks
  import opened LogicScore
  import opened LogicLasers
  import opened LogicGrid
  import opened LogicDamage
  import opened LogicMines
  import opened LogicMineSystem

  /** `LaserDamage`. */
  const LaserDamage := 80

  // ---------------------------------------------------------------------
  // The beam

  /** The cell `k` steps from (x, y) in direction `d`: `k` times the
      direction's normal. */
  function Ahead(x: int, y: int, d: Direction, k: int): (int, int) {
    match d
    case Up => (x, y - k)
    case Right => (x + k, y)
    case Down => (x, y + k)
    case Left => (x - k, y)
  }

  /** The cell `k` steps ahead is `k` unit steps along `d`'s normal. */
  lemma {:induction false} AheadScales(x: int, y: int, d: Direction, k: int)
    ensures Ahead(x, y, d, k) == (x + k * Normal(d).0, y + k * Normal(d).1)
  {
  }

  /** One more step ahead is one more unit step along `d`'s normal. */
  lemma {:induction false} AheadNext(x: int, y: int, d: Direction, k: int)
    ensures Ahead(x, y, d, k + 1) == (Ahead(x, y, d, k).0 + Normal(d).0, Ahead(x, y, d, k).1 + Normal(d).1)
  {
  }

  /** A beam can pass the cell: it lies on the `dim` by `dim` grid and holds
      no wall. */
  predicate Open(c: (int, int), dim: int, walls: seq<seq<Option<Wall>>>)
    requires Square(walls, dim)
  {
    0 <= c.0 < dim && 0 <= c.1 < dim && walls[c.0][c.1].None?
  }

  /** The beam from a tank at (x, y) facing `d`: the cells one, two, ...
      steps ahead, all open, up to and excluding the first that is not. */
  predicate IsBeam(tiles: seq<(int, int)>, x: int, y: int, d: Direction, dim: int, walls: seq<seq<Option<Wall>>>)
    requires Square(walls, dim)
  {
    (forall k :: 0 <= k < |tiles| ==> tiles[k] == Ahead(x, y, d, k + 1) && Open(tiles[k], dim, walls)) &&
    !Open(Ahead(x, y, d, |tiles| + 1), dim, walls)
  }

  /** How many more steps in direction `d` stay on a `dim`-wide grid. */
  function StepsLeft(x: int, y: int, d: Direction, dim: int): int {
    match d
    case Up => y + 1
    case Right => dim - x
    case Down => dim - y
    case Left => x + 1
  }

  /** Only one sequence of cells is the beam. */
  lemma {:induction false} BeamUnique(a: seq<(int, int)>, b: seq<(int, int)>, x: int, y: int, d: Direction,
                   dim: int, walls: seq<seq<Option<Wall>>>)
    requires Square(walls, dim)
    requires IsBeam(a, x, y, d, dim, walls) && IsBeam(b, x, y, d, dim, walls)
    ensures a == b
  {
    if |a| < |b| {
      BeamOpen(b, x, y, d, dim, walls, |a|);
      assert false;
    } else if |b| < |a| {
      BeamOpen(a, x, y, d, dim, walls, |b|);
      assert false;
    }
  }

  /** Every cell before the end of the beam is open. */
  lemma {:induction false} BeamOpen(tiles: seq<(int, int)>, x: int, y: int, d: Direction, dim: int, walls: seq<seq<Option<Wall>>>, k: nat)
    requires Square(walls, dim) && IsBeam(tiles, x, y, d, dim, walls) && k < |tiles|
    ensures Open(Ahead(x, y, d, k + 1), dim, walls)
  {
    assert tiles[k] == Ahead(x, y, d, k + 1);
  }

  /** A beam fired from a cell of the grid has fewer cells than the grid is
      wide. */
  lemma {:induction false} BeamFits(tiles: seq<(int, int)>, x: int, y: int, d: Direction, dim: int, walls: seq<seq<Option<Wall>>>)
    requires Square(walls, dim) && 0 <= x < dim && 0 <= y < dim
    requires IsBeam(tiles, x, y, d, dim, walls)
    ensures |tiles| < dim
  {
    if |tiles| > 0 {
      var last := tiles[|tiles| - 1];
      assert last == Ahead(x, y, d, |tiles|) && Open(last, dim, walls);
    }
  }

  // ---------------------------------------------------------------------
  // Fired lasers

  /** The laser was fired onto cell `c` as the laser numbered `id`: the
      beam's orientation, `LaserDamage`, a full `BlastTicks` of life and
      the shooter beside the shooter's id. */
  predicate FiredAt(l: Laser, c: (int, int), orientation: Orientation, shooter: Player, id: int)
    reads l
  {
    l.id == id && (l.x, l.y) == c && l.orientation == orientation && l.damage == Some(LaserDamage) &&
    l.remainingTicks == BlastTicks && l.shooter == shooter && l.shooterId == Some(shooter.id)
  }

  /** The lasers are the beam from a tank at (x, y) facing `d`: one per
      cell, in order, fired by `shooter` and numbered from `id0` on. */
  predicate Beamed(ls: seq<Laser>, x: int, y: int, d: Direction, shooter: Player, id0: int,
                   dim: int, walls: seq<seq<Option<Wall>>>)
    requires Square(walls, dim)
    reads ls
  {
    IsBeam(LaserCells(ls), x, y, d, dim, walls) &&
    forall k :: 0 <= k < |ls| ==> FiredAt(ls[k], (ls[k].x, ls[k].y), ToOrientation(d), shooter, id0 + k)
  }

  /** The cells of the lasers, in list order. */
  function LaserCells(ls: seq<Laser>): (r: seq<(int, int)>)
    ensures |r| == |ls| && forall k :: 0 <= k < |ls| ==> r[k] == (ls[k].x, ls[k].y)
  {
    if |ls| == 0 then [] else LaserCells(ls[..|ls| - 1]) + [(ls[|ls| - 1].x, ls[|ls| - 1].y)]
  }

  /** The lasers as stun effects, in list order. */
  function LaserStuns(ls: seq<Laser>): (r: seq<StunKey>)
    ensures |r| == |ls| && forall k :: 0 <= k < |ls| ==> r[k] == LaserStun(ls[k].id)
  {
    if |ls| == 0 then [] else LaserStuns(ls[..|ls| - 1]) + [ls[|ls| - 1].Stun()]
  }

  // ---------------------------------------------------------------------
  // Damage

  /** The laser's shooter, as a frame. */
  function ShooterOf(l: Laser): set<Player>
    reads l`shooter
  {
    if l.shooter == null then {} else {l.shooter}
  }

  /** Every shooter of the lasers is among `players`. */
  predicate ShootersWithin(ls: seq<Laser>, players: set<Player>)
    reads ls`shooter
  {
    forall k :: 0 <= k < |ls| && ls[k].shooter != null ==> ls[k].shooter in players
  }

  /** The shooters of the lasers and the layers of the mines are among
      `players`, whose teams are among `teams`. */
  predicate Scoped(ls: seq<Laser>, ms: seq<Mine>, players: set<Player>, teams: set<Team>)
    reads ls`shooter, ms`layer, players`team
  {
    ShootersWithin(ls, players) && LayersWithin(ms, players) && TeamsWithin(players, teams)
  }

  /** The damage request of a laser hitting a tank: the laser's damage,
      with the shooter as damager. */
  function LaserRequest(l: Laser, tank: Tank): DamageRequest
    requires l.damage.Some?
    reads l`damage, l`shooter
  {
    DamageRequest(tank.ownerId, l.damage.value, IdOf(l.shooter))
  }

  /** The damage requests of a laser hitting each of the tanks in turn. */
  function HitRequests(l: Laser, tanks: seq<Tank>): (r: seq<DamageRequest>)
    requires l.damage.Some?
    reads l`damage, l`shooter
    ensures |r| == |tanks|
  {
    if |tanks| == 0 then [] else HitRequests(l, tanks[..|tanks| - 1]) + [LaserRequest(l, tanks[|tanks| - 1])]
  }

  /** The requests of a laser's hits are one per tank, in order. */
  lemma {:induction false} HitRequestsExact(l: Laser, tanks: seq<Tank>)
    requires l.damage.Some?
    ensures forall k :: 0 <= k < |tanks| ==> HitRequests(l, tanks)[k] == LaserRequest(l, tanks[k])
  {
    if |tanks| > 0 {
      HitRequestsExact(l, tanks[..|tanks| - 1]);
    }
  }

  /** In STEREO builds a shooter without a team makes the team comparison
      throw. */
  predicate ShooterNullTeam(l: Laser, stereo: bool)
    reads l`shooter, ShooterOf(l)`team
  {
    stereo && l.shooter != null && l.shooter.team == null
  }

  /** The shooter is credited with the damage: there is a shooter and, in
      STEREO builds, its team is not the victim's. */
  predicate ShooterCredited(l: Laser, tank: Tank, stereo: bool)
    reads l`shooter, ShooterOf(l)`team, tank`owner, tank.owner`team
  {
    l.shooter != null && (stereo ==> l.shooter.team != null && !l.shooter.team.Equals(tank.owner.team))
  }

  /** The tanks on (x, y), in list order. */
  function TanksAt(tanks: seq<Tank>, x: int, y: int): (r: seq<Tank>)
    reads tanks`x, tanks`y
    ensures |r| <= |tanks|
  {
    if |tanks| == 0 then []
    else
      var n := |tanks| - 1;
      TanksAt(tanks[..n], x, y) + if tanks[n].x == x && tanks[n].y == y then [tanks[n]] else []
  }

  /** Exactly the listed tanks on (x, y) are picked. */
  lemma {:induction false} TanksAtExact(tanks: seq<Tank>, x: int, y: int)
    ensures forall t :: t in TanksAt(tanks, x, y) ==> t in tanks && t.x == x && t.y == y
    ensures forall t :: t in tanks && t.x == x && t.y == y ==> t in TanksAt(tanks, x, y)
  {
    if |tanks| > 0 {
      var n := |tanks| - 1;
      TanksAtExact(tanks[..n], x, y);
      assert tanks == tanks[..n] + [tanks[n]];
    }
  }

  /** Some tanks are picked exactly when the grid has a first tank on the
      cell. */
  lemma {:induction false} TanksAtNone(tanks: seq<Tank>, x: int, y: int)
    ensures TanksAt(tanks, x, y) == [] <==> FirstTankAt(tanks, x, y).None?
  {
    TanksAtExact(tanks, x, y);
    var f := FirstTankAt(tanks, x, y);
    if f.Some? {
      assert tanks[f.value] in TanksAt(tanks, x, y);
    } else {
      assert TanksAt(tanks, x, y) != [] ==> TanksAt(tanks, x, y)[0] in TanksAt(tanks, x, y);
    }
  }

  // ---------------------------------------------------------------------
  // The update's bookkeeping

  /** The countdowns of the lasers, in list order. */
  function TicksOf(ls: seq<Laser>): (r: seq<int>)
    reads ls`remainingTicks
    ensures |r| == |ls| && forall k :: 0 <= k < |ls| ==> r[k] == ls[k].remainingTicks
  {
    if |ls| == 0 then [] else TicksOf(ls[..|ls| - 1]) + [ls[|ls| - 1].remainingTicks]
  }

  /** Whether a laser with each countdown is spent by one more tick. */
  function Spent(ticks: seq<int>): (r: seq<bool>)
    ensures |r| == |ticks| && forall k :: 0 <= k < |ticks| ==> r[k] == (ticks[k] - 1 <= 0)
  {
    if |ticks| == 0 then [] else Spent(ticks[..|ticks| - 1]) + [ticks[|ticks| - 1] - 1 <= 0]
  }

  /** The lasers an update keeps, in list order. */
  function Remaining(ls: seq<Laser>): seq<Laser>
    reads ls`remainingTicks
  {
    Keep(ls, Spent(TicksOf(ls)))
  }

  /** No two lasers share an id: the counter hands out each id once. */
  predicate DistinctLaserIds(ls: seq<Laser>) {
    forall j, k :: 0 <= j < k < |ls| ==> LaserIdAt(ls, j) != LaserIdAt(ls, k)
  }

  /** The id of the `k`-th laser. */
  function LaserIdAt(ls: seq<Laser>, k: int): int
    requires 0 <= k < |ls|
  {
    ls[k].id
  }

  /** With distinct ids, a laser stays after an update exactly when it is
      listed and its countdown was above one. */
  lemma {:induction false} RemainingExact(ls: seq<Laser>)
    requires DistinctLaserIds(ls)
    ensures forall l :: l in Remaining(ls) <==> l in ls && l.remainingTicks > 1
  {
    var drop := Spent(TicksOf(ls));
    KeepExact(ls, drop);
    KeepUnflagged(ls, drop);
    forall l | l in ls && l.remainingTicks > 1
      ensures l in Remaining(ls)
    {
      var k :| 0 <= k < |ls| && ls[k] == l;
      assert !drop[k];
    }
  }

  /** The update has aged the first `i` of the lasers `ls` by one tick and
      left the rest at their countdowns `ticks`. */
  ghost predicate Counted(ls: seq<Laser>, ticks: seq<int>, i: nat)
    reads ls`remainingTicks
  {
    i <= |ls| == |ticks| &&
    forall k :: 0 <= k < |ls| ==> ls[k].remainingTicks == if k < i then ticks[k] - 1 else ticks[k]
  }

  /** With distinct ids, the `i`-th laser is none of the others. */
  lemma {:induction false} LaserUnaliased(ls: seq<Laser>, i: nat)
    requires DistinctLaserIds(ls) && i < |ls|
    ensures forall k :: 0 <= k < |ls| && k != i ==> ls[k] != ls[i]
  {
    forall k | 0 <= k < |ls| && k != i
      ensures ls[k] != ls[i]
    {
      if k < i {
        assert LaserIdAt(ls, k) != LaserIdAt(ls, i);
      } else {
        assert LaserIdAt(ls, i) != LaserIdAt(ls, k);
      }
    }
  }

  class LaserSystem {
    const grid: Grid
    const damage: DamageSystem
    const score: ScoreSystem
    const stun: StunSystem
    const mines: MineSystem
    const ids: LaserIds

    /** The mine system works on the same grid and systems. */
    ghost predicate Wired() {
      mines.grid == grid && mines.damage == damage && mines.score == score && mines.stun == stun
    }

    /** The systems are consistent and every mine layer, with its team, is
        among `players` and `teams`: what a strike needs. */
    ghost predicate Ready(players: set<Player>, teams: set<Team>)
      reads grid`dim, grid`wallGrid, grid`mines, stun, grid.mines`layer, players`team
    {
      grid.Valid() && stun.Valid() && Wired() && LayersWithin(grid.mines, players) && TeamsWithin(players, teams)
    }

    constructor (grid: Grid, damage: DamageSystem, score: ScoreSystem, stun: StunSystem, mines: MineSystem, ids: LaserIds)
      requires mines.grid == grid && mines.damage == damage && mines.score == score && mines.stun == stun
      ensures Wired() && this.ids == ids
    {
      this.grid := grid;
      this.damage := damage;
      this.score := score;
      this.stun := stun;
      this.mines := mines;
      this.ids := ids;
    }

    /** The tile walk of `TryUseLaser`: from the cell ahead of (x, y),
        step along `d` while on the grid, stopping at a wall. */
    method BeamTiles(x: int, y: int, d: Direction) returns (tiles: seq<(int, int)>)
      requires grid.Valid()
      ensures IsBeam(tiles, x, y, d, grid.dim, grid.wallGrid)
    {
      var (nx, ny) := Normal(d);
      tiles := [];
      var cx, cy := x + nx, y + ny;
      while grid.IsCellWithinBounds(cx, cy)
        invariant (cx, cy) == Ahead(x, y, d, |tiles| + 1)
        invariant forall k :: 0 <= k < |tiles| ==> tiles[k] == Ahead(x, y, d, k + 1) && Open(tiles[k], grid.dim, grid.wallGrid)
        decreases StepsLeft(cx, cy, d, grid.dim)
      {
        if grid.WallAt(cx, cy).Some? {
          break;
        }
        AheadNext(x, y, d, |tiles| + 1);
        tiles := tiles + [(cx, cy)];
        cx, cy := cx + nx, cy + ny;
      }
    }

    /** The laser loop of `TryUseLaser`: one new laser per tile, in tile
        order, numbered by the counter. */
    method MakeLasers(tiles: seq<(int, int)>, orientation: Orientation, shooter: Player) returns (lasers: seq<Laser>)
      modifies ids
      ensures |lasers| == |tiles| && ids.next == old(ids.next) + |tiles|
      ensures forall k :: 0 <= k < |tiles| ==>
        fresh(lasers[k]) && FiredAt(lasers[k], tiles[k], orientation, shooter, old(ids.next) + k)
    {
      lasers := [];
      for i := 0 to |tiles|
        invariant |lasers| == i && ids.next == old(ids.next) + i
        invariant forall k :: 0 <= k < i ==>
          fresh(lasers[k]) && FiredAt(lasers[k], tiles[k], orientation, shooter, old(ids.next) + k)
      {
        var (x, y) := tiles[i];
        var laser := new Laser.Fired(ids, x, y, orientation, LaserDamage, shooter);
        lasers := lasers + [laser];
      }
    }

    /** The state after firing the lasers `ls` from a tank at (x, y)
        facing `d`, owned by `shooter` (with id `target`): they are the
        beam, numbered from `id0` on, appended to the grid's lasers
        `before`, and each of them stuns the tank on top of `map0`. */
    ghost predicate Launched(ls: seq<Laser>, x: int, y: int, d: Direction, shooter: Player, target: string,
                             id0: int, before: seq<Laser>, map0: map<string, Effects>)
      reads grid`lasers, grid`dim, grid`wallGrid, ids`next, stun`stunMap, ls
    {
      grid.Valid() && grid.lasers == before + ls && ids.next == id0 + |ls| &&
      Beamed(ls, x, y, d, shooter, id0, grid.dim, grid.wallGrid) &&
      stun.stunMap == ApplyAll(map0, target, LaserStuns(ls))
    }

    /** The firing of `TryUseLaser`: one new laser per cell of the beam
        ahead of the tank joins the grid, and each stuns the tank. */
    method Fire(tank: Tank, d: Direction) returns (lasers: seq<Laser>)
      requires grid.Valid() && stun.Valid()
      modifies grid`lasers, ids, stun`stunMap
      ensures stun.Valid() && forall k :: 0 <= k < |lasers| ==> fresh(lasers[k])
      ensures Launched(lasers, tank.x, tank.y, d, tank.owner, tank.ownerId, old(ids.next), old(grid.lasers), old(stun.stunMap))
    {
      var tiles := BeamTiles(tank.x, tank.y, d);
      lasers := MakeLasers(tiles, ToOrientation(d), tank.owner);
      assert LaserCells(lasers) == tiles;
      grid.lasers := grid.lasers + lasers;
      stun.ApplyStuns(tank.ownerId, LaserStuns(lasers));
    }

    /** `TryUseLaser`: without `CanUse` nothing happens; otherwise one
        laser per cell of the beam ahead of the turret joins the grid, the
        firing tank is stunned by each of them, and the ability is used
        once. */
    method TryUseLaser(ability: LaserAbility) returns (r: Option<seq<Laser>>)
      requires grid.Valid() && stun.Valid() && ability.turret != null && ability.turret.tank != null
      modifies grid`lasers, ids, stun`stunMap, ability`timer, ability.turret.tank`item
      ensures stun.Valid()
      ensures !old(ability.CanUse(stun)) ==>
        r.None? && grid.lasers == old(grid.lasers) && ids.next == old(ids.next) && stun.stunMap == old(stun.stunMap) &&
        ability.timer == old(ability.timer) && ability.turret.tank.item == old(ability.turret.tank.item)
      ensures old(ability.CanUse(stun)) ==>
        var tank := ability.turret.tank;
        r.Some? && (forall k :: 0 <= k < |r.value| ==> fresh(r.value[k])) &&
        Launched(r.value, tank.x, tank.y, ability.turret.direction, tank.owner, tank.ownerId,
                 old(ids.next), old(grid.lasers), old(stun.stunMap)) &&
        (ability.stereo ==> ability.timer == Some(LaserRegenerationTicks) && tank.item == old(tank.item)) &&
        (!ability.stereo ==> ability.timer == old(ability.timer) && tank.item.None?)
    {
      if !ability.CanUse(stun) {
        return None;
      }
      var turret := ability.turret;
      var tank := turret.tank;
      var lasers := Fire(tank, turret.direction);
      ability.Use();
      return Some(lasers);
    }

    /** One tank of a laser's hits: the tank is sent a damage request, and
        the shooter is credited with what was dealt (in STEREO builds only
        for a tank of another team); a laser without damage throws. */
    method HitTank(l: Laser, tank: Tank, ghost players: set<Player>, ghost teams: set<Team>) returns (o: Outcome)
      requires ShooterOf(l) <= players && TeamsWithin(players, teams)
      modifies damage`requests, players`score, teams`score
      ensures l.damage.None? ==> o == Throw(InvalidOperation) && damage.requests == old(damage.requests)
      ensures l.damage.Some? ==> damage.requests == old(damage.requests) + [LaserRequest(l, tank)]
      ensures l.damage.Some? ==>
        var dealt := damage.Reported(|old(damage.requests)|, LaserRequest(l, tank));
        (ShooterNullTeam(l, score.stereo) ==> o == Throw(NullReference)) &&
        (ShooterCredited(l, tank, score.stereo) && dealt < 0 ==> o == Throw(ArgumentOutOfRange)) &&
        (o.Pass? <==> !ShooterNullTeam(l, score.stereo) && !(ShooterCredited(l, tank, score.stereo) && dealt < 0))
      ensures var s := l.shooter;
        s != null ==>
        if l.damage.Some? && ShooterCredited(l, tank, score.stereo) && o.Pass? then
          var dealt := damage.Reported(|old(damage.requests)|, LaserRequest(l, tank));
          (score.stereo ==> s.team.score == old(s.team.score) + dealt && s.score == old(s.score)) &&
          (!score.stereo ==> s.score == old(s.score) + dealt && (s.team != null ==> s.team.score == old(s.team.score)))
        else
          s.score == old(s.score) && (s.team != null ==> s.team.score == old(s.team.score))
    {
      if l.damage.None? {
        return Throw(InvalidOperation);
      }
      var dealt := damage.ApplyDamage(tank, l.damage.value, l.shooter);
      o := Pass;
      if l.shooter != null {
        var shooter := l.shooter;
        if score.stereo && shooter.team == null {
          return Throw(NullReference);
        }
        if !score.stereo || !shooter.team.Equals(tank.owner.team) {
          o := score.AwardPlayerScore(shooter, dealt);
        }
      }
    }

    /** The tank loop of `Update` for one laser: each tank in turn is hit;
        unless a hit throws, the requests sent are one per tank, in order. */
    method HitTanks(l: Laser, tanks: seq<Tank>, ghost players: set<Player>, ghost teams: set<Team>) returns (o: Outcome)
      requires ShooterOf(l) <= players && TeamsWithin(players, teams)
      modifies damage`requests, players`score, teams`score
      ensures old(damage.requests) <= damage.requests
      ensures |tanks| == 0 ==> o == Pass
      ensures l.damage.None? ==> damage.requests == old(damage.requests) && (|tanks| > 0 ==> o == Throw(InvalidOperation))
      ensures o.Pass? && l.damage.Some? ==> damage.requests == old(damage.requests) + HitRequests(l, tanks)
    {
      o := Pass;
      for i := 0 to |tanks|
        invariant o == Pass && (l.damage.None? ==> i == 0 && damage.requests == old(damage.requests))
        invariant l.damage.Some? ==> damage.requests == old(damage.requests) + HitRequests(l, tanks[..i])
      {
        assert tanks[..i + 1] == tanks[..i] + [tanks[i]];
        o := HitTank(l, tanks[i], players, teams);
        if o.Throw? {
          return;
        }
      }
      assert tanks[..|tanks|] == tanks;
    }

    /** The mine system's `TryExplodeAt(x, y)` on this grid. */
    method Detonate(x: int, y: int, ghost players: set<Player>, ghost teams: set<Team>) returns (o: Outcome)
      requires Ready(players, teams)
      modifies damage`requests, stun`stunMap, players`score, teams`score, grid.mines`explosionRemainingTicks
      ensures stun.Valid() && old(damage.requests) <= damage.requests
      ensures o.Pass? ==> forall m :: m in grid.mines && old(Armed(m, x, y)) ==> m.explosionRemainingTicks == Some(ExplosionTicks)
    {
      o := mines.TryExplodeAt(x, y, players, teams);
    }

    /** What a live laser does in `Update`: it hits every tank on its
        cell, `hit`, in order, then sets off the armed mines there. */
    method Strike(l: Laser, ghost hit: seq<Tank>, ghost players: set<Player>, ghost teams: set<Team>)
      returns (o: Outcome)
      requires Ready(players, teams) && ShooterOf(l) <= players && hit == TanksAt(grid.tanks, l.x, l.y)
      modifies damage`requests, stun`stunMap, players`score, teams`score, grid.mines`explosionRemainingTicks
      ensures stun.Valid()
      ensures l.damage.None? && hit != [] ==> o == Throw(InvalidOperation)
      ensures o.Pass? && l.damage.Some? ==> old(damage.requests + HitRequests(l, hit)) <= damage.requests
      ensures o.Pass? ==> forall m :: m in grid.mines && old(Armed(m, l.x, l.y)) ==>
        m.explosionRemainingTicks == Some(ExplosionTicks)
    {
      var tanks := TanksAt(grid.tanks, l.x, l.y);
      o := HitTanks(l, tanks, players, teams);
      if o.Throw? {
        return;
      }
      ghost var sent := damage.requests;
      o := Detonate(l.x, l.y, players, teams);
      assert sent <= damage.requests;
    }

    /** One laser of `Update`: it ages by a tick; a spent laser does
        nothing more, a live one strikes its cell. */
    method SweepLaser(l: Laser, ghost hit: seq<Tank>, ghost players: set<Player>, ghost teams: set<Team>)
      returns (o: Outcome, gone: bool)
      requires Ready(players, teams) && ShooterOf(l) <= players && hit == TanksAt(grid.tanks, l.x, l.y)
      modifies l`remainingTicks, damage`requests, stun`stunMap, players`score, teams`score
      modifies grid.mines`explosionRemainingTicks
      ensures stun.Valid()
      ensures l.remainingTicks == old(l.remainingTicks) - 1
      ensures gone <==> old(l.remainingTicks) <= 1
      ensures gone ==> o == Pass && damage.requests == old(damage.requests) && stun.stunMap == old(stun.stunMap)
      ensures gone ==> forall m :: m in grid.mines ==> m.explosionRemainingTicks == old(m.explosionRemainingTicks)
      ensures !gone && l.damage.None? && hit != [] ==> o == Throw(InvalidOperation)
      ensures !gone && o.Pass? && l.damage.Some? ==> old(damage.requests) + HitRequests(l, hit) <= damage.requests
    {
      l.DecreaseRemainingTicks();
      gone := l.remainingTicks <= 0;
      if gone {
        return Pass, true;
      }
      o := Strike(l, hit, players, teams);
    }

    /** The state of the update after the first `i` of the lasers `ls`:
        those have aged by one tick and `kept` holds the unspent ones among
        them, while the systems stay consistent. */
    ghost predicate Sweeping(ls: seq<Laser>, ticks: seq<int>, i: nat, kept: seq<Laser>, ms: seq<Mine>,
                             players: set<Player>, teams: set<Team>)
      reads this, grid, stun, ls, ms, players
    {
      grid.Valid() && stun.Valid() && ms == grid.mines && Scoped(ls, ms, players, teams) &&
      Counted(ls, ticks, i) && kept == Keep(ls[..i], Spent(ticks)[..i])
    }

    /** The update's loop body: the `i`-th listed laser is swept, and kept
        when it is not spent. */
    method LaserStep(ls: seq<Laser>, i: nat, ghost ticks: seq<int>, kept: seq<Laser>, ghost ms: seq<Mine>,
                     ghost players: set<Player>, ghost teams: set<Team>)
      returns (o: Outcome, kept': seq<Laser>)
      requires Wired() && i < |ls| && DistinctLaserIds(ls) && Sweeping(ls, ticks, i, kept, ms, players, teams)
      modifies ls`remainingTicks, damage`requests, stun`stunMap, players`score, teams`score
      modifies ms`explosionRemainingTicks
      ensures Sweeping(ls, ticks, i + 1, kept', ms, players, teams)
    {
      assert ls[i].shooter != null ==> ls[i].shooter in players;
      LaserUnaliased(ls, i);
      KeepSnoc(ls, Spent(ticks), i);
      var gone;
      o, gone := SweepLaser(ls[i], TanksAt(grid.tanks, ls[i].x, ls[i].y), players, teams);
      kept' := if gone then kept else kept + [ls[i]];
    }

    /** The update's loop over the listed lasers `ls`, whose countdowns are
        `ticks`: each one, in order, ages and acts; unless a hit or an
        explosion throws, every laser has aged by one tick and the lasers
        kept are the unspent ones. */
    method SweepLasers(ls: seq<Laser>, ghost ticks: seq<int>, ghost ms: seq<Mine>, ghost players: set<Player>, ghost teams: set<Team>)
      returns (o: Outcome, kept: seq<Laser>)
      requires Wired() && DistinctLaserIds(ls) && Sweeping(ls, ticks, 0, [], ms, players, teams)
      modifies ls`remainingTicks, damage`requests, stun`stunMap, players`score, teams`score
      modifies ms`explosionRemainingTicks
      ensures stun.Valid()
      ensures o.Pass? ==> kept == Keep(ls, Spent(ticks)) && Counted(ls, ticks, |ls|)
    {
      kept := [];
      o := Pass;
      for i := 0 to |ls|
        invariant o == Pass && Sweeping(ls, ticks, i, kept, ms, players, teams)
      {
        o, kept := LaserStep(ls, i, ticks, kept, ms, players, teams);
        if o.Throw? {
          return;
        }
      }
      assert ls[..|ls|] == ls && Spent(ticks)[..|ls|] == Spent(ticks);
    }

    /** `Update`: every laser ages by one tick; the spent ones leave the
        grid and the others hit the tanks on their cells and set off the
        mines there. Unless something throws, the lasers left are the
        unspent ones, in list order. */
    method Update(ghost players: set<Player>, ghost teams: set<Team>) returns (o: Outcome)
      requires grid.Valid() && stun.Valid() && Wired() && DistinctLaserIds(grid.lasers)
      requires Scoped(grid.lasers, grid.mines, players, teams)
      modifies grid`lasers, grid.lasers`remainingTicks, damage`requests, stun`stunMap, players`score, teams`score
      modifies grid.mines`explosionRemainingTicks
      ensures stun.Valid()
      ensures o.Pass? ==> grid.lasers == old(Remaining(grid.lasers))
      ensures o.Pass? ==> forall l :: l in old(grid.lasers) ==> l.remainingTicks == old(l.remainingTicks) - 1
      ensures !o.Pass? ==> grid.lasers == old(grid.lasers)
    {
      var ls := grid.lasers;
      ghost var ticks := TicksOf(ls);
      assert Sweeping(ls, ticks, 0, [], grid.mines, players, teams);
      var kept;
      o, kept := SweepLasers(ls, ticks, grid.mines, players, teams);
      if o.Pass? {
        grid.lasers := kept;
      }
    }
  }
}
