/** `ZoneSystem` (non-STEREO builds): one context per zone of the grid,
    kept in step with the grid's zones, and each tick every context is
    handled (the owner of a captured zone scores and is healed), its
    capture progress updated and its state advanced from the owners of the
    tanks inside and outside its zone. The choices of the
    neutral state's system are parameters (`neutralNext`,
    `neutralAfterRemoval`), as that system is not part of this model. */
module LogicZoneSystem {
  import opened Wrappers
  import opened LogicZones
  import opened LogicTanks
  import opened LogicFractions
  import opened LogicScore
  import opened LogicHeal
  import opened LogicApplyPlayers

  /** Where a tank stands, and whose it is. */
  datatype Spot = Spot(x: int, y: int, owner: PlayerId)

  /** The tanks' spots, in tank order. */
  function SpotsOf(tanks: seq<Tank>): (r: seq<Spot>)
    reads tanks`x, tanks`y
    ensures |r| == |tanks| && forall k :: 0 <= k < |tanks| ==> r[k] == Spot(tanks[k].x, tanks[k].y, tanks[k].ownerId)
  {
    if tanks == [] then [] else [Spot(tanks[0].x, tanks[0].y, tanks[0].ownerId)] + SpotsOf(tanks[1..])
  }

  /** The owners of the tanks inside the zone, by their spots, in tank order. */
  function InsideIds(spots: seq<Spot>, z: Zone): (r: seq<PlayerId>)
    ensures |r| <= |spots|
    ensures forall p :: p in r <==> exists k :: 0 <= k < |spots| && z.Contains(spots[k].x, spots[k].y) && spots[k].owner == p
  {
    if spots == [] then []
    else
      var rest := InsideIds(spots[1..], z);
      assert forall k :: 1 <= k < |spots| ==> spots[k] == spots[1..][k - 1];
      (if z.Contains(spots[0].x, spots[0].y) then [spots[0].owner] else []) + rest
  }

  /** The owners of the tanks outside the zone, by their spots, in tank order. */
  function OutsideIds(spots: seq<Spot>, z: Zone): (r: seq<PlayerId>)
    ensures |r| <= |spots|
    ensures forall p :: p in r <==> exists k :: 0 <= k < |spots| && !z.Contains(spots[k].x, spots[k].y) && spots[k].owner == p
  {
    if spots == [] then []
    else
      var rest := OutsideIds(spots[1..], z);
      assert forall k :: 1 <= k < |spots| ==> spots[k] == spots[1..][k - 1];
      (if z.Contains(spots[0].x, spots[0].y) then [] else [spots[0].owner]) + rest
  }

  /** The owners of all tanks, by their spots, in tank order. */
  function OwnerIds(spots: seq<Spot>): (r: seq<PlayerId>)
    ensures |r| == |spots| && forall k :: 0 <= k < |spots| ==> r[k] == spots[k].owner
  {
    seq(|spots|, k requires 0 <= k < |spots| => spots[k].owner)
  }

  /** Every tank is counted once, inside the zone or outside it. */
  lemma {:induction false} InsideOutsidePartition(spots: seq<Spot>, z: Zone)
    ensures multiset(InsideIds(spots, z)) + multiset(OutsideIds(spots, z)) == multiset(OwnerIds(spots))
    decreases |spots|
  {
    if spots != [] {
      InsideOutsidePartition(spots[1..], z);
      assert OwnerIds(spots) == [spots[0].owner] + OwnerIds(spots[1..]);
    }
  }

  /** No two contexts are for equal zones. */
  predicate NoTwins(cs: seq<ZoneContext>) {
    forall i, j :: 0 <= i < j < |cs| ==> !cs[i].zone.Equals(cs[j].zone)
  }

  /** Contexts for unequal zones are distinct, and so are their zones. */
  lemma {:induction false} TwinsFree(cs: seq<ZoneContext>)
    requires NoTwins(cs)
    ensures forall i, j :: 0 <= i < |cs| && 0 <= j < |cs| && i != j ==> cs[i] != cs[j] && cs[i].zone != cs[j].zone
  {
    forall i, j | 0 <= i < |cs| && 0 <= j < |cs| && i != j ensures cs[i] != cs[j] && cs[i].zone != cs[j].zone {
      if i < j {
        assert !cs[i].zone.Equals(cs[j].zone);
      } else {
        assert !cs[j].zone.Equals(cs[i].zone);
      }
    }
  }

  /** `zones.Contains(z)`: some zone of the list equals `z`. */
  predicate Listed(zones: seq<Zone>, z: Zone) {
    exists k | 0 <= k < |zones| :: zones[k].Equals(z)
  }

  /** Some context is for a zone equal to `z`. */
  predicate Tracked(cs: seq<ZoneContext>, z: Zone) {
    exists k | 0 <= k < |cs| :: cs[k].zone.Equals(z)
  }

  /** `RemoveAll(z => !zones.Contains(z.Zone))`: the contexts whose zone is
      listed, in order. */
  function Kept(cs: seq<ZoneContext>, zones: seq<Zone>): (r: seq<ZoneContext>)
    requires NoTwins(cs)
    ensures NoTwins(r) && |r| <= |cs|
    ensures forall i :: 0 <= i < |r| ==> r[i] in cs && Listed(zones, r[i].zone)
    ensures forall i :: 0 <= i < |cs| && Listed(zones, cs[i].zone) ==> cs[i] in r
  {
    if cs == [] then []
    else
      var rest := Kept(cs[1..], zones);
      assert forall i :: 1 <= i < |cs| ==> cs[i] == cs[1..][i - 1];
      if Listed(zones, cs[0].zone) then
        assert forall j :: 0 <= j < |rest| ==> rest[j] in cs[1..];
        assert forall j :: 0 <= j < |rest| ==> !cs[0].zone.Equals(rest[j].zone);
        [cs[0]] + rest
      else rest
  }

  /** What `HandleTick` does for a zone in state `s`: the captured state's
      system awards score to its owner (and heals the owner's tank); the
      other states' systems do nothing. */
  function Award(s: ZoneState): (r: Option<PlayerId>)
    ensures r.Some? <==> s.Captured?
    ensures r.Some? ==> Owner(s) == r
  {
    if s.Captured? then Some(s.player) else None
  }

  /** The reward of one tick in a captured zone: half a point joins the
      buffer under `key`, and the whole points it makes move into the
      score. */
  ghost predicate Rewarded(buffer0: map<string, real>, buffer: map<string, real>, key: string, score0: int, score: int) {
    var (rest, whole) := Accumulate(Held(buffer0, key), 0.5);
    buffer == buffer0[key := rest] && score == score0 + whole
  }

  /** The healing of one tick in a captured zone: a live tank below 80
      health gets a quarter point into its buffer, and the whole points it
      makes are healed; any other tank is left as it was. A missing health
      is not below 80, as C#'s lifted comparison has it. */
  ghost predicate Healed(buffer0: map<string, real>, buffer: map<string, real>, key: string, h0: Option<int>, h: Option<int>) {
    if h0.Some? && 0 < h0.value < 80 then
      var (rest, whole) := Accumulate(Held(buffer0, key), 0.25);
      buffer == buffer0[key := rest] && h == Some(Clamp(h0.value + whole, 0, HealthMax))
    else
      buffer == buffer0 && h == h0
  }

  /** The player's tank, as a frame. */
  function TankOf(p: Player): set<Tank>
    reads p
  {
    if p.tank == null then {} else {p.tank}
  }

  /** The players' tanks, as a frame. */
  function TanksOf(players: seq<Player>): set<Tank>
    reads players`tank
  {
    set p | p in players && p.tank != null :: p.tank
  }

  /** The players' teams, as a frame. */
  function TeamsIn(players: seq<Player>): set<Team>
    reads players`team
  {
    set p | p in players && p.team != null :: p.team
  }

  /** `teams` and `owned` hold the players' teams and tanks: what a reward
      may change besides the players themselves. */
  ghost predicate Covers(players: seq<Player>, teams: set<Team>, owned: set<Tank>)
    reads players`team, players`tank
  {
    forall p :: p in players ==> (p.team != null ==> p.team in teams) && (p.tank != null ==> p.tank in owned)
  }

  /** A context's turn is over: from progress `p0` and state `s0`, with
      the owners `inside` and `outside` its zone, its progress is
      `UpdateProgress`'s and its state is the one the state's system chose
      next from the owners inside, the new progress and the player closest
      to capture. */
  ghost predicate Turned(c: ZoneContext, p0: Progress, s0: ZoneState, inside: seq<PlayerId>, outside: seq<PlayerId>,
                         neutralNext: (seq<PlayerId>, Progress) -> ZoneState)
    reads c, c.zone
  {
    c.progress == Capturing(Outside(p0, outside), s0, inside) &&
    exists closest :: IsClosest(c.progress, closest) &&
      c.zone.state == Settled(NextState(s0, inside, c.progress, closest, neutralNext(inside, c.progress)), c.progress)
  }

  /** The owners inside each context's zone, context by context. */
  function InsidesOf(cs: seq<ZoneContext>, spots: seq<Spot>): (r: seq<seq<PlayerId>>)
    ensures |r| == |cs| && forall k :: 0 <= k < |cs| ==> r[k] == InsideIds(spots, cs[k].zone)
  {
    if cs == [] then [] else [InsideIds(spots, cs[0].zone)] + InsidesOf(cs[1..], spots)
  }

  /** The owners outside each context's zone, context by context. */
  function OutsidesOf(cs: seq<ZoneContext>, spots: seq<Spot>): (r: seq<seq<PlayerId>>)
    ensures |r| == |cs| && forall k :: 0 <= k < |cs| ==> r[k] == OutsideIds(spots, cs[k].zone)
  {
    if cs == [] then [] else [OutsideIds(spots, cs[0].zone)] + OutsidesOf(cs[1..], spots)
  }

  /** The contexts' capture progress, context by context. */
  ghost function ProgressOf(cs: seq<ZoneContext>): (r: seq<Progress>)
    reads set c | c in cs
    ensures |r| == |cs| && forall k :: 0 <= k < |cs| ==> r[k] == cs[k].progress
  {
    if cs == [] then [] else [cs[0].progress] + ProgressOf(cs[1..])
  }

  /** The states of the contexts' zones, context by context. */
  ghost function StatesOf(cs: seq<ZoneContext>): (r: seq<ZoneState>)
    reads set c | c in cs :: c.zone
    ensures |r| == |cs| && forall k :: 0 <= k < |cs| ==> r[k] == cs[k].zone.state
  {
    if cs == [] then [] else [cs[0].zone.state] + StatesOf(cs[1..])
  }

  class ZoneSystem {
    var contexts: seq<ZoneContext>
    /** The systems the captured state's system rewards through; the score
        system's flag says whether this is a STEREO build. */
    const score: ScoreSystem
    const heal: HealSystem

    constructor (score: ScoreSystem, heal: HealSystem)
      ensures contexts == [] && this.score == score && this.heal == heal
    {
      contexts := [];
      this.score := score;
      this.heal := heal;
    }

    /** The first loop of `Update` and its `RemoveAll`: a context is added
        for each zone no context is for, then the contexts whose zone is
        no longer on the grid go. Afterwards each zone of the grid has
        exactly one context, every context is for a zone of the grid, a
        context that stays keeps its progress, and a new one starts with
        none. */
    method SyncContexts(zones: seq<Zone>)
      requires NoTwins(contexts)
      modifies this`contexts
      ensures NoTwins(contexts)
      ensures forall z :: z in zones ==> Tracked(contexts, z)
      ensures forall c :: c in contexts ==> Listed(zones, c.zone)
      ensures forall c :: c in old(contexts) && Listed(zones, c.zone) ==> c in contexts
      ensures forall c :: c in contexts && c !in old(contexts) ==> fresh(c) && c.progress == map[] && c.zone in zones
    {
      var i := 0;
      while i < |zones|
        invariant 0 <= i <= |zones| && NoTwins(contexts)
        invariant forall k :: 0 <= k < i ==> Tracked(contexts, zones[k])
        invariant forall c :: c in old(contexts) ==> c in contexts
        invariant forall c :: c in contexts && c !in old(contexts) ==> fresh(c) && c.progress == map[] && c.zone in zones
      {
        if !Tracked(contexts, zones[i]) {
          var ctx := new ZoneContext(zones[i]);
          assert ctx.zone.Equals(zones[i]);
          ghost var prev := contexts;
          contexts := contexts + [ctx];
          assert contexts[|contexts| - 1] == ctx;
          assert forall j :: 0 <= j < |prev| ==> contexts[j] == prev[j];
        }
        i := i + 1;
      }
      forall z | z in zones ensures Tracked(contexts, z) {
        var k :| 0 <= k < |zones| && zones[k] == z;
      }
      ghost var before := contexts;
      contexts := Kept(contexts, zones);
      forall z | z in zones ensures Tracked(contexts, z) {
        var k :| 0 <= k < |before| && before[k].zone.Equals(z);
        var q :| 0 <= q < |zones| && zones[q] == z;
        ZoneEqualsIsEquivalence(zones[q], before[k].zone, z, 0, 0);
        assert zones[q].Equals(before[k].zone);
        assert before[k] in contexts;
        var j :| 0 <= j < |contexts| && contexts[j] == before[k];
      }
    }

    /** `CapturedZoneStateSystem.Handle`: the owner of a captured zone
        is awarded half a point and, outside STEREO builds, its tank below
        80 health is healed a quarter point. A STEREO owner without a team
        throws before anything changes; an owner without a tank throws
        after scoring. */
    method HandleCaptured(owner: Player) returns (o: Outcome)
      requires score.Valid() && heal.Valid()
      modifies score`buffer, owner`score, TeamOf(owner)`score, heal`buffer, TankOf(owner)`health
      ensures score.Valid() && heal.Valid()
      ensures o.Throw? <==> (score.stereo && owner.team == null) || (!score.stereo && owner.tank == null)
      ensures score.stereo && owner.team == null ==> o == Throw(ArgumentNull) && score.buffer == old(score.buffer)
      ensures score.stereo && owner.team != null ==>
        Rewarded(old(score.buffer), score.buffer, owner.team.name, old(owner.team.score), owner.team.score)
      ensures !score.stereo ==> Rewarded(old(score.buffer), score.buffer, owner.id, old(owner.score), owner.score)
      ensures !score.stereo && owner.tank == null ==> o == Throw(NullReference)
      ensures score.stereo || owner.tank == null ==> heal.buffer == old(heal.buffer)
      ensures score.stereo && owner.tank != null ==> owner.tank.health == old(owner.tank.health)
      ensures !score.stereo && owner.tank != null ==>
        Healed(old(heal.buffer), heal.buffer, owner.tank.ownerId, old(owner.tank.health), owner.tank.health)
    {
      o := score.AwardPlayerFraction(owner, 0.5);
      if o.Throw? || score.stereo {
        return;
      }
      var tank := owner.tank;
      if tank == null {
        return Throw(NullReference);
      }
      if tank.health.Some? && tank.health.value < 80 {
        o := heal.HealFraction(tank, 0.25);
      }
    }

    /** `HandleTick` of a context in state `s`: only the captured state's
        system acts, rewarding the zone's owner, found among the players
        by id. */
    method Reward(s: ZoneState, players: seq<Player>, ghost teams: set<Team>, ghost owned: set<Tank>)
      returns (o: Outcome, award: Option<PlayerId>, owner: Player?)
      requires score.Valid() && heal.Valid() && Covers(players, teams, owned)
      modifies score`buffer, heal`buffer, players`score, teams`score, owned`health
      ensures score.Valid() && heal.Valid()
      ensures award == Award(s)
      ensures owner == (if award.Some? then FindPlayer(players, award.value) else null)
      ensures owner == null ==> o == Pass && score.buffer == old(score.buffer) && heal.buffer == old(heal.buffer)
      ensures forall p :: p in players && p != owner ==> p.score == old(p.score)
      ensures forall p :: p in players && p.tank != null && (owner == null || p.tank != owner.tank) ==> p.tank.health == old(p.tank.health)
      ensures owner != null && !score.stereo ==> Rewarded(old(score.buffer), score.buffer, owner.id, old(owner.score), owner.score)
      ensures owner != null && !score.stereo && owner.tank != null ==>
        Healed(old(heal.buffer), heal.buffer, owner.tank.ownerId, old(owner.tank.health), owner.tank.health)
      ensures owner != null && score.stereo && owner.team != null ==>
        Rewarded(old(score.buffer), score.buffer, owner.team.name, old(owner.team.score), owner.team.score)
      ensures o.Throw? <==> owner != null && ((score.stereo && owner.team == null) || (!score.stereo && owner.tank == null))
    {
      award := Award(s);
      owner := null;
      o := Pass;
      if award.Some? {
        owner := FindPlayer(players, award.value);
        if owner != null {
          o := HandleCaptured(owner);
        }
      }
    }

    /** One context's turn in `Update`, given the owners of the tanks
        inside and outside its zone: `HandleTick` (`Reward`), then
        `UpdateProgress` and `UpdateState`. A throwing reward ends the turn
        before the context changes. */
    method Tick(ctx: ZoneContext, inside: seq<PlayerId>, outside: seq<PlayerId>, players: seq<Player>,
                neutralNext: (seq<PlayerId>, Progress) -> ZoneState, ghost teams: set<Team>, ghost owned: set<Tank>)
      returns (o: Outcome, award: Option<PlayerId>, owner: Player?)
      requires score.Valid() && heal.Valid() && Covers(players, teams, owned)
      modifies ctx`progress, ctx.zone`state, score`buffer, heal`buffer, players`score, teams`score, owned`health
      ensures score.Valid() && heal.Valid()
      ensures award == Award(old(ctx.zone.state))
      ensures owner == (if award.Some? then FindPlayer(players, award.value) else null)
      ensures owner == null ==> o == Pass && score.buffer == old(score.buffer) && heal.buffer == old(heal.buffer)
      ensures forall p :: p in players && p != owner ==> p.score == old(p.score)
      ensures forall p :: p in players && p.tank != null && (owner == null || p.tank != owner.tank) ==> p.tank.health == old(p.tank.health)
      ensures owner != null && !score.stereo ==> Rewarded(old(score.buffer), score.buffer, owner.id, old(owner.score), owner.score)
      ensures owner != null && !score.stereo && owner.tank != null ==>
        Healed(old(heal.buffer), heal.buffer, owner.tank.ownerId, old(owner.tank.health), owner.tank.health)
      ensures owner != null && score.stereo && owner.team != null ==>
        Rewarded(old(score.buffer), score.buffer, owner.team.name, old(owner.team.score), owner.team.score)
      ensures o.Throw? ==> ctx.progress == old(ctx.progress) && ctx.zone.state == old(ctx.zone.state)
      ensures o.Pass? ==> Turned(ctx, old(ctx.progress), old(ctx.zone.state), inside, outside, neutralNext)
    {
      ghost var progress0, state0 := ctx.progress, ctx.zone.state;
      o, award, owner := Reward(ctx.zone.state, players, teams, owned);
      assert ctx.progress == progress0 && ctx.zone.state == state0;
      if o.Throw? {
        return;
      }
      var closest := Advance(ctx, inside, outside, neutralNext);
    }

    /** `UpdateProgress` and `UpdateState` of one context, given the owners
        inside and outside its zone. */
    method Advance(ctx: ZoneContext, inside: seq<PlayerId>, outside: seq<PlayerId>, neutralNext: (seq<PlayerId>, Progress) -> ZoneState)
      returns (closest: Option<(PlayerId, int)>)
      modifies ctx`progress, ctx.zone`state
      ensures ctx.progress == Capturing(Outside(old(ctx.progress), outside), old(ctx.zone.state), inside)
      ensures IsClosest(ctx.progress, closest)
      ensures ctx.zone.state == Settled(NextState(old(ctx.zone.state), inside, ctx.progress, closest,
                                                  neutralNext(inside, ctx.progress)), ctx.progress)
    {
      ctx.UpdateProgress(inside, outside);
      closest := ctx.UpdateState(inside, neutralNext(inside, ctx.progress));
    }

    /** The contexts before `n` have taken their turns from the progress
        and states `p0` and `s0` with the owners `ins` and `outs`; the rest
        still hold them. */
    ghost predicate TurnsTaken(cs: seq<ZoneContext>, p0: seq<Progress>, s0: seq<ZoneState>, ins: seq<seq<PlayerId>>,
                               outs: seq<seq<PlayerId>>, n: nat, neutralNext: (seq<PlayerId>, Progress) -> ZoneState)
      reads set c | c in cs, set c | c in cs :: c.zone
    {
      |p0| == |s0| == |ins| == |outs| == |cs| && n <= |cs| &&
      (forall k :: 0 <= k < n ==> Turned(cs[k], p0[k], s0[k], ins[k], outs[k], neutralNext)) &&
      (forall k :: n <= k < |cs| ==> cs[k].progress == p0[k] && cs[k].zone.state == s0[k])
    }

    /** The finished turns' rewards are those of the states they started from. */
    predicate Awarded(awards: seq<Option<PlayerId>>, s0: seq<ZoneState>) {
      |awards| <= |s0| && forall k :: 0 <= k < |awards| ==> awards[k] == Award(s0[k])
    }

    /** One iteration of the second loop: context `i` takes its turn,
        and the others keep theirs. */
    method TickStep(cs: seq<ZoneContext>, i: nat, ins: seq<seq<PlayerId>>, outs: seq<seq<PlayerId>>, players: seq<Player>,
                    neutralNext: (seq<PlayerId>, Progress) -> ZoneState, ghost p0: seq<Progress>, ghost s0: seq<ZoneState>,
                    ghost teams: set<Team>, ghost owned: set<Tank>, ghost done: seq<Option<PlayerId>>)
      returns (o: Outcome, award: Option<PlayerId>)
      requires i < |cs| && score.Valid() && heal.Valid() && Covers(players, teams, owned)
      requires |done| == i && Awarded(done, s0)
      requires forall j, k :: 0 <= j < |cs| && 0 <= k < |cs| && j != k ==> cs[j] != cs[k] && cs[j].zone != cs[k].zone
      requires TurnsTaken(cs, p0, s0, ins, outs, i, neutralNext)
      modifies {cs[i]}`progress, {cs[i].zone}`state
      modifies score`buffer, heal`buffer, players`score, teams`score, owned`health
      ensures score.Valid() && heal.Valid()
      ensures award == Award(s0[i]) && Awarded(done + [award], s0) && Covers(players, teams, owned)
      ensures o.Pass? ==> TurnsTaken(cs, p0, s0, ins, outs, i + 1, neutralNext)
      ensures o.Throw? ==> TurnsTaken(cs, p0, s0, ins, outs, i, neutralNext)
    {
      var owner;
      var c := cs[i];
      o, award, owner := Tick(c, ins[i], outs[i], players, neutralNext, teams, owned);
      forall k | 0 <= k < |cs| && k != i
        ensures cs[k].progress == old(cs[k].progress) && cs[k].zone.state == old(cs[k].zone.state)
      {
        assert cs[k] != c && cs[k].zone != c.zone;
      }
    }

    /** The second loop of `Update`: each context takes its turn until a
        reward throws. The owners inside and outside each zone are taken
        from `spots`, where the tanks stood before the loop: a turn only
        heals tanks, so where they stand is the same when each turn begins. The contexts are for unequal zones, so no
        turn touches another's context or zone. `awards` holds the finished
        turns' rewards; the contexts after them are as they were. */
    method TickAll(cs: seq<ZoneContext>, spots: seq<Spot>, players: seq<Player>, neutralNext: (seq<PlayerId>, Progress) -> ZoneState,
                   ghost teams: set<Team>, ghost owned: set<Tank>)
      returns (o: Outcome, awards: seq<Option<PlayerId>>, ghost p0: seq<Progress>, ghost s0: seq<ZoneState>,
               ghost ins: seq<seq<PlayerId>>, ghost outs: seq<seq<PlayerId>>)
      requires NoTwins(cs) && score.Valid() && heal.Valid() && Covers(players, teams, owned)
      modifies (set c | c in cs)`progress, (set c | c in cs :: c.zone)`state
      modifies score`buffer, heal`buffer, players`score, teams`score, owned`health
      ensures score.Valid() && heal.Valid()
      ensures p0 == old(ProgressOf(cs)) && s0 == old(StatesOf(cs))
      ensures ins == InsidesOf(cs, spots) && outs == OutsidesOf(cs, spots)
      ensures Awarded(awards, s0) && (o.Pass? <==> |awards| == |cs|)
      ensures TurnsTaken(cs, p0, s0, ins, outs, |awards|, neutralNext)
    {
      TwinsFree(cs);
      p0, s0 := ProgressOf(cs), StatesOf(cs);
      var inside, outside := InsidesOf(cs, spots), OutsidesOf(cs, spots);
      ins, outs := inside, outside;
      awards := [];
      o := Pass;
      while |awards| < |cs| && o.Pass?
        invariant score.Valid() && heal.Valid()
        invariant Awarded(awards, s0)
        invariant Covers(players, teams, owned)
        invariant o.Throw? ==> |awards| < |cs|
        invariant TurnsTaken(cs, p0, s0, ins, outs, |awards|, neutralNext)
        decreases |cs| - |awards|, if o.Pass? then 1 else 0
      {
        var award;
        o, award := TickStep(cs, |awards|, inside, outside, players, neutralNext, p0, s0, teams, owned, awards);
        if o.Pass? {
          awards := awards + [award];
        }
      }
    }

    /** `SyncContexts`, with how the contexts then stand: their progress
        and states, a kept context's from before and a new one's from
        nothing and its zone's. */
    method SyncAndRecord(zones: seq<Zone>) returns (ghost pr: seq<Progress>, ghost st: seq<ZoneState>)
      requires NoTwins(contexts)
      modifies this`contexts
      ensures NoTwins(contexts)
      ensures forall z :: z in zones ==> Tracked(contexts, z)
      ensures forall c :: c in contexts ==> Listed(zones, c.zone)
      ensures forall c :: c in old(contexts) && Listed(zones, c.zone) ==> c in contexts
      ensures forall c :: c in contexts && c !in old(contexts) ==> fresh(c) && c.zone in zones
      ensures pr == ProgressOf(contexts) && st == StatesOf(contexts)
      ensures forall k :: 0 <= k < |contexts| ==>
        var c := contexts[k]; pr[k] == (if c in old(contexts) then old(c.progress) else map[])
      ensures forall k :: 0 <= k < |contexts| && contexts[k] in old(contexts) ==>
        var c := contexts[k]; st[k] == old(c.zone.state)
      ensures forall k :: 0 <= k < |contexts| && contexts[k].zone in zones ==>
        var z := contexts[k].zone; st[k] == old(z.state)
    {
      SyncContexts(zones);
      pr, st := ProgressOf(contexts), StatesOf(contexts);
    }

    /** `Update`: the contexts are brought in step with the grid's zones
        (`SyncContexts`), then each takes its turn (`Tick`) until a reward
        throws. The contexts' zones are the grid's, one context each; every
        context that took its turn moved on from where it was (a new
        context from no progress) with the owners of the tanks inside and
        outside its zone, the rest are as they were, and the owners
        rewarded are those of the zones that were captured. */
    method Update(zones: seq<Zone>, tanks: seq<Tank>, players: seq<Player>, neutralNext: (seq<PlayerId>, Progress) -> ZoneState)
      returns (o: Outcome, awards: seq<Option<PlayerId>>, ghost progress0: seq<Progress>, ghost states0: seq<ZoneState>,
               ghost insides: seq<seq<PlayerId>>, ghost outsides: seq<seq<PlayerId>>)
      requires NoTwins(contexts) && score.Valid() && heal.Valid()
      modifies this`contexts, (set c | c in contexts)`progress, (set c | c in contexts :: c.zone)`state, (set z | z in zones)`state
      modifies score`buffer, heal`buffer, players`score, TeamsIn(players)`score, TanksOf(players)`health
      ensures NoTwins(contexts) && score.Valid() && heal.Valid()
      ensures forall z :: z in zones ==> Tracked(contexts, z)
      ensures forall c :: c in contexts ==> Listed(zones, c.zone)
      ensures forall c :: c in old(contexts) && Listed(zones, c.zone) ==> c in contexts
      ensures forall c :: c in contexts ==> c in old(contexts) || c.zone in zones
      ensures |progress0| == |states0| == |contexts| && |awards| <= |contexts|
      ensures insides == InsidesOf(contexts, old(SpotsOf(tanks))) && outsides == OutsidesOf(contexts, old(SpotsOf(tanks)))
      ensures o.Pass? <==> |awards| == |contexts|
      ensures forall k :: 0 <= k < |contexts| ==>
        var c := contexts[k]; progress0[k] == (if c in old(contexts) then old(c.progress) else map[])
      ensures forall k :: 0 <= k < |contexts| && contexts[k] in old(contexts) ==>
        var c := contexts[k]; states0[k] == old(c.zone.state)
      ensures forall k :: 0 <= k < |contexts| && contexts[k].zone in zones ==>
        var z := contexts[k].zone; states0[k] == old(z.state)
      ensures forall k :: 0 <= k < |awards| ==> awards[k] == Award(states0[k])
      ensures TurnsTaken(contexts, progress0, states0, insides, outsides, |awards|, neutralNext)
    {
      ghost var teams, owned := TeamsIn(players), TanksOf(players);
      assert Covers(players, teams, owned);
      var spots := SpotsOf(tanks);
      ghost var pr, st := SyncAndRecord(zones);
      var cs := contexts;
      o, awards, progress0, states0, insides, outsides := TickAll(cs, spots, players, neutralNext, teams, owned);
      assert contexts == cs && progress0 == pr && states0 == st;
    }

    /** `OnPlayerRemoved`: every context forgets the player's progress and
        its state's system reacts to the removal. */
    method OnPlayerRemoved(p: PlayerId, neutralAfterRemoval: Progress -> ZoneState)
      returns (ghost closest: seq<Option<(PlayerId, int)>>)
      requires NoTwins(contexts)
      modifies set c | c in contexts, set c | c in contexts :: c.zone
      ensures |closest| == |contexts|
      ensures forall k :: 0 <= k < |contexts| ==>
        var c := contexts[k];
        c.progress == old(c.progress) - {p} && IsClosest(c.progress, closest[k]) &&
        c.zone.state == StateAfterRemoval(old(c.zone.state), p, c.progress, closest[k], neutralAfterRemoval(c.progress))
    {
      TwinsFree(contexts);
      closest := [];
      for i := 0 to |contexts|
        invariant |closest| == i
        invariant forall k :: i <= k < |contexts| ==>
          contexts[k].progress == old(contexts[k].progress) && contexts[k].zone.state == old(contexts[k].zone.state)
        invariant forall k :: 0 <= k < i ==>
          var c := contexts[k];
          c.progress == old(c.progress) - {p} && IsClosest(c.progress, closest[k]) &&
          c.zone.state == StateAfterRemoval(old(c.zone.state), p, c.progress, closest[k], neutralAfterRemoval(c.progress))
      {
        var c := contexts[i];
        var next := neutralAfterRemoval(c.progress - {p});
        var cl := c.OnPlayerRemoved(p, next);
        closest := closest + [cl];
      }
    }
  }
}
