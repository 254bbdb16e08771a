/** `StunSystem`: per tank, the stun effects in force and their remaining
    ticks. A tank is keyed by its owner's id (tanks compare by owner id).
    A stun effect is keyed as the C# dictionary keys it: a mine or a laser
    by its id, and each anonymous effect made by `ApplyStun(tank, effect,
    ticks)` by a fresh serial number, since every such call allocates a new
    object that equals no other. */
module LogicStun {

  /** The flags of `StunBlockEffect`. */
  datatype Flag = Movement | TankRotation | TurretRotation | AbilityUse

  /** A combination of flags; the empty set is `None`. */
  type Block = set<Flag>

  const All: Block := {Movement, TankRotation, TurretRotation, AbilityUse}

  /** `HasFlag`: every flag of `wanted` is set in `flags`. */
  predicate HasFlag(flags: Block, wanted: Block) {
    wanted <= flags
  }

  /** The stun-effect keys of the dictionary. */
  datatype StunKey =
    | Plain(serial: nat, ticks: int, block: Block)
    | MineStun(mineId: int)
    | LaserStun(laserId: int)

  /** A mine stuns for 10 ticks; a laser for 10 ticks. */
  const MineStunTicks := 10
  const LaserStunTicks := 10

  /** `IStunEffect.StunTicks`. */
  function StunTicks(k: StunKey): int {
    match k
    case Plain(_, ticks, _) => ticks
    case MineStun(_) => MineStunTicks
    case LaserStun(_) => LaserStunTicks
  }

  /** `IStunEffect.StunBlockEffect`: a mine blocks movement and tank
      rotation, a laser blocks everything. */
  function BlockOf(k: StunKey): Block {
    match k
    case Plain(_, _, block) => block
    case MineStun(_) => {Movement, TankRotation}
    case LaserStun(_) => All
  }

  type Effects = map<StunKey, int>

  /** One tank's effects after `ApplyStun(tank, stun)`: the stun is stored
      with its full duration unless it is already stored with at least as
      many ticks left. */
  function Stunned(effects: Effects, stun: StunKey): (r: Effects)
    ensures stun in r && r[stun] >= StunTicks(stun)
    ensures forall k :: k in r && k != stun ==> k in effects && r[k] == effects[k]
  {
    if stun in effects && effects[stun] >= StunTicks(stun) then effects
    else effects[stun := StunTicks(stun)]
  }

  /** The whole map after `ApplyStun(tank, stun)`. */
  function ApplyTo(stunMap: map<string, Effects>, tank: string, stun: StunKey): map<string, Effects> {
    stunMap[tank := Stunned(if tank in stunMap then stunMap[tank] else map[], stun)]
  }

  /** The map after `ApplyStuns(tank, stuns)`: each stun in turn. */
  function ApplyAll(stunMap: map<string, Effects>, tank: string, stuns: seq<StunKey>): map<string, Effects>
    decreases |stuns|
  {
    if |stuns| == 0 then stunMap
    else ApplyAll(ApplyTo(stunMap, tank, stuns[0]), tank, stuns[1..])
  }

  /** One tank's effects after a tick: each duration is one less, and the
      ones that reach zero are gone. */
  function Decremented(effects: Effects): (r: Effects)
    ensures forall k :: k in r <==> k in effects && effects[k] - 1 > 0
    ensures forall k :: k in r ==> r[k] == effects[k] - 1
  {
    map k | k in effects && effects[k] - 1 > 0 :: effects[k] - 1
  }

  /** The map after the first loop of `Update`: every tank's effects
      decremented. */
  function DecrementedAll(stunMap: map<string, Effects>): (r: map<string, Effects>)
    ensures r.Keys == stunMap.Keys
    ensures forall t :: t in r ==> r[t] == Decremented(stunMap[t])
  {
    map t | t in stunMap :: Decremented(stunMap[t])
  }

  /** The map after the second loop of `Update`: the tanks without effects
      dropped. */
  function NonEmpty(stunMap: map<string, Effects>): (r: map<string, Effects>)
    ensures forall t :: t in r <==> t in stunMap && stunMap[t] != map[]
    ensures forall t :: t in r ==> r[t] == stunMap[t]
  {
    map t | t in stunMap && stunMap[t] != map[] :: stunMap[t]
  }

  /** The map after `Update`: every tank's effects decremented, and the
      tanks left without effects dropped. */
  function Ticked(stunMap: map<string, Effects>): (r: map<string, Effects>)
    ensures forall t :: t in r <==> t in stunMap && Decremented(stunMap[t]) != map[]
    ensures forall t :: t in r ==> r[t] == Decremented(stunMap[t])
  {
    NonEmpty(DecrementedAll(stunMap))
  }

  /** Every anonymous effect in `m` has a serial below `created`, and no
      tank is stored without effects. */
  ghost predicate Wellformed(m: map<string, Effects>, created: nat) {
    (forall t, k :: t in m && k in m[t] && k.Plain? ==> k.serial < created) &&
    (forall t :: t in m ==> m[t] != map[])
  }

  /** A tick keeps no effect the tank did not have and no tank without
      effects. */
  lemma {:induction false} TickedWellformed(stunMap: map<string, Effects>, created: nat)
    requires Wellformed(stunMap, created)
    ensures Wellformed(Ticked(stunMap), created)
  {
    var r := Ticked(stunMap);
    forall t: string, k: StunKey | t in r && k in r[t] && k.Plain?
      ensures k.serial < created
    {
      assert k in stunMap[t];
    }
  }

  class StunSystem {
    var stunMap: map<string, Effects>
    /** How many anonymous effects were made so far. */
    var created: nat

    /** Every anonymous effect stored so far was made by this system, and
        no tank is stored without effects. */
    ghost predicate Valid()
      reads this
    {
      Wellformed(stunMap, created)
    }

    constructor ()
      ensures Valid() && stunMap == map[] && created == 0
    {
      stunMap := map[];
      created := 0;
    }

    /** `IsBlocked`: the tank has some stored effect whose flags include
        `effect`. */
    predicate IsBlocked(tank: string, effect: Block)
      reads this
    {
      tank in stunMap && exists k :: k in stunMap[tank] && HasFlag(BlockOf(k), effect)
    }

    /** `ApplyStun(tank, stun)`. */
    method ApplyStunKey(tank: string, stun: StunKey)
      requires Valid() && (stun.Plain? ==> stun.serial < created)
      modifies this`stunMap
      ensures Valid()
      ensures stunMap == ApplyTo(old(stunMap), tank, stun)
    {
      var effects: Effects := map[];
      if tank in stunMap {
        effects := stunMap[tank];
      } else {
        stunMap := stunMap[tank := effects];
      }
      if stun in effects && effects[stun] >= StunTicks(stun) {
        return;
      }
      stunMap := stunMap[tank := effects[stun := StunTicks(stun)]];
    }

    /** `ApplyStun(tank, effect, ticks)`: a new anonymous effect. */
    method ApplyStun(tank: string, effect: Block, ticks: int)
      requires Valid()
      modifies this
      ensures Valid() && created == old(created) + 1
      ensures stunMap == old(stunMap)[tank := (if tank in old(stunMap) then old(stunMap)[tank] else map[])[Plain(old(created), ticks, effect) := ticks]]
    {
      var stun := Plain(created, ticks, effect);
      created := created + 1;
      ApplyStunKey(tank, stun);
    }

    /** `ApplyStuns`: each stun of the sequence in order. */
    method ApplyStuns(tank: string, stuns: seq<StunKey>)
      requires Valid() && forall s :: s in stuns && s.Plain? ==> s.serial < created
      modifies this`stunMap
      ensures Valid()
      ensures stunMap == ApplyAll(old(stunMap), tank, stuns)
    {
      for i := 0 to |stuns|
        invariant Valid()
        invariant ApplyAll(old(stunMap), tank, stuns) == ApplyAll(stunMap, tank, stuns[i..])
      {
        assert stuns[i..][0] == stuns[i] && stuns[i..][1..] == stuns[i + 1..];
        ApplyStunKey(tank, stuns[i]);
      }
    }

    /** `Update`: first every duration of every tank is decremented and
        the expired ones removed, then tanks without effects are dropped. */
    method Update()
      requires Valid()
      modifies this`stunMap
      ensures Valid()
      ensures stunMap == Ticked(old(stunMap))
    {
      ghost var start := stunMap;
      DecrementTanks();
      DropEmpty();
      assert stunMap == Ticked(start);
      TickedWellformed(start, created);
    }

    /** The first loop of `Update`. */
    method DecrementTanks()
      modifies this`stunMap
      ensures stunMap == DecrementedAll(old(stunMap))
    {
      var tanks := stunMap.Keys;
      ghost var start := stunMap;
      while tanks != {}
        invariant tanks <= start.Keys && stunMap.Keys == start.Keys
        invariant forall t :: t in stunMap ==> stunMap[t] == if t in tanks then start[t] else Decremented(start[t])
        decreases tanks
      {
        var t :| t in tanks;
        var effects := DecrementAll(stunMap[t]);
        stunMap := stunMap[t := effects];
        tanks := tanks - {t};
      }
    }

    /** The second loop of `Update`: tanks without effects are dropped. */
    method DropEmpty()
      modifies this`stunMap
      ensures stunMap == NonEmpty(old(stunMap))
    {
      ghost var start := stunMap;
      var rest := stunMap.Keys;
      while rest != {}
        invariant rest <= stunMap.Keys <= start.Keys
        invariant forall t :: t in stunMap ==> stunMap[t] == start[t]
        invariant forall t :: t in start && t !in rest ==> (t in stunMap <==> start[t] != map[])
        decreases rest
      {
        var t :| t in rest;
        if stunMap[t] == map[] {
          stunMap := stunMap - {t};
        }
        rest := rest - {t};
      }
    }
  }

  /** The inner loop of `Update` over one tank's effects. */
  method DecrementAll(effects: Effects) returns (r: Effects)
    ensures r == Decremented(effects)
  {
    r := effects;
    var keys := effects.Keys;
    while keys != {}
      invariant keys <= effects.Keys
      invariant forall k :: k in r <==> k in effects && (k in keys || effects[k] - 1 > 0)
      invariant forall k :: k in r ==> r[k] == if k in keys then effects[k] else effects[k] - 1
      decreases keys
    {
      var k :| k in keys;
      r := r[k := r[k] - 1];
      if r[k] <= 0 {
        r := r - {k};
      }
      keys := keys - {k};
    }
    assert r == Decremented(effects);
  }

  /** `ApplyStun` never shortens an effect already in force: afterwards
      the stun has the larger of its stored and its full duration, and every
      other tank and effect is as before. */
  lemma {:induction false} ApplyNeverShortens(stunMap: map<string, Effects>, tank: string, stun: StunKey)
    ensures var r := ApplyTo(stunMap, tank, stun);
      tank in r && stun in r[tank] &&
      r[tank][stun] == if tank in stunMap && stun in stunMap[tank] && stunMap[tank][stun] > StunTicks(stun)
                       then stunMap[tank][stun] else StunTicks(stun)
    ensures var r := ApplyTo(stunMap, tank, stun);
      forall t :: t in stunMap && t != tank ==> t in r && r[t] == stunMap[t]
    ensures var r := ApplyTo(stunMap, tank, stun);
      tank in stunMap ==> forall k :: k in stunMap[tank] ==> k in r[tank] && r[tank][k] >= stunMap[tank][k]
  {
  }

  /** Applying a sequence of stuns is applying its first part, then the
      rest. */
  lemma {:induction false} ApplyAllAppend(stunMap: map<string, Effects>, tank: string, a: seq<StunKey>, b: seq<StunKey>)
    ensures ApplyAll(stunMap, tank, a + b) == ApplyAll(ApplyAll(stunMap, tank, a), tank, b)
    decreases |a|
  {
    if |a| > 0 {
      assert (a + b)[0] == a[0] && (a + b)[1..] == a[1..] + b;
      ApplyAllAppend(ApplyTo(stunMap, tank, a[0]), tank, a[1..], b);
    } else {
      assert a + b == b;
    }
  }

  /** A tank is blocked after a tick exactly when one of its effects with
      more than one tick left blocks it; a tick never adds a block. */
  lemma {:induction false} BlockedAfterTick(stunMap: map<string, Effects>, tank: string, effect: Block)
    ensures var r := Ticked(stunMap);
      (tank in r && exists k :: k in r[tank] && HasFlag(BlockOf(k), effect)) <==>
      (tank in stunMap && exists k :: k in stunMap[tank] && stunMap[tank][k] > 1 && HasFlag(BlockOf(k), effect))
  {
    var r := Ticked(stunMap);
    if tank in stunMap && exists k :: k in stunMap[tank] && stunMap[tank][k] > 1 && HasFlag(BlockOf(k), effect) {
      var k :| k in stunMap[tank] && stunMap[tank][k] > 1 && HasFlag(BlockOf(k), effect);
      assert k in Decremented(stunMap[tank]);
    }
  }
}
