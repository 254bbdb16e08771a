/** Mines: a mine lies unexploded until something sets it off; its
    explosion then lasts `ExplosionTicks` ticks, counted down one per tick,
    and the mine is gone once the count reaches zero. */
module LogicMines {
  import opened Wrappers
  import opened LogicStun
  import opened LogicTanks

  /** `ExplosionTicks`. */
  const ExplosionTicks := 10

  /** The static `idCounter` of mines. */
  class MineIds {
    var next: int

    constructor ()
      ensures next == 0
    {
      next := 0;
    }
  }

  /** The countdown after one `DecreaseExplosionTicks`: an exploded mine
      has one tick less, an unexploded one stays unexploded. */
  function Decreased(ticks: Option<int>): (r: Option<int>)
    ensures r.None? <==> ticks.None?
    ensures ticks.Some? ==> r.value == ticks.value - 1
  {
    match ticks
    case None => None
    case Some(t) => Some(t - 1)
  }

  /** `IsFullyExploded` on the countdown: C#'s lifted `<=` is false on
      null. */
  predicate FullyExploded(ticks: Option<int>) {
    ticks.Some? && ticks.value <= 0
  }

  /** The countdown after `n` decrements. */
  function DecreasedN(ticks: Option<int>, n: nat): Option<int> {
    if n == 0 then ticks else Decreased(DecreasedN(ticks, n - 1))
  }

  /** A mine as a game state payload carries it. */
  datatype MineSnapshot = MineSnapshot(id: int, x: int, y: int, damage: Option<int>, layerId: Option<string>,
                                       explosionRemainingTicks: Option<int>)

  class Mine {
    const id: int
    var x: int
    var y: int
    var damage: Option<int>
    var layerId: Option<string>
    var layer: Player?
    /** `ExplosionRemainingTicks`: null until the mine explodes. */
    var explosionRemainingTicks: Option<int>

    /** A mine dropped by `layer`: the next id of the counter, unexploded,
        with the layer's id recorded beside the layer. */
    constructor Dropped(ids: MineIds, x: int, y: int, damage: int, layer: Player)
      modifies ids
      ensures id == old(ids.next) && ids.next == old(ids.next) + 1
      ensures this.x == x && this.y == y && this.damage == Some(damage)
      ensures this.layer == layer && layerId == Some(layer.id)
      ensures !IsExploded()
    {
      id := ids.next;
      this.x := x;
      this.y := y;
      this.damage := Some(damage);
      layerId := Some(layer.id);
      this.layer := layer;
      explosionRemainingTicks := None;
      new;
      ids.next := ids.next + 1;
    }

    /** A mine rebuilt from a payload snapshot, with the explosion countdown
        the snapshot carries (null for an unexploded mine) and no layer
        object. */
    constructor Snapshot(snapshot: MineSnapshot)
      ensures id == snapshot.id && x == snapshot.x && y == snapshot.y && damage == snapshot.damage
      ensures layerId == snapshot.layerId && layer == null
      ensures explosionRemainingTicks == snapshot.explosionRemainingTicks
    {
      id := snapshot.id;
      x := snapshot.x;
      y := snapshot.y;
      damage := snapshot.damage;
      layerId := snapshot.layerId;
      layer := null;
      explosionRemainingTicks := snapshot.explosionRemainingTicks;
    }

    /** `IsExploded`: the countdown has started. */
    predicate IsExploded()
      reads this`explosionRemainingTicks
    {
      explosionRemainingTicks.Some?
    }

    /** `IsFullyExploded`: the countdown has run out. */
    predicate IsFullyExploded()
      reads this`explosionRemainingTicks
    {
      FullyExploded(explosionRemainingTicks)
    }

    /** `Equals`: mines are the same mine when their ids are. */
    predicate Equals(other: Mine?) {
      other != null && other.id == id
    }

    /** The mine as a stun effect: keyed by its id, as its hash and
        equality are. */
    function Stun(): (k: StunKey)
      ensures StunTicks(k) == MineStunTicks && BlockOf(k) == {Movement, TankRotation}
    {
      MineStun(id)
    }

    /** `Explode`: the countdown (re)starts at `ExplosionTicks`. */
    method Explode()
      modifies this`explosionRemainingTicks
      ensures explosionRemainingTicks == Some(ExplosionTicks)
      ensures IsExploded() && !IsFullyExploded()
    {
      explosionRemainingTicks := Some(ExplosionTicks);
    }

    /** `DecreaseExplosionTicks`: only an exploded mine counts down. */
    method DecreaseExplosionTicks()
      modifies this`explosionRemainingTicks
      ensures explosionRemainingTicks == Decreased(old(explosionRemainingTicks))
      ensures IsExploded() == old(IsExploded())
    {
      if explosionRemainingTicks.Some? {
        explosionRemainingTicks := Some(explosionRemainingTicks.value - 1);
      }
    }

    /** `UpdateFrom`: the snapshot's position, damage, layer id and
        countdown; the id and the layer object stay. */
    method UpdateFrom(snapshot: MineSnapshot)
      modifies this`x, this`y, this`damage, this`layerId, this`explosionRemainingTicks
      ensures x == snapshot.x && y == snapshot.y && damage == snapshot.damage
      ensures layerId == snapshot.layerId && explosionRemainingTicks == snapshot.explosionRemainingTicks
    {
      x, y := snapshot.x, snapshot.y;
      damage, layerId := snapshot.damage, snapshot.layerId;
      explosionRemainingTicks := snapshot.explosionRemainingTicks;
    }
  }

  /** `Mine.Equals` is an equivalence on mines. */
  lemma {:induction false} MineEqualsIsEquivalence(a: Mine, b: Mine, c: Mine)
    ensures a.Equals(a)
    ensures a.Equals(b) <==> b.Equals(a)
    ensures a.Equals(b) && b.Equals(c) ==> a.Equals(c)
  {
  }

  /** Decrements never explode an unexploded mine. */
  lemma {:induction false} UnexplodedStays(n: nat)
    ensures DecreasedN(None, n) == None
  {
    if n > 0 {
      UnexplodedStays(n - 1);
    }
  }

  /** After `n` decrements a countdown started at `t` stands at `t - n`. */
  lemma {:induction false} DecreasedNValue(t: int, n: nat)
    ensures DecreasedN(Some(t), n) == Some(t - n)
  {
    if n > 0 {
      DecreasedNValue(t, n - 1);
    }
  }

  /** An explosion lasts exactly `ExplosionTicks` decrements: a freshly
      exploded mine is fully exploded after that many, and not before. */
  lemma {:induction false} ExplosionLasts(n: nat)
    ensures FullyExploded(DecreasedN(Some(ExplosionTicks), n)) <==> n >= ExplosionTicks
  {
    DecreasedNValue(ExplosionTicks, n);
  }
}
