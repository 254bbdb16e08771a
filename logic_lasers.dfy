/** Lasers: one laser object per tile of a beam, each counting down its
    `BlastTicks` of life. */
module LogicLasers {
  import opened Wrappers
  import opened LogicDirections
  import opened LogicStun
  import opened LogicTanks

  /** `BlastTicks`. */
  const BlastTicks := 10

  /** A laser as a game state payload carries it. */
  datatype LaserSnapshot = LaserSnapshot(id: int, x: int, y: int, orientation: Orientation, damage: Option<int>,
                                         shooterId: Option<string>)

  /** The static `idCounter` of lasers. */
  class LaserIds {
    var next: int

    constructor ()
      ensures next == 0
    {
      next := 0;
    }
  }

  class Laser {
    const id: int
    const x: int
    const y: int
    var orientation: Orientation
    var damage: Option<int>
    var remainingTicks: int
    var shooterId: Option<string>
    var shooter: Player?

    /** A laser of a beam fired by `shooter`: the next id of the counter, a
        full `BlastTicks` of life, and the shooter's id beside the shooter. */
    constructor Fired(ids: LaserIds, x: int, y: int, orientation: Orientation, damage: int, shooter: Player)
      modifies ids
      ensures id == old(ids.next) && ids.next == old(ids.next) + 1
      ensures this.x == x && this.y == y && this.orientation == orientation
      ensures this.damage == Some(damage) && remainingTicks == BlastTicks
      ensures this.shooter == shooter && shooterId == Some(shooter.id)
    {
      id := ids.next;
      this.x := x;
      this.y := y;
      this.orientation := orientation;
      this.damage := Some(damage);
      remainingTicks := BlastTicks;
      shooterId := Some(shooter.id);
      this.shooter := shooter;
      new;
      ids.next := ids.next + 1;
    }

    /** A laser rebuilt from a payload snapshot: the snapshot's id, cell,
        orientation, damage and shooter id, a full `BlastTicks` of life, and
        no shooter object. */
    constructor Snapshot(snapshot: LaserSnapshot)
      ensures id == snapshot.id && x == snapshot.x && y == snapshot.y && orientation == snapshot.orientation
      ensures damage == snapshot.damage && shooterId == snapshot.shooterId
      ensures remainingTicks == BlastTicks && shooter == null
    {
      id := snapshot.id;
      x := snapshot.x;
      y := snapshot.y;
      orientation := snapshot.orientation;
      damage := snapshot.damage;
      shooterId := snapshot.shooterId;
      remainingTicks := BlastTicks;
      shooter := null;
    }

    /** `Equals`: lasers are the same laser when their ids are. */
    predicate Equals(other: Laser?) {
      other != null && other.id == id
    }

    /** The laser as a stun effect: keyed by its id. */
    function Stun(): (k: StunKey)
      ensures StunTicks(k) == LaserStunTicks && BlockOf(k) == All
    {
      LaserStun(id)
    }

    /** `DecreaseRemainingTicks`. */
    method DecreaseRemainingTicks()
      modifies this`remainingTicks
      ensures remainingTicks == old(remainingTicks) - 1
    {
      remainingTicks := remainingTicks - 1;
    }

    /** `UpdateFrom`: the snapshot's orientation, damage and shooter id;
        the cell, the countdown and the shooter object stay. */
    method UpdateFrom(snapshot: LaserSnapshot)
      modifies this`orientation, this`damage, this`shooterId
      ensures orientation == snapshot.orientation && damage == snapshot.damage
      ensures shooterId == snapshot.shooterId
    {
      orientation, damage, shooterId := snapshot.orientation, snapshot.damage, snapshot.shooterId;
    }
  }

  /** `Laser.Equals` is an equivalence on lasers. */
  lemma {:induction false} LaserEqualsIsEquivalence(a: Laser, b: Laser, c: Laser)
    ensures a.Equals(a)
    ensures a.Equals(b) <==> b.Equals(a)
    ensures a.Equals(b) && b.Equals(c) ==> a.Equals(c)
  {
  }
}
