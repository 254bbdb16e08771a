/** `HealSystem`: whole-point healing clamped to the tank's maximum, and
    fractional healing buffered per tank until it makes a whole point.
    Tanks are keyed by their owner's id, as tank equality is. */
module LogicHeal {
  import opened Wrappers
  import opened LogicFractions
  import opened LogicTanks

  /** `Math.Clamp`. */
  function Clamp(v: int, lo: int, hi: int): (r: int)
    requires lo <= hi
    ensures lo <= r <= hi
    ensures lo <= v <= hi ==> r == v
    ensures v < lo ==> r == lo
    ensures v > hi ==> r == hi
  {
    if v < lo then lo else if v > hi then hi else v
  }

  class HealSystem {
    var buffer: map<string, real>

    /** Between calls every buffered amount is a fraction of a point. */
    ghost predicate Valid()
      reads this
    {
      forall t :: t in buffer ==> 0.0 <= buffer[t] < 1.0
    }

    constructor ()
      ensures Valid() && buffer == map[]
    {
      buffer := map[];
    }

    /** `ClearFractionalBuffer`: only this tank's entry goes. */
    method ClearFractionalBuffer(tank: Tank)
      requires Valid()
      modifies this`buffer
      ensures Valid() && buffer == old(buffer) - {tank.ownerId}
    {
      buffer := buffer - {tank.ownerId};
    }

    /** `Heal(tank, int)`: negative points throw; a dead tank is left
        alone; otherwise the health becomes the sum clamped to [0, 100]. A
        live tank with a null health throws on the `!.Value`. */
    method Heal(tank: Tank, points: int) returns (o: Outcome)
      modifies tank`health
      ensures points < 0 ==> o == Throw(ArgumentOutOfRange)
      ensures points >= 0 && old(tank.IsDead()) ==> o == Pass
      ensures points >= 0 && !old(tank.IsDead()) && old(tank.health).None? ==> o == Throw(InvalidOperation)
      ensures o.Throw? <==> points < 0 || (!old(tank.IsDead()) && old(tank.health).None?)
      ensures o.Throw? || old(tank.IsDead()) ==> tank.health == old(tank.health)
      ensures o.Pass? && !old(tank.IsDead()) ==>
        old(tank.health).Some? && tank.health == Some(Clamp(old(tank.health).value + points, 0, HealthMax))
    {
      if points < 0 {
        return Throw(ArgumentOutOfRange);
      }
      if tank.IsDead() {
        return Pass;
      }
      if tank.health.None? {
        return Throw(InvalidOperation);
      }
      tank.health := Some(Clamp(tank.health.value + points, 0, HealthMax));
      return Pass;
    }

    /** `Heal(tank, float)`: the points go to the tank's buffer, and once
        the buffer reaches a whole point that many are healed and taken out
        of it. */
    method HealFraction(tank: Tank, points: real) returns (o: Outcome)
      requires Valid()
      modifies this`buffer, tank`health
      ensures points < 0.0 ==> o == Throw(ArgumentOutOfRange) && buffer == old(buffer) && tank.health == old(tank.health)
      ensures points >= 0.0 && old(tank.IsDead()) ==> o == Pass && buffer == old(buffer) && tank.health == old(tank.health)
      ensures points >= 0.0 && !old(tank.IsDead()) ==>
        var (rest, whole) := Accumulate(Held(old(buffer), tank.ownerId), points);
        if whole == 0 then
          o == Pass && buffer == old(buffer)[tank.ownerId := rest] && tank.health == old(tank.health)
        else if old(tank.health).None? then
          o == Throw(InvalidOperation) && buffer == old(buffer)[tank.ownerId := Held(old(buffer), tank.ownerId) + points] &&
          tank.health == old(tank.health)
        else
          o == Pass && buffer == old(buffer)[tank.ownerId := rest] &&
          tank.health == Some(Clamp(old(tank.health).value + whole, 0, HealthMax))
      ensures o.Pass? ==> Valid()
    {
      if points < 0.0 {
        return Throw(ArgumentOutOfRange);
      }
      if tank.IsDead() {
        return Pass;
      }
      var held := Held(buffer, tank.ownerId) + points;
      buffer := buffer[tank.ownerId := held];
      var whole := Trunc(held);
      if whole >= 1 {
        o := Heal(tank, whole);
        if o.Throw? {
          return;
        }
        buffer := buffer[tank.ownerId := held - whole as real];
      }
      return Pass;
    }
  }
}
