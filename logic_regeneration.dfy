/** `RegenerationUtils`: the countdown every regenerating thing shares. A
    timer is a nullable tick count; null means "not regenerating". */
module LogicRegeneration {
  import opened Wrappers

  /** `UpdateRegenerationProcess`: a running timer is decremented and
      becomes null once it reaches zero or below; null stays null. The C#
      `ref int?` parameter is the argument and the result. */
  function UpdateRegenerationProcess(remaining: Option<int>): (r: Option<int>)
    ensures remaining.None? ==> r.None?
    ensures remaining.Some? && remaining.value > 1 ==> r == Some(remaining.value - 1)
    ensures remaining.Some? && remaining.value <= 1 ==> r.None?
    ensures r.Some? ==> r.value > 0
  {
    if remaining.Some? && remaining.value - 1 > 0 then Some(remaining.value - 1) else None
  }

  /** `GetRegenerationProgres`: null for a null timer, otherwise the
      elapsed fraction `1 - remaining / total` (floats as reals). */
  function GetRegenerationProgres(remaining: Option<int>, total: int): (r: Option<real>)
    requires total > 0
    ensures r.None? <==> remaining.None?
    ensures remaining.Some? && 0 <= remaining.value <= total ==> 0.0 <= r.value <= 1.0
    ensures remaining.Some? && remaining.value == total ==> r == Some(0.0)
  {
    if remaining.None? then None
    else
      RatioInUnit(remaining.value as real, total as real);
      Some(1.0 - remaining.value as real / total as real)
  }

  lemma {:induction false} RatioInUnit(r: real, t: real)
    requires t > 0.0
    ensures 0.0 <= r <= t ==> 0.0 <= r / t <= 1.0
    ensures r == t ==> r / t == 1.0
  {
    if 0.0 <= r <= t {
      assert r / t * t == r;
    }
  }

  /** The check of every `RemainingRegenerationTicks` initialiser: a
      negative count is rejected. */
  function CheckTimer(value: Option<int>): (o: Outcome)
    ensures o.Throw? <==> value.Some? && value.value < 0
    ensures o.Throw? ==> o.error == ArgumentOutOfRange
  {
    if value.Some? && value.value < 0 then Throw(ArgumentOutOfRange) else Pass
  }

  /** The timer after `n` ticks. */
  function Ticks(remaining: Option<int>, n: nat): Option<int>
    decreases n
  {
    if n == 0 then remaining else Ticks(UpdateRegenerationProcess(remaining), n - 1)
  }

  /** A timer started at `total` runs for exactly `total` ticks: it is
      still running after fewer, and null after `total`. */
  lemma {:induction false} CountdownLength(total: int, n: nat)
    requires total >= 1
    ensures n < total ==> Ticks(Some(total), n) == Some(total - n)
    ensures n >= total ==> Ticks(Some(total), n).None?
  {
    if n > 0 {
      if total == 1 {
        NullStays(n - 1);
      } else {
        CountdownLength(total - 1, n - 1);
      }
    }
  }

  lemma {:induction false} NullStays(n: nat)
    ensures Ticks(None, n) == None
  {
    if n > 0 {
      NullStays(n - 1);
    }
  }
}
