/** Fractional points buffered until they make a whole point, as the heal
    and score systems do with their `float` buffers. Floats are modelled as
    reals, so rounding of the single-precision sums is not modelled. */
module LogicFractions {

  /** C#'s `(int)` cast of a floating value: truncation toward zero. */
  function Trunc(r: real): (n: int)
    ensures r >= 0.0 ==> n as real <= r < n as real + 1.0
    ensures r < 0.0 ==> n as real - 1.0 < r <= n as real
  {
    if r >= 0.0 then r.Floor else -((-r).Floor)
  }

  /** The buffer `held` after adding `points`: the whole part of the sum is
      paid out once it reaches 1 and the rest stays buffered. The result is
      the new buffer and the whole points paid out. */
  function Accumulate(held: real, points: real): (r: (real, int))
    ensures r.0 + r.1 as real == held + points
    ensures r.1 >= 0
    ensures held + points >= 0.0 ==> 0.0 <= r.0 < 1.0
    ensures held + points >= 0.0 ==> r.1 == (if held + points >= 1.0 then (held + points).Floor else 0)
  {
    var total := held + points;
    var whole := Trunc(total);
    if whole >= 1 then (total - whole as real, whole) else (total, 0)
  }

  /** What a buffer dictionary holds for `key`: the stored value, or the
      points alone when `TryAdd` inserts a new entry. */
  function Held(buffer: map<string, real>, key: string): real {
    if key in buffer then buffer[key] else 0.0
  }

  /** Accumulating nothing pays nothing and leaves a buffer in [0, 1)
      unchanged; accumulating `a` then `b` pays out, in total, what the two
      leave behind subtracted from everything added. */
  lemma {:induction false} AccumulateTwice(held: real, a: real, b: real)
    requires 0.0 <= held < 1.0 && a >= 0.0 && b >= 0.0
    ensures Accumulate(held, 0.0) == (held, 0)
    ensures var (h1, p1) := Accumulate(held, a);
      var (h2, p2) := Accumulate(h1, b);
      (p1 + p2) as real == held + a + b - h2 && 0.0 <= h2 < 1.0
  {
  }
}
