/** `EnumUtils`: stepping through an enumeration's declared values. An
    enumeration is modelled by the sequence `Enum.GetValues` returns; its
    values are distinct and there is at least one. */
module LogicEnums {

  /** `Array.IndexOf`: the first index holding `v`, or -1. */
  function IndexOf<T(==)>(values: seq<T>, v: T): (i: int)
    ensures -1 <= i < |values|
    ensures i >= 0 ==> values[i] == v
  {
    if |values| == 0 then -1
    else if values[0] == v then 0
    else
      var rest := IndexOf(values[1..], v);
      if rest == -1 then -1 else rest + 1
  }

  /** `IndexOf` finds the first occurrence, and -1 exactly for a value
      that does not occur. */
  lemma {:induction false} IndexOfFirst<T>(values: seq<T>, v: T)
    ensures IndexOf(values, v) == -1 <==> v !in values
    ensures forall k :: 0 <= k < IndexOf(values, v) ==> values[k] != v
  {
    if |values| > 0 && values[0] != v {
      IndexOfFirst(values[1..], v);
      assert values == [values[0]] + values[1..];
    }
  }

  /** The declared values are distinct: each one is found at its own
      position. */
  ghost predicate IsEnum<T>(values: seq<T>) {
    |values| > 0 && forall i {:trigger IndexOf(values, values[i])} :: 0 <= i < |values| ==> IndexOf(values, values[i]) == i
  }

  /** `Next`: the value declared after `v`, wrapping round to the first; a
      value outside the enumeration (index -1) also steps to the first. */
  function Next<T(==)>(values: seq<T>, v: T): (r: T)
    requires |values| > 0
    ensures r in values
  {
    var i := IndexOf(values, v) + 1;
    values[if i == |values| then 0 else i]
  }

  /** `Previous`: the value declared before `v`, wrapping round to the last;
      a value outside the enumeration (index -1) steps to the last but one. */
  function Previous<T(==)>(values: seq<T>, v: T): (r: T)
    requires |values| > 0
    ensures r in values
  {
    var i := IndexOf(values, v);
    values[if i == -1 && |values| >= 2 then |values| - 2 else if i <= 0 then |values| - 1 else i - 1]
  }

  /** `(a) % m` for `0 <= a < 2m`. */
  lemma {:induction false} ModWrap(a: int, m: int)
    requires 0 < m && 0 <= a < 2 * m
    ensures a % m == if a < m then a else a - m
  {
    if a >= m {
      assert a == m + (a - m);
    }
  }

  /** `Next` is the value at the found index plus one, modulo the number of
      values. */
  lemma {:induction false} NextModulo<T>(values: seq<T>, v: T)
    requires |values| > 0
    ensures Next(values, v) == values[(IndexOf(values, v) + 1) % |values|]
  {
    ModWrap(IndexOf(values, v) + 1, |values|);
  }

  /** `Previous` is the value at the found index minus one, plus the number
      of values, modulo the number of values (the remainder of a negative
      dividend being zero here, in C# as in Dafny). */
  lemma {:induction false} PreviousModulo<T>(values: seq<T>, v: T)
    requires |values| > 0
    ensures Previous(values, v) == values[(IndexOf(values, v) - 1 + |values|) % |values|]
  {
    var m := |values|;
    var i := IndexOf(values, v);
    var j := if i == -1 && m >= 2 then m - 2 else if i <= 0 then m - 1 else i - 1;
    PreviousIndexModulo(i, m);
    assert (i - 1 + m) % m == j;
  }

  /** The index arithmetic of `PreviousModulo`. */
  lemma {:induction false} PreviousIndexModulo(i: int, m: int)
    requires 0 < m && -1 <= i < m
    ensures (i - 1 + m) % m == if i == -1 && m >= 2 then m - 2 else if i <= 0 then m - 1 else i - 1
  {
    if i == -1 && m == 1 {
      assert i - 1 + m == -1;
    } else {
      ModWrap(i - 1 + m, m);
    }
  }

  /** `Next` moves one index on, from the last back to the first. */
  lemma {:induction false} NextIndex<T>(values: seq<T>, i: nat)
    requires IsEnum(values) && i < |values|
    ensures IndexOf(values, Next(values, values[i])) == if i + 1 == |values| then 0 else i + 1
  {
    assert IndexOf(values, values[i]) == i;
  }

  /** `Previous` moves one index back, from the first round to the last. */
  lemma {:induction false} PreviousIndex<T>(values: seq<T>, i: nat)
    requires IsEnum(values) && i < |values|
    ensures IndexOf(values, Previous(values, values[i])) == if i == 0 then |values| - 1 else i - 1
  {
    assert IndexOf(values, values[i]) == i;
  }

  /** `Previous` undoes `Next` and `Next` undoes `Previous` on every value
      of the enumeration. */
  lemma {:induction false} NextPreviousInverse<T>(values: seq<T>, v: T)
    requires IsEnum(values) && v in values
    ensures Previous(values, Next(values, v)) == v
    ensures Next(values, Previous(values, v)) == v
  {
    IndexOfFirst(values, v);
    var i := IndexOf(values, v);
    NextIndex(values, i);
    PreviousIndex(values, IndexOf(values, Next(values, v)));
    PreviousIndex(values, i);
    NextIndex(values, IndexOf(values, Previous(values, v)));
  }

  /** `Next` applied `n` times. */
  function NextN<T(==)>(values: seq<T>, v: T, n: nat): (r: T)
    requires |values| > 0
    ensures n > 0 ==> r in values
  {
    if n == 0 then v else Next(values, NextN(values, v, n - 1))
  }

  /** Without wrapping round, `n` steps move `n` indices on. */
  lemma {:induction false} NextNNoWrap<T>(values: seq<T>, i: nat, n: nat)
    requires IsEnum(values) && i + n < |values|
    ensures NextN(values, values[i], n) == values[i + n]
  {
    if n > 0 {
      NextNNoWrap(values, i, n - 1);
      NextIndex(values, i + n - 1);
    }
  }

  lemma {:induction false} NextNCompose<T>(values: seq<T>, v: T, a: nat, b: nat)
    requires |values| > 0
    ensures NextN(values, v, a + b) == NextN(values, NextN(values, v, a), b)
  {
    if b > 0 {
      NextNCompose(values, v, a, b - 1);
    }
  }

  /** From index `i`, `|values| - i` steps reach the first value. */
  lemma {:induction false} WrapToFirst<T>(values: seq<T>, i: nat)
    requires IsEnum(values) && i < |values|
    ensures NextN(values, values[i], |values| - i) == values[0]
  {
    var m := |values|;
    var last := values[m - 1];
    NextNNoWrap(values, i, m - 1 - i);
    NextIndex(values, m - 1);
    NextNCompose(values, values[i], m - 1 - i, 1);
    calc {
      NextN(values, values[i], m - i);
      { assert m - i == (m - 1 - i) + 1; }
      NextN(values, values[i], (m - 1 - i) + 1);
      NextN(values, NextN(values, values[i], m - 1 - i), 1);
      NextN(values, last, 1);
      Next(values, last);
      { assert IndexOf(values, Next(values, last)) == 0; }
      values[0];
    }
  }

  /** Stepping `Next` as many times as there are values comes back to the
      start. */
  lemma {:induction false} NextCycles<T>(values: seq<T>, v: T)
    requires IsEnum(values) && v in values
    ensures NextN(values, v, |values|) == v
  {
    IndexOfFirst(values, v);
    var i := IndexOf(values, v);
    var m := |values|;
    assert values[i] == v;
    WrapToFirst(values, i);
    NextNNoWrap(values, 0, i);
    var a: nat := m - i;
    NextNCompose(values, v, a, i);
    assert a + i == m;
  }
}
