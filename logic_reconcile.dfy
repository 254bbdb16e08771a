/** The id reconciliation `GameStateApplier` runs on each entity list:
    the entities whose key the payload lacks leave the list (`RemoveAll`),
    then every snapshot in payload order either finds the first entity with
    its key, which it updates, or is appended. The list-shape facts are
    stated here once, for any entity type and key. */
module LogicReconcile {
  import opened Wrappers

  /** The keys of the entities of a list. */
  function Keys<T, K>(xs: seq<T>, key: T -> K): set<K> {
    set i | 0 <= i < |xs| :: key(xs[i])
  }

  /** No two entities of the list share a key. */
  predicate UniqueKeys<T, K(==)>(xs: seq<T>, key: T -> K) {
    forall i, j :: 0 <= i < j < |xs| ==> key(xs[i]) != key(xs[j])
  }

  /** `FirstOrDefault(e => key(e) == k)`: the first position with the key. */
  function FirstWith<T, K(==)>(xs: seq<T>, key: T -> K, k: K): (r: Option<nat>)
    ensures r.Some? ==> r.value < |xs| && key(xs[r.value]) == k
    ensures r.Some? ==> forall i :: 0 <= i < r.value ==> key(xs[i]) != k
    ensures r.None? <==> k !in Keys(xs, key)
  {
    if xs == [] then None
    else if key(xs[0]) == k then Some(0)
    else
      match FirstWith(xs[1..], key, k)
      case None =>
        assert forall i :: 1 <= i < |xs| ==> xs[i] == xs[1..][i - 1];
        None
      case Some(i) => Some(i + 1)
  }

  /** The last position with the key: the snapshot whose state an entity
      ends up with. */
  function LastWith<T, K(==)>(xs: seq<T>, key: T -> K, k: K): (r: Option<nat>)
    ensures r.Some? ==> r.value < |xs| && key(xs[r.value]) == k
    ensures r.Some? ==> forall i :: r.value < i < |xs| ==> key(xs[i]) != k
    ensures r.None? <==> k !in Keys(xs, key)
  {
    if xs == [] then None
    else if key(xs[|xs| - 1]) == k then Some(|xs| - 1)
    else
      var r := LastWith(xs[..|xs| - 1], key, k);
      assert forall i :: 0 <= i < |xs| - 1 ==> xs[i] == xs[..|xs| - 1][i];
      r
  }

  /** Extending a prefix by one entity moves the last position of its key
      there and keeps every other. */
  lemma {:induction false} LastWithExtend<T, K>(xs: seq<T>, key: T -> K, k: nat, x: K)
    requires k < |xs|
    ensures LastWith(xs[..k + 1], key, x) == if key(xs[k]) == x then Some(k) else LastWith(xs[..k], key, x)
  {
    assert xs[..k + 1][..k] == xs[..k];
  }

  /** `RemoveAll(e => !keys.Contains(key(e)))`: the entities whose key is
      among `keys`, in their order. */
  function Kept<T, K>(xs: seq<T>, key: T -> K, keys: set<K>): (r: seq<T>)
    ensures |r| <= |xs|
  {
    if xs == [] then []
    else (if key(xs[0]) in keys then [xs[0]] else []) + Kept(xs[1..], key, keys)
  }

  /** Every kept entity has a listed key and comes from the list. */
  lemma {:induction false} KeptFrom<T, K>(xs: seq<T>, key: T -> K, keys: set<K>)
    ensures forall i :: 0 <= i < |Kept(xs, key, keys)| ==>
      key(Kept(xs, key, keys)[i]) in keys && exists j :: 0 <= j < |xs| && xs[j] == Kept(xs, key, keys)[i]
  {
    if xs != [] {
      var rest := xs[1..];
      KeptFrom(rest, key, keys);
      var tail := Kept(rest, key, keys);
      var head := if key(xs[0]) in keys then [xs[0]] else [];
      var r := Kept(xs, key, keys);
      assert r == head + tail;
      forall i | 0 <= i < |r| ensures key(r[i]) in keys && exists j :: 0 <= j < |xs| && xs[j] == r[i] {
        if i >= |head| {
          assert r[i] == tail[i - |head|];
          var j :| 0 <= j < |rest| && rest[j] == tail[i - |head|];
          assert xs[j + 1] == r[i];
        } else {
          assert r[i] == xs[0];
        }
      }
    }
  }

  /** Every entity of the list with a listed key is kept. */
  lemma {:induction false} KeptAll<T, K>(xs: seq<T>, key: T -> K, keys: set<K>)
    ensures forall j :: 0 <= j < |xs| && key(xs[j]) in keys ==> xs[j] in Kept(xs, key, keys)
  {
    if xs != [] {
      var rest := xs[1..];
      KeptAll(rest, key, keys);
      var tail := Kept(rest, key, keys);
      var head := if key(xs[0]) in keys then [xs[0]] else [];
      assert Kept(xs, key, keys) == head + tail;
      forall j | 0 <= j < |xs| && key(xs[j]) in keys ensures xs[j] in Kept(xs, key, keys) {
        if j > 0 {
          assert rest[j - 1] == xs[j];
          assert rest[j - 1] in tail;
        }
      }
    }
  }

  /** The kept keys are the listed keys the list had. */
  lemma {:induction false} KeptKeys<T, K>(xs: seq<T>, key: T -> K, keys: set<K>)
    ensures Keys(Kept(xs, key, keys), key) == Keys(xs, key) * keys
  {
    var r := Kept(xs, key, keys);
    KeptFrom(xs, key, keys);
    KeptAll(xs, key, keys);
    forall k | k in Keys(r, key) ensures k in Keys(xs, key) * keys {
      var i :| 0 <= i < |r| && key(r[i]) == k;
      var j :| 0 <= j < |xs| && xs[j] == r[i];
    }
    forall k | k in Keys(xs, key) * keys ensures k in Keys(r, key) {
      var j :| 0 <= j < |xs| && key(xs[j]) == k;
      assert xs[j] in r;
      var i :| 0 <= i < |r| && r[i] == xs[j];
    }
  }

  /** `Kept` keeps unique keys unique. */
  lemma {:induction false} KeptUnique<T, K>(xs: seq<T>, key: T -> K, keys: set<K>)
    requires UniqueKeys(xs, key)
    ensures UniqueKeys(Kept(xs, key, keys), key)
  {
    if xs != [] {
      var rest := xs[1..];
      KeptUnique(rest, key, keys);
      KeptFrom(rest, key, keys);
      var tail := Kept(rest, key, keys);
      var r := Kept(xs, key, keys);
      if key(xs[0]) in keys {
        assert r == [xs[0]] + tail;
        forall j | 0 < j < |r| ensures key(r[0]) != key(r[j]) {
          assert r[j] == tail[j - 1];
          var i :| 0 <= i < |rest| && rest[i] == tail[j - 1];
          assert xs[i + 1] == r[j];
        }
      }
    }
  }

  /** One snapshot: appended when no entity has its key, and otherwise the
      list stays as it is (the entity found is updated in place). */
  function Step<T, K(==)>(xs: seq<T>, s: T, key: T -> K): seq<T> {
    if FirstWith(xs, key, key(s)).None? then xs + [s] else xs
  }

  /** The snapshots in order, each one `Step`. */
  function Appended<T, K(==)>(xs: seq<T>, snaps: seq<T>, key: T -> K): seq<T> {
    if snaps == [] then xs
    else Step(Appended(xs, snaps[..|snaps| - 1], key), snaps[|snaps| - 1], key)
  }

  /** The list after a reconciliation: the entities with a payload key,
      then the snapshots whose key is new, each once. */
  function Reconciled<T, K(==)>(xs: seq<T>, snaps: seq<T>, key: T -> K): seq<T> {
    Appended(Kept(xs, key, Keys(snaps, key)), snaps, key)
  }

  /** A step keeps the first position of every key but the snapshot's. */
  lemma {:induction false} StepKeepsFirst<T, K>(xs: seq<T>, s: T, key: T -> K, k: K)
    ensures k != key(s) ==> FirstWith(Step(xs, s, key), key, k) == FirstWith(xs, key, k)
    ensures FirstWith(xs, key, k).Some? ==> FirstWith(Step(xs, s, key), key, k) == FirstWith(xs, key, k)
    ensures FirstWith(Step(xs, s, key), key, key(s)).Some?
  {
    var ys := Step(xs, s, key);
    assert ys[..|xs|] == xs;
    assert key(s) in Keys(ys, key) by {
      if FirstWith(xs, key, key(s)).None? {
        assert ys[|xs|] == s;
      }
    }
    if k != key(s) || FirstWith(xs, key, k).Some? {
      var a, b := FirstWith(xs, key, k), FirstWith(ys, key, k);
      if a.Some? {
        assert ys[a.value] == xs[a.value];
      }
    }
  }

  /** Appending snapshots keeps the list as a prefix and adds exactly the
      snapshots' keys, each appended entity being a snapshot whose key the
      list lacked; unique keys stay unique. */
  lemma {:induction false} AppendedShape<T, K>(xs: seq<T>, snaps: seq<T>, key: T -> K)
    ensures var r := Appended(xs, snaps, key);
      |r| >= |xs| && r[..|xs|] == xs && Keys(r, key) == Keys(xs, key) + Keys(snaps, key)
    ensures var r := Appended(xs, snaps, key);
      forall j :: |xs| <= j < |r| ==> r[j] in snaps && key(r[j]) !in Keys(xs, key)
    ensures UniqueKeys(xs, key) ==> UniqueKeys(Appended(xs, snaps, key), key)
  {
    if snaps != [] {
      var init, s := snaps[..|snaps| - 1], snaps[|snaps| - 1];
      AppendedShape(xs, init, key);
      var p := Appended(xs, init, key);
      var r := Appended(xs, snaps, key);
      assert r == Step(p, s, key);
      assert snaps == init + [s];
      assert forall x :: x in init ==> x in snaps;
      assert Keys(snaps, key) == Keys(init, key) + {key(s)} by {
        assert forall i :: 0 <= i < |init| ==> init[i] == snaps[i];
      }
      if FirstWith(p, key, key(s)).None? {
        assert r == p + [s];
        assert r[..|p|] == p;
        assert r[..|xs|] == p[..|xs|];
        assert key(s) !in Keys(xs, key);
        KeysSnoc(p, key, s);
        SnocUnique(p, key, s);
      } else {
        assert key(s) in Keys(p, key);
      }
    }
  }

  /** After a reconciliation the list's keys are exactly the payload's:
      the kept entities come first, in their order, and the rest are
      snapshots with new keys; unique keys stay unique. */
  lemma {:induction false} ReconciledKeys<T, K>(xs: seq<T>, snaps: seq<T>, key: T -> K)
    ensures var r, kept := Reconciled(xs, snaps, key), Kept(xs, key, Keys(snaps, key));
      Keys(r, key) == Keys(snaps, key) && |r| >= |kept| && r[..|kept|] == kept &&
      forall j :: |kept| <= j < |r| ==> r[j] in snaps && key(r[j]) !in Keys(xs, key)
    ensures UniqueKeys(xs, key) ==> UniqueKeys(Reconciled(xs, snaps, key), key)
  {
    var kept := Kept(xs, key, Keys(snaps, key));
    KeptKeys(xs, key, Keys(snaps, key));
    if UniqueKeys(xs, key) {
      KeptUnique(xs, key, Keys(snaps, key));
    }
    AppendedShape(kept, snaps, key);
    var r := Reconciled(xs, snaps, key);
    forall j | |kept| <= j < |r| ensures key(r[j]) !in Keys(xs, key) {
      assert key(r[j]) !in Keys(kept, key);
      assert r[j] in snaps;
      var i :| 0 <= i < |snaps| && snaps[i] == r[j];
      assert key(r[j]) in Keys(snaps, key);
    }
  }

  /** A key's first position is the position with the key before which no
      entity has it. */
  lemma {:induction false} FirstWithAt<T, K>(xs: seq<T>, key: T -> K, k: K, p: nat)
    requires p < |xs| && key(xs[p]) == k && forall i :: 0 <= i < p ==> key(xs[i]) != k
    ensures FirstWith(xs, key, k) == Some(p)
  {
    assert k in Keys(xs, key);
  }

  /** Two lists whose keys agree position by position have the same keys
      and the same first positions. */
  lemma {:induction false} FirstWithSame<T, U, K>(xs: seq<T>, kx: T -> K, ys: seq<U>, ky: U -> K, k: K)
    requires |xs| == |ys| && forall i :: 0 <= i < |xs| ==> kx(xs[i]) == ky(ys[i])
    ensures Keys(xs, kx) == Keys(ys, ky)
    ensures FirstWith(xs, kx, k) == FirstWith(ys, ky, k)
  {
    assert forall x :: x in Keys(xs, kx) ==> x in Keys(ys, ky) by {
      forall x | x in Keys(xs, kx) ensures x in Keys(ys, ky) {
        var i :| 0 <= i < |xs| && kx(xs[i]) == x;
        assert ky(ys[i]) == x;
      }
    }
    assert forall x :: x in Keys(ys, ky) ==> x in Keys(xs, kx) by {
      forall x | x in Keys(ys, ky) ensures x in Keys(xs, kx) {
        var i :| 0 <= i < |ys| && ky(ys[i]) == x;
        assert kx(xs[i]) == x;
      }
    }
    match FirstWith(xs, kx, k)
    case None =>
    case Some(p) => FirstWithAt(ys, ky, k, p);
  }

  /** For each key of the list, the first entity with it: the entity a
      snapshot with that key finds. */
  function FirstOf<T, K>(xs: seq<T>, key: T -> K): (m: map<K, T>)
    ensures m.Keys == Keys(xs, key)
  {
    map k | k in Keys(xs, key) :: xs[FirstWith(xs, key, k).value]
  }

  /** Replacing the first entity with a key (and possibly later ones with
      the same key) by `y` maps that key to `y` and keeps the rest. */
  lemma {:induction false} FirstOfReplace<T, K>(xs: seq<T>, ys: seq<T>, key: T -> K, y: T)
    requires |ys| == |xs| && FirstWith(xs, key, key(y)).Some?
    requires forall i :: 0 <= i < |xs| ==> ys[i] == xs[i] || (key(xs[i]) == key(y) && ys[i] == y)
    requires ys[FirstWith(xs, key, key(y)).value] == y
    ensures FirstOf(ys, key) == FirstOf(xs, key)[key(y) := y]
  {
    assert forall i :: 0 <= i < |xs| ==> key(xs[i]) == key(ys[i]);
    FirstWithSame(xs, key, ys, key, key(y));
    forall k | k in Keys(xs, key) ensures FirstOf(ys, key)[k] == FirstOf(xs, key)[key(y) := y][k] {
      FirstWithSame(xs, key, ys, key, k);
    }
  }

  /** Appending an entity with a new key maps that key to it and keeps the
      rest. */
  lemma {:induction false} FirstOfAppend<T, K>(xs: seq<T>, key: T -> K, y: T)
    requires key(y) !in Keys(xs, key)
    ensures FirstOf(xs + [y], key) == FirstOf(xs, key)[key(y) := y]
  {
    var ys := xs + [y];
    assert Keys(ys, key) == Keys(xs, key) + {key(y)} by {
      assert forall i :: 0 <= i < |xs| ==> ys[i] == xs[i];
      assert ys[|xs|] == y;
    }
    FirstWithAt(ys, key, key(y), |xs|);
    forall k | k in Keys(xs, key) ensures FirstOf(ys, key)[k] == FirstOf(xs, key)[k] {
      var p := FirstWith(xs, key, k).value;
      FirstWithAt(ys, key, k, p);
    }
  }

  /** The last position whose entity is selected and has the key. */
  function LastWhere<T, K(==)>(xs: seq<T>, key: T -> K, sel: T -> bool, k: K): (r: Option<nat>)
    ensures r.Some? ==> r.value < |xs| && sel(xs[r.value]) && key(xs[r.value]) == k
    ensures r.Some? ==> forall i :: r.value < i < |xs| && sel(xs[i]) ==> key(xs[i]) != k
  {
    if xs == [] then None
    else if sel(xs[|xs| - 1]) && key(xs[|xs| - 1]) == k then Some(|xs| - 1)
    else
      var r := LastWhere(xs[..|xs| - 1], key, sel, k);
      assert forall i :: 0 <= i < |xs| - 1 ==> xs[i] == xs[..|xs| - 1][i];
      r
  }

  /** Every entity is selected. */
  function Every<T>(x: T): bool {
    true
  }

  /** For every key, the last selected snapshot among the first `k` with it
      has left `want` of itself in `pick` of the key's entity. */
  ghost predicate AppliedLast<V, K, R, A>(view: map<K, R>, pick: R -> A, vals: seq<V>, k: nat,
                                                 key: V -> K, sel: V -> bool, want: V -> A)
    requires k <= |vals|
  {
    forall j {:trigger LastWhere(vals[..k], key, sel, key(vals[j]))} ::
      0 <= j < k && sel(vals[j]) && LastWhere(vals[..k], key, sel, key(vals[j])) == Some(j) ==>
        key(vals[j]) in view && pick(view[key(vals[j])]) == want(vals[j])
  }

  /** Applying snapshot `k` to its key's entity, which keeps `pick` when the
      snapshot is not selected, applies the first `k + 1`. */
  lemma {:induction false} AppliedLastStep<V, K, R, A>(view: map<K, R>, view': map<K, R>, pick: R -> A, vals: seq<V>,
                                                       k: nat, key: V -> K, sel: V -> bool, want: V -> A)
    requires k < |vals| && AppliedLast(view, pick, vals, k, key, sel, want)
    requires key(vals[k]) in view' && view' == view[key(vals[k]) := view'[key(vals[k])]]
    requires sel(vals[k]) ==> pick(view'[key(vals[k])]) == want(vals[k])
    requires !sel(vals[k]) && key(vals[k]) in view ==> pick(view'[key(vals[k])]) == pick(view[key(vals[k])])
    ensures AppliedLast(view', pick, vals, k + 1, key, sel, want)
  {
    assert vals[..k + 1][..k] == vals[..k];
    forall j | 0 <= j < k + 1 && sel(vals[j]) && LastWhere(vals[..k + 1], key, sel, key(vals[j])) == Some(j)
      ensures key(vals[j]) in view' && pick(view'[key(vals[j])]) == want(vals[j])
    {
      if j < k {
        assert !(sel(vals[k]) && key(vals[k]) == key(vals[j]));
        assert LastWhere(vals[..k], key, sel, key(vals[j])) == Some(j);
      }
    }
  }

  /** A snapshot that is not selected and changes nothing keeps the
      applied snapshots applied. */
  lemma {:induction false} AppliedLastSkip<V, K, R, A>(view: map<K, R>, pick: R -> A, vals: seq<V>, k: nat,
                                                       key: V -> K, sel: V -> bool, want: V -> A)
    requires k < |vals| && !sel(vals[k]) && AppliedLast(view, pick, vals, k, key, sel, want)
    ensures AppliedLast(view, pick, vals, k + 1, key, sel, want)
  {
    assert vals[..k + 1][..k] == vals[..k];
    forall j | 0 <= j < k + 1 && sel(vals[j]) && LastWhere(vals[..k + 1], key, sel, key(vals[j])) == Some(j)
      ensures key(vals[j]) in view && pick(view[key(vals[j])]) == want(vals[j])
    {
      assert LastWhere(vals[..k], key, sel, key(vals[j])) == Some(j);
    }
  }

  /** The keys of a prefix one longer. */
  lemma {:induction false} KeysExtend<T, K>(xs: seq<T>, key: T -> K, k: nat)
    requires k < |xs|
    ensures Keys(xs[..k + 1], key) == Keys(xs[..k], key) + {key(xs[k])}
  {
    assert forall i :: 0 <= i < k ==> xs[..k + 1][i] == xs[..k][i];
    assert xs[..k + 1][k] == xs[k];
  }

  /** The snapshots that join a list already holding the keys `present`:
      in payload order, the first snapshot of each key the list lacks. */
  function Added<S, K(==)>(present: set<K>, snaps: seq<S>, key: S -> K): (r: seq<S>)
    ensures |r| <= |snaps|
  {
    if snaps == [] then []
    else
      var init, last := snaps[..|snaps| - 1], snaps[|snaps| - 1];
      Added(present, init, key) + (if key(last) in present || key(last) in Keys(init, key) then [] else [last])
  }

  /** One more snapshot joins exactly when neither the list nor an earlier
      snapshot has its key. */
  lemma {:induction false} AddedSnoc<S, K>(present: set<K>, snaps: seq<S>, key: S -> K, s: S)
    ensures Added(present, snaps + [s], key) ==
      Added(present, snaps, key) + if key(s) in present || key(s) in Keys(snaps, key) then [] else [s]
  {
    assert (snaps + [s])[..|snaps|] == snaps;
  }

  /** The joining snapshots bring exactly the keys the list lacked, each
      once. */
  lemma {:induction false} AddedKeys<S, K>(present: set<K>, snaps: seq<S>, key: S -> K)
    ensures Keys(Added(present, snaps, key), key) == Keys(snaps, key) - present
    ensures UniqueKeys(Added(present, snaps, key), key)
  {
    if snaps != [] {
      var init, last := snaps[..|snaps| - 1], snaps[|snaps| - 1];
      AddedKeys(present, init, key);
      KeysExtend(snaps, key, |snaps| - 1);
      assert snaps[..|snaps| - 1 + 1] == snaps;
      var p := Added(present, init, key);
      var r := Added(present, snaps, key);
      if !(key(last) in present || key(last) in Keys(init, key)) {
        assert r == p + [last];
        assert forall i :: 0 <= i < |p| ==> r[i] == p[i];
        assert Keys(r, key) == Keys(p, key) + {key(last)} by {
          assert r[|p|] == last;
        }
        forall i, j | 0 <= i < j < |r| ensures key(r[i]) != key(r[j]) {
          if j == |p| {
            assert key(p[i]) in Keys(p, key);
          }
        }
      } else {
        assert r == p;
      }
    }
  }

  /** The snapshots that join the list after `RemoveAll`: the first of each
      payload key the kept entities lack. */
  function Joining<T, S, K(==)>(xs: seq<T>, key: T -> K, snaps: seq<S>, skey: S -> K): seq<S> {
    Added(Keys(Kept(xs, key, Keys(snaps, skey)), key), snaps, skey)
  }

  /** The kept entities and the joining snapshots share no key, and between
      them hold exactly the payload's keys; the joining snapshots' keys are
      unique, and so are the kept entities' when the list's were. */
  lemma {:induction false} JoiningKeys<T, S, K>(xs: seq<T>, key: T -> K, snaps: seq<S>, skey: S -> K)
    ensures var kept, joining := Kept(xs, key, Keys(snaps, skey)), Joining(xs, key, snaps, skey);
      Keys(kept, key) + Keys(joining, skey) == Keys(snaps, skey) && Keys(kept, key) !! Keys(joining, skey) &&
      UniqueKeys(joining, skey)
    ensures UniqueKeys(xs, key) ==> UniqueKeys(Kept(xs, key, Keys(snaps, skey)), key)
  {
    var kept := Kept(xs, key, Keys(snaps, skey));
    KeptKeys(xs, key, Keys(snaps, skey));
    AddedKeys(Keys(kept, key), snaps, skey);
    if UniqueKeys(xs, key) {
      KeptUnique(xs, key, Keys(snaps, skey));
    }
  }

  /** The keys of a list one entity longer. */
  lemma {:induction false} KeysSnoc<T, K>(xs: seq<T>, key: T -> K, x: T)
    ensures Keys(xs + [x], key) == Keys(xs, key) + {key(x)}
  {
    assert forall i :: 0 <= i < |xs| ==> (xs + [x])[i] == xs[i];
    assert (xs + [x])[|xs|] == x;
  }

  /** A new key appended keeps the keys unique. */
  lemma {:induction false} SnocUnique<T, K>(xs: seq<T>, key: T -> K, x: T)
    requires key(x) !in Keys(xs, key)
    ensures UniqueKeys(xs, key) ==> UniqueKeys(xs + [x], key)
  {
    if UniqueKeys(xs, key) {
      forall i, j | 0 <= i < j < |xs + [x]| ensures key((xs + [x])[i]) != key((xs + [x])[j]) {
        assert (xs + [x])[i] == xs[i];
        if j == |xs| {
          assert key(xs[i]) in Keys(xs, key);
        } else {
          assert (xs + [x])[j] == xs[j];
        }
      }
    }
  }

  /** Concatenation is associative. */
  lemma ConcatAssoc<T>(a: seq<T>, b: seq<T>, c: seq<T>)
    ensures (a + b) + c == a + (b + c)
  {
  }
}
