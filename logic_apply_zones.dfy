/** `UpdateZones` and `AttachZonePlayers` of `GameStateApplier` (non-STEREO
    builds): the grid's zones are reconciled by index against the payload's
    zone snapshots, and the players a zone's state names are looked up
    among the payload's players. A zone state here holds the players' ids,
    so attaching them is the lookup, which throws when a player is
    missing. */
module LogicApplyZones {
  import opened Wrappers
  import opened LogicReconcile
  import opened LogicTanks
  import opened LogicZones
  import opened LogicGrid
  import opened LogicApplyPlayers

  function ZoneIndex(z: Zone): char {
    z.index
  }

  function ZoneSnapshotIndex(s: ZoneSnapshot): char {
    s.index
  }

  /** The player ids `AttachZonePlayers` looks up for a state, in the order
      it looks them up: a contested zone names its capturer only when it
      has one, a neutral zone names nobody. */
  function NamedPlayers(st: ZoneState): seq<PlayerId> {
    match st
    case Neutral => []
    case BeingCaptured(p, _) => [p]
    case Captured(p) => [p]
    case BeingContested(c) => if c.Some? then [c.value] else []
    case BeingRetaken(capturer, retaker, _) => [capturer, retaker]
  }

  /** `AttachZonePlayers`: each player the state names is found with
      `players.First`, which throws `InvalidOperationException` when none
      has the id. */
  function AttachZonePlayers(st: ZoneState, players: seq<Player>): (o: Outcome)
    ensures o.Throw? ==> o.error == InvalidOperation
  {
    match st
    case BeingCaptured(p, _) => if FindPlayer(players, p) == null then Throw(InvalidOperation) else Pass
    case Captured(p) => if FindPlayer(players, p) == null then Throw(InvalidOperation) else Pass
    case BeingContested(c) =>
      if c.Some? && FindPlayer(players, c.value) == null then Throw(InvalidOperation) else Pass
    case BeingRetaken(capturer, retaker, _) =>
      if FindPlayer(players, capturer) == null || FindPlayer(players, retaker) == null then Throw(InvalidOperation) else Pass
    case Neutral => Pass
  }

  /** `AttachZonePlayers` passes exactly when every player the state names
      is among the payload's players. */
  lemma {:induction false} AttachZonePlayersPasses(st: ZoneState, players: seq<Player>)
    ensures AttachZonePlayers(st, players).Pass? <==> forall id :: id in NamedPlayers(st) ==> id in Keys(players, PlayerKey)
  {
  }

  /** The first snapshot whose players cannot be attached, if any. */
  function FirstUnattached(snaps: seq<ZoneSnapshot>, players: seq<Player>): (r: Option<nat>)
    ensures r.Some? ==> r.value < |snaps|
  {
    if snaps == [] then None
    else if AttachZonePlayers(snaps[0].state, players).Throw? then Some(0)
    else
      match FirstUnattached(snaps[1..], players)
      case None => None
      case Some(j) => Some(j + 1)
  }

  /** `FirstUnattached` finds the first snapshot whose lookup throws, and
      finds none exactly when every lookup passes. */
  lemma {:induction false} FirstUnattachedIsFirst(snaps: seq<ZoneSnapshot>, players: seq<Player>)
    ensures var r := FirstUnattached(snaps, players);
      (r.Some? ==> AttachZonePlayers(snaps[r.value].state, players).Throw?) &&
      (r.Some? ==> forall i :: 0 <= i < r.value ==> AttachZonePlayers(snaps[i].state, players).Pass?) &&
      (r.None? <==> forall i :: 0 <= i < |snaps| ==> AttachZonePlayers(snaps[i].state, players).Pass?)
  {
    if snaps != [] && AttachZonePlayers(snaps[0].state, players).Pass? {
      FirstUnattachedIsFirst(snaps[1..], players);
      assert forall i :: 1 <= i < |snaps| ==> snaps[i] == snaps[1..][i - 1];
    }
  }

  /** A snapshot that passes moves the first unattachable one past it. */
  lemma {:induction false} FirstUnattachedPast(snaps: seq<ZoneSnapshot>, players: seq<Player>, k: nat)
    requires k < |snaps| && AttachZonePlayers(snaps[k].state, players).Pass?
    requires FirstUnattached(snaps, players).None? || k <= FirstUnattached(snaps, players).value
    ensures FirstUnattached(snaps, players).None? || k + 1 <= FirstUnattached(snaps, players).value
  {
    FirstUnattachedIsFirst(snaps, players);
  }

  /** A zone as the applier sees it: its index and state. */
  datatype ZoneRecord = ZoneRecord(index: char, state: ZoneState)

  function ZoneRecordIndex(r: ZoneRecord): char {
    r.index
  }

  function ZoneRecordState(r: ZoneRecord): ZoneState {
    r.state
  }

  function ZoneSnapshotState(s: ZoneSnapshot): ZoneState {
    s.state
  }

  /** The zone was built from the snapshot: its index and rectangle. */
  predicate ZoneBuiltFrom(z: Zone, s: ZoneSnapshot) {
    z.index == s.index && z.x == s.x && z.y == s.y && z.width == s.width && z.height == s.height
  }

  ghost function ZoneRecordOf(z: Zone): ZoneRecord
    reads z
  {
    ZoneRecord(z.index, z.state)
  }

  ghost function ZoneRecords(zs: seq<Zone>): (r: seq<ZoneRecord>)
    reads set z | z in zs
    ensures |r| == |zs| && forall i :: 0 <= i < |zs| ==> r[i] == ZoneRecordOf(zs[i])
  {
    if zs == [] then [] else [ZoneRecordOf(zs[0])] + ZoneRecords(zs[1..])
  }

  /** For each index, the first zone with it. */
  ghost function ZoneView(zs: seq<Zone>): map<char, ZoneRecord>
    reads set z | z in zs
  {
    FirstOf(ZoneRecords(zs), ZoneRecordIndex)
  }

  /** The first `k` snapshots are applied: for each index the first zone
      with it holds the last snapshot's state. */
  ghost predicate ZonesApplied(view: map<char, ZoneRecord>, snaps: seq<ZoneSnapshot>, k: nat)
    requires k <= |snaps|
  {
    AppliedLast(view, ZoneRecordState, snaps, k, ZoneSnapshotIndex, Every, ZoneSnapshotState)
  }

  /** `existing.UpdateFrom(zoneSnapshot)` on the first zone with the
      snapshot's index, then `AttachZonePlayers(existing, ...)`: the state
      is taken before the lookup can throw. */
  method ZoneUpdate(list: seq<Zone>, p: nat, s: ZoneSnapshot, players: seq<Player>) returns (o: Outcome)
    requires p < |list| && FirstWith(list, ZoneIndex, s.index) == Some(p)
    modifies list[p]
    ensures o == AttachZonePlayers(s.state, players)
    ensures ZoneView(list) == old(ZoneView(list))[s.index := ZoneRecord(s.index, s.state)]
  {
    ghost var rs := ZoneRecords(list);
    var e := list[p];
    e.UpdateFrom(s);
    o := AttachZonePlayers(e.state, players);
    ghost var r := ZoneRecordOf(e);
    assert forall i :: 0 <= i < |list| ==> ZoneRecords(list)[i] == rs[i] || (rs[i].index == s.index && ZoneRecords(list)[i] == r);
    FirstWithSame(list, ZoneIndex, rs, ZoneRecordIndex, s.index);
    FirstOfReplace(rs, ZoneRecords(list), ZoneRecordIndex, r);
  }

  /** A zone snapshot with a new index has its players attached, then joins
      the list; when the lookup throws it does not join. */
  method ZoneAppend(list: seq<Zone>, s: ZoneSnapshot, players: seq<Player>) returns (list': seq<Zone>, o: Outcome)
    requires FirstWith(list, ZoneIndex, s.index).None?
    ensures o == AttachZonePlayers(s.state, players)
    ensures o.Throw? ==> list' == list
    ensures o.Pass? ==> |list'| == |list| + 1 && list' == list + [list'[|list|]]
    ensures o.Pass? ==> fresh(list'[|list|]) && ZoneBuiltFrom(list'[|list|], s)
    ensures o.Pass? ==> ZoneView(list') == old(ZoneView(list))[s.index := ZoneRecord(s.index, s.state)]
  {
    o := AttachZonePlayers(s.state, players);
    if o.Throw? {
      list' := list;
      return;
    }
    ghost var rs := ZoneRecords(list);
    var z := new Zone.Snapshot(s);
    list' := list + [z];
    assert ZoneRecords(list) == rs;
    assert ZoneRecords(list') == rs + [ZoneRecordOf(z)];
    FirstWithSame(list, ZoneIndex, rs, ZoneRecordIndex, s.index);
    FirstOfAppend(rs, ZoneRecordIndex, ZoneRecordOf(z));
  }

  /** Applying snapshot `k` to the view, as `UpdateZones` does, extends the
      applied snapshots by one. */
  lemma {:induction false} ZonesAppliedStep(view: map<char, ZoneRecord>, view': map<char, ZoneRecord>,
                                            snaps: seq<ZoneSnapshot>, k: nat)
    requires k < |snaps| && ZonesApplied(view, snaps, k)
    requires view' == view[snaps[k].index := ZoneRecord(snaps[k].index, snaps[k].state)]
    ensures ZonesApplied(view', snaps, k + 1)
  {
    AppliedLastStep(view, view', ZoneRecordState, snaps, k, ZoneSnapshotIndex, Every, ZoneSnapshotState);
  }

  /** One zone snapshot of `UpdateZones`. The state of a known index is
      taken even when the lookup then throws; a new index joins only when
      the lookup passes. */
  method ZoneStep(list: seq<Zone>, s: ZoneSnapshot, players: seq<Player>, ghost snaps: seq<ZoneSnapshot>, ghost k: nat,
                  ghost recs: seq<ZoneRecord>)
    returns (list': seq<Zone>, ghost recs': seq<ZoneRecord>, ghost added: seq<Zone>, o: Outcome)
    requires k < |snaps| && snaps[k] == s && recs == ZoneRecords(list)
    requires ZonesApplied(FirstOf(recs, ZoneRecordIndex), snaps, k)
    modifies set z | z in list
    ensures o == AttachZonePlayers(s.state, players)
    ensures recs' == ZoneRecords(list')
    ensures list' == list + added && forall z :: z in added ==> fresh(z)
    ensures FirstWith(list, ZoneIndex, s.index).Some? || o.Throw? ==> added == []
    ensures FirstWith(list, ZoneIndex, s.index).None? && o.Pass? ==> |added| == 1 && ZoneBuiltFrom(added[0], s)
    ensures FirstWith(list, ZoneIndex, s.index).Some? || o.Pass? ==>
      ZonesApplied(FirstOf(recs', ZoneRecordIndex), snaps, k + 1)
    ensures FirstWith(list, ZoneIndex, s.index).None? && o.Throw? ==> recs' == recs
  {
    ghost var view := ZoneView(list);
    var found := FirstWith(list, ZoneIndex, s.index);
    FirstWithSame(list, ZoneIndex, ZoneRecords(list), ZoneRecordIndex, s.index);
    if found.None? {
      list', o := ZoneAppend(list, s, players);
      added := if o.Pass? then [list'[|list|]] else [];
    } else {
      added := [];
      o := ZoneUpdate(list, found.value, s, players);
      list' := list;
    }
    recs' := ZoneRecords(list');
    if found.Some? || o.Pass? {
      ZonesAppliedStep(view, ZoneView(list'), snaps, k);
    }
  }

  /** After the snapshots `prefix`, the list is the kept zones followed by
      one zone built from each joining snapshot, and holds the indexes of
      both. */
  ghost predicate ZonesShaped(list: seq<Zone>, kept: seq<Zone>, present: set<char>, prefix: seq<ZoneSnapshot>) {
    var added := Added(present, prefix, ZoneSnapshotIndex);
    |list| == |kept| + |added| && list[..|kept|] == kept &&
    (forall i :: |kept| <= i < |list| ==> ZoneBuiltFrom(list[i], added[i - |kept|])) &&
    Keys(list, ZoneIndex) == present + Keys(prefix, ZoneSnapshotIndex)
  }

  /** One snapshot that does not throw keeps the shape: a known index
      leaves the list alone, a new one appends a zone built from it. */
  lemma {:induction false} ZonesShapedStep(list: seq<Zone>, added: seq<Zone>, kept: seq<Zone>, present: set<char>,
                                           snaps: seq<ZoneSnapshot>, k: nat)
    requires k < |snaps| && ZonesShaped(list, kept, present, snaps[..k])
    requires FirstWith(list, ZoneIndex, snaps[k].index).Some? ==> added == []
    requires FirstWith(list, ZoneIndex, snaps[k].index).None? ==> |added| == 1 && ZoneBuiltFrom(added[0], snaps[k])
    ensures ZonesShaped(list + added, kept, present, snaps[..k + 1])
  {
    var s := snaps[k];
    var joining := Added(present, snaps[..k], ZoneSnapshotIndex);
    assert snaps[..k + 1][..k] == snaps[..k];
    assert Added(present, snaps[..k + 1], ZoneSnapshotIndex) ==
      joining + (if s.index in present || s.index in Keys(snaps[..k], ZoneSnapshotIndex) then [] else [s]);
    KeysExtend(snaps, ZoneSnapshotIndex, k);
    if FirstWith(list, ZoneIndex, s.index).None? {
      assert added == [added[0]];
      KeysSnoc(list, ZoneIndex, added[0]);
    } else {
      assert list + added == list;
    }
  }

  /** The state of `UpdateZones` after the first `k` snapshots passed: the
      kept zones followed by the joined ones, shaped by those snapshots,
      with `recs` their records and every one of those snapshots
      applied. */
  ghost predicate ZonesLoop(list: seq<Zone>, kept: seq<Zone>, joined: seq<Zone>, recs: seq<ZoneRecord>,
                            snaps: seq<ZoneSnapshot>, k: nat)
    reads set z | z in list
  {
    k <= |snaps| && list == kept + joined && ZonesShaped(list, kept, Keys(kept, ZoneIndex), snaps[..k]) &&
    recs == ZoneRecords(list) && ZonesApplied(FirstOf(recs, ZoneRecordIndex), snaps, k)
  }

  /** Where `UpdateZones` stops when snapshot `k` throws: the list is shaped
      by the snapshots before it, and those are applied; when a zone
      already has the throwing snapshot's index, snapshot `k` is applied
      too, as its state is taken before the lookup. */
  ghost predicate ZonesStopped(list: seq<Zone>, kept: seq<Zone>, snaps: seq<ZoneSnapshot>, k: nat)
    reads set z | z in list
  {
    k < |snaps| && ZonesShaped(list, kept, Keys(kept, ZoneIndex), snaps[..k]) &&
    ZonesApplied(ZoneView(list), snaps, if snaps[k].index in Keys(list, ZoneIndex) then k + 1 else k)
  }

  /** The body of the `foreach` of `UpdateZones`: snapshot `k` is applied,
      or the lookup throws and the update stops. */
  method ZoneIteration(list: seq<Zone>, players: seq<Player>, ghost kept: seq<Zone>, ghost joined: seq<Zone>,
                       ghost recs: seq<ZoneRecord>, snaps: seq<ZoneSnapshot>, k: nat, ghost bound: Option<nat>)
    returns (list': seq<Zone>, ghost joined': seq<Zone>, ghost recs': seq<ZoneRecord>, o: Outcome)
    requires k < |snaps| && ZonesLoop(list, kept, joined, recs, snaps, k)
    requires bound == FirstUnattached(snaps, players) && (bound.None? || k <= bound.value)
    modifies set z | z in list
    ensures o.Pass? ==> ZonesLoop(list', kept, joined', recs', snaps, k + 1)
    ensures o.Pass? ==> bound.None? || k + 1 <= bound.value
    ensures o.Throw? ==> ZonesResult(list', kept, snaps, players, o) && list'[|kept|..] == joined'
    ensures forall z :: z in joined' ==> z in joined || fresh(z)
  {
    ghost var added;
    list', recs', added, o := ZoneStep(list, snaps[k], players, snaps, k, recs);
    ConcatAssoc(kept, joined, added);
    joined' := joined + added;
    if o.Pass? {
      ZonesShapedStep(list, added, kept, Keys(kept, ZoneIndex), snaps, k);
      FirstUnattachedPast(snaps, players, k);
    } else {
      ZonesStoppedAt(list, list', recs, recs', kept, snaps, k);
      ZonesStoppedEnd(list', kept, joined', snaps, players, k, o);
    }
  }

  /** A throwing snapshot leaves the shape of the snapshots before it. */
  lemma {:induction false} ZonesStoppedAt(list: seq<Zone>, list': seq<Zone>, recs: seq<ZoneRecord>, recs': seq<ZoneRecord>,
                                          kept: seq<Zone>, snaps: seq<ZoneSnapshot>, k: nat)
    requires k < |snaps| && ZonesShaped(list, kept, Keys(kept, ZoneIndex), snaps[..k])
    requires ZonesApplied(FirstOf(recs, ZoneRecordIndex), snaps, k) && recs' == ZoneRecords(list')
    requires list' == list
    requires FirstWith(list, ZoneIndex, snaps[k].index).Some? ==> ZonesApplied(FirstOf(recs', ZoneRecordIndex), snaps, k + 1)
    requires FirstWith(list, ZoneIndex, snaps[k].index).None? ==> recs' == recs
    ensures ZonesStopped(list', kept, snaps, k)
  {
  }

  /** What `UpdateZones` leaves after the kept zones `kept`: when every
      lookup passes, the list is shaped by the whole payload and every
      snapshot is applied; otherwise it throws `InvalidOperationException`
      and stops at the first snapshot naming a missing player. */
  ghost predicate ZonesResult(list: seq<Zone>, kept: seq<Zone>, snaps: seq<ZoneSnapshot>, players: seq<Player>, o: Outcome)
    reads set z | z in list
  {
    (o.Pass? <==> FirstUnattached(snaps, players).None?) &&
    (o.Pass? ==> ZonesShaped(list, kept, Keys(kept, ZoneIndex), snaps) && ZonesApplied(ZoneView(list), snaps, |snaps|)) &&
    (o.Throw? ==> o.error == InvalidOperation && ZonesStopped(list, kept, snaps, FirstUnattached(snaps, players).value))
  }

  /** The `foreach` of `UpdateZones` on the zones the payload kept: the
      kept zones stay first and every snapshot is applied, until the first
      snapshot whose players cannot be attached, where it throws. */
  method ApplyZoneSnapshots(kept: seq<Zone>, snaps: seq<ZoneSnapshot>, players: seq<Player>)
    returns (list: seq<Zone>, o: Outcome)
    modifies set z | z in kept
    ensures ZonesResult(list, kept, snaps, players, o)
    ensures |kept| <= |list| && forall z :: z in list[|kept|..] ==> fresh(z)
  {
    ghost var recs := ZoneRecords(kept);
    ghost var joined: seq<Zone> := [];
    ghost var bound := FirstUnattached(snaps, players);
    list := kept;
    var k := 0;
    ZonesLoopStart(kept, snaps);
    while k < |snaps|
      invariant ZonesLoop(list, kept, joined, recs, snaps, k)
      invariant forall z :: z in joined ==> fresh(z)
      invariant bound.None? || k <= bound.value
    {
      list, joined, recs, o := ZoneIteration(list, players, kept, joined, recs, snaps, k, bound);
      if o.Throw? {
        return;
      }
      k := k + 1;
    }
    o := Pass;
    ZonesLoopEnd(list, kept, joined, recs, snaps, players);
  }

  /** Before the first snapshot the list is the kept zones. */
  lemma {:induction false} ZonesLoopStart(kept: seq<Zone>, snaps: seq<ZoneSnapshot>)
    ensures ZonesLoop(kept, kept, [], ZoneRecords(kept), snaps, 0)
  {
    assert kept[..|kept|] == kept && kept == kept + [];
  }

  /** After the last snapshot the list is shaped by the whole payload, and
      its view has every snapshot applied. */
  lemma {:induction false} ZonesLoopEnd(list: seq<Zone>, kept: seq<Zone>, joined: seq<Zone>, recs: seq<ZoneRecord>,
                                        snaps: seq<ZoneSnapshot>, players: seq<Player>)
    requires ZonesLoop(list, kept, joined, recs, snaps, |snaps|)
    requires FirstUnattached(snaps, players).None? || |snaps| <= FirstUnattached(snaps, players).value
    ensures ZonesResult(list, kept, snaps, players, Pass) && list[|kept|..] == joined
  {
    assert snaps[..|snaps|] == snaps;
  }

  /** The throwing snapshot is the first unattachable one. */
  lemma {:induction false} ZonesStoppedEnd(list: seq<Zone>, kept: seq<Zone>, joined: seq<Zone>, snaps: seq<ZoneSnapshot>,
                                           players: seq<Player>, k: nat, o: Outcome)
    requires k < |snaps| && o == AttachZonePlayers(snaps[k].state, players) && o.Throw?
    requires FirstUnattached(snaps, players).None? || k <= FirstUnattached(snaps, players).value
    requires ZonesStopped(list, kept, snaps, k) && list == kept + joined
    ensures ZonesResult(list, kept, snaps, players, o) && list[|kept|..] == joined
  {
    FirstUnattachedIsFirst(snaps, players);
  }

  /** `UpdateZones` (non-STEREO): the zones the payload lacks leave the
      grid, then each snapshot in payload order updates the first zone with
      its index or joins the list as a new zone, and the players its state
      names are looked up. When every lookup passes the grid's zone indexes
      are the payload's and for each index the first zone with it holds the
      last snapshot's state; otherwise the update throws at the first
      snapshot naming a missing player, with the snapshots before it
      applied. */
  method UpdateZones(grid: Grid, snaps: seq<ZoneSnapshot>, players: seq<Player>) returns (o: Outcome)
    modifies grid`zones, set z | z in grid.zones
    ensures var kept := Kept(old(grid.zones), ZoneIndex, Keys(snaps, ZoneSnapshotIndex));
      ZonesResult(grid.zones, kept, snaps, players, o) &&
      |kept| <= |grid.zones| && forall z :: z in grid.zones[|kept|..] ==> fresh(z)
    ensures o.Pass? ==> Keys(grid.zones, ZoneIndex) == Keys(snaps, ZoneSnapshotIndex)
  {
    var kept := Kept(grid.zones, ZoneIndex, Keys(snaps, ZoneSnapshotIndex));
    KeptFrom(grid.zones, ZoneIndex, Keys(snaps, ZoneSnapshotIndex));
    KeptKeys(grid.zones, ZoneIndex, Keys(snaps, ZoneSnapshotIndex));
    var list;
    list, o := ApplyZoneSnapshots(kept, snaps, players);
    ghost var view := ZoneView(list);
    grid.zones := list;
    assert ZoneView(grid.zones) == view;
  }
}
