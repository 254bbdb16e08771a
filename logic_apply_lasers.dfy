/** `UpdateLasers` of `GameStateApplier`: the grid's lasers are reconciled
    by id against the payload's laser snapshots. */
module LogicApplyLasers {
  import opened Wrappers
  import opened LogicReconcile
  import opened LogicDirections
  import opened LogicTanks
  import opened LogicLasers
  import opened LogicGrid
  import opened LogicApplyPlayers

  function LaserId(l: Laser): int {
    l.id
  }

  function LaserSnapshotId(s: LaserSnapshot): int {
    s.id
  }

  /** What `Laser.UpdateFrom` copies, with the id. */
  datatype LaserFields = LaserFields(id: int, orientation: Orientation, damage: Option<int>, shooterId: Option<string>)

  function LaserSnapshotFields(s: LaserSnapshot): LaserFields {
    LaserFields(s.id, s.orientation, s.damage, s.shooterId)
  }

  /** A laser as the applier sees it: the copied fields and the shooter
      object. */
  datatype LaserRecord = LaserRecord(fields: LaserFields, shooter: Player?)

  function LaserRecordId(r: LaserRecord): int {
    r.fields.id
  }

  function LaserRecordFields(r: LaserRecord): LaserFields {
    r.fields
  }

  function LaserRecordShooter(r: LaserRecord): Player? {
    r.shooter
  }

  /** The snapshot names a shooter. */
  function NamesShooter(s: LaserSnapshot): bool {
    s.shooterId.Some?
  }

  /** The payload player a snapshot's shooter id names. */
  function NamedShooter(players: seq<Player>): LaserSnapshot -> Player? {
    (s: LaserSnapshot) => if s.shooterId.Some? then FindPlayer(players, s.shooterId.value) else null
  }

  /** The laser was built from the snapshot: its id and cell. */
  predicate LaserBuiltFrom(l: Laser, s: LaserSnapshot) {
    l.id == s.id && l.x == s.x && l.y == s.y
  }

  ghost function LaserRecordOf(l: Laser): LaserRecord
    reads l
  {
    LaserRecord(LaserFields(l.id, l.orientation, l.damage, l.shooterId), l.shooter)
  }

  ghost function LaserRecords(ls: seq<Laser>): (r: seq<LaserRecord>)
    reads set l | l in ls
    ensures |r| == |ls| && forall i :: 0 <= i < |ls| ==> r[i] == LaserRecordOf(ls[i])
  {
    if ls == [] then [] else [LaserRecordOf(ls[0])] + LaserRecords(ls[1..])
  }

  /** For each id, the first laser with it. */
  ghost function LaserView(ls: seq<Laser>): map<int, LaserRecord>
    reads set l | l in ls
  {
    FirstOf(LaserRecords(ls), LaserRecordId)
  }

  /** The first `k` snapshots are applied: for each id the first laser with
      it carries the last snapshot's fields, and the player the last
      snapshot naming a shooter names. */
  ghost predicate LasersApplied(view: map<int, LaserRecord>, snaps: seq<LaserSnapshot>, k: nat, players: seq<Player>)
    requires k <= |snaps|
  {
    AppliedLast(view, LaserRecordFields, snaps, k, LaserSnapshotId, Every, LaserSnapshotFields) &&
    AppliedLast(view, LaserRecordShooter, snaps, k, LaserSnapshotId, NamesShooter, NamedShooter(players))
  }

  /** `existing.UpdateFrom(laserSnapshot)` on the first laser with the
      snapshot's id, then the shooter is looked up when the snapshot names
      one. */
  method LaserUpdate(list: seq<Laser>, p: nat, s: LaserSnapshot, players: seq<Player>)
    requires p < |list| && FirstWith(list, LaserId, s.id) == Some(p)
    modifies list[p]
    ensures LaserView(list) == old(LaserView(list))[s.id := LaserRecord(LaserSnapshotFields(s),
      if s.shooterId.Some? then FindPlayer(players, s.shooterId.value) else old(list[p].shooter))]
  {
    ghost var rs := LaserRecords(list);
    var e := list[p];
    e.UpdateFrom(s);
    if s.shooterId.Some? {
      e.shooter := FindPlayer(players, s.shooterId.value);
    }
    ghost var r := LaserRecordOf(e);
    assert forall i :: 0 <= i < |list| ==> LaserRecords(list)[i] == rs[i] || (rs[i].fields.id == s.id && LaserRecords(list)[i] == r);
    FirstWithSame(list, LaserId, rs, LaserRecordId, s.id);
    FirstOfReplace(rs, LaserRecords(list), LaserRecordId, r);
  }

  /** A laser snapshot with a new id joins the list, with its shooter
      looked up when it names one. */
  method LaserAppend(list: seq<Laser>, s: LaserSnapshot, players: seq<Player>) returns (list': seq<Laser>)
    requires FirstWith(list, LaserId, s.id).None?
    ensures |list'| == |list| + 1 && list' == list + [list'[|list|]]
    ensures fresh(list'[|list|]) && LaserBuiltFrom(list'[|list|], s)
    ensures LaserView(list') == old(LaserView(list))[s.id := LaserRecord(LaserSnapshotFields(s), NamedShooter(players)(s))]
  {
    ghost var rs := LaserRecords(list);
    var l := new Laser.Snapshot(s);
    if s.shooterId.Some? {
      l.shooter := FindPlayer(players, s.shooterId.value);
    }
    list' := list + [l];
    assert LaserRecords(list) == rs;
    assert LaserRecords(list') == rs + [LaserRecordOf(l)];
    FirstWithSame(list, LaserId, rs, LaserRecordId, s.id);
    FirstOfAppend(rs, LaserRecordId, LaserRecordOf(l));
  }

  /** One laser snapshot of `UpdateLasers`, keeping the first `k`
      snapshots applied and applying snapshot `k`; `recs` are the lasers'
      records before and `recs'` after. */
  method LaserStep(list: seq<Laser>, s: LaserSnapshot, players: seq<Player>, ghost snaps: seq<LaserSnapshot>, ghost k: nat,
                   ghost recs: seq<LaserRecord>)
    returns (list': seq<Laser>, ghost recs': seq<LaserRecord>, ghost added: seq<Laser>)
    requires k < |snaps| && snaps[k] == s && recs == LaserRecords(list)
    requires LasersApplied(FirstOf(recs, LaserRecordId), snaps, k, players)
    modifies set l | l in list
    ensures recs' == LaserRecords(list')
    ensures list' == list + added && forall l :: l in added ==> fresh(l)
    ensures FirstWith(list, LaserId, s.id).Some? ==> added == []
    ensures FirstWith(list, LaserId, s.id).None? ==> |added| == 1 && LaserBuiltFrom(added[0], s)
    ensures LasersApplied(FirstOf(recs', LaserRecordId), snaps, k + 1, players)
  {
    ghost var view := LaserView(list);
    var found := FirstWith(list, LaserId, s.id);
    FirstWithSame(list, LaserId, LaserRecords(list), LaserRecordId, s.id);
    if found.None? {
      list' := LaserAppend(list, s, players);
      added := [list'[|list|]];
    } else {
      added := [];
      assert list[found.value].shooter == view[s.id].shooter;
      LaserUpdate(list, found.value, s, players);
      list' := list;
    }
    recs' := LaserRecords(list');
    LasersAppliedStep(view, LaserView(list'), snaps, k, players);
  }

  /** Applying snapshot `k` to the view, as `UpdateLasers` does, extends
      the applied snapshots by one. */
  lemma {:induction false} LasersAppliedStep(view: map<int, LaserRecord>, view': map<int, LaserRecord>,
                                             snaps: seq<LaserSnapshot>, k: nat, players: seq<Player>)
    requires k < |snaps| && LasersApplied(view, snaps, k, players)
    requires var s := snaps[k];
      view' == view[s.id := LaserRecord(LaserSnapshotFields(s),
        if s.shooterId.Some? then FindPlayer(players, s.shooterId.value)
        else if s.id in view then view[s.id].shooter else null)]
    ensures LasersApplied(view', snaps, k + 1, players)
  {
    AppliedLastStep(view, view', LaserRecordFields, snaps, k, LaserSnapshotId, Every, LaserSnapshotFields);
    AppliedLastStep(view, view', LaserRecordShooter, snaps, k, LaserSnapshotId, NamesShooter, NamedShooter(players));
  }

  /** After the snapshots `prefix`, the list is the kept lasers followed
      by one laser built from each joining snapshot, and holds the keys of
      both. */
  ghost predicate LasersShaped(list: seq<Laser>, kept: seq<Laser>, present: set<int>, prefix: seq<LaserSnapshot>) {
    var added := Added(present, prefix, LaserSnapshotId);
    |list| == |kept| + |added| && list[..|kept|] == kept &&
    (forall i :: |kept| <= i < |list| ==> LaserBuiltFrom(list[i], added[i - |kept|])) &&
    Keys(list, LaserId) == present + Keys(prefix, LaserSnapshotId)
  }

  /** One snapshot keeps the shape: a known id leaves the list alone, a new
      one appends a laser built from it. */
  lemma {:induction false} LasersShapedStep(list: seq<Laser>, added: seq<Laser>, kept: seq<Laser>, present: set<int>,
                                            snaps: seq<LaserSnapshot>, k: nat)
    requires k < |snaps| && LasersShaped(list, kept, present, snaps[..k])
    requires FirstWith(list, LaserId, snaps[k].id).Some? ==> added == []
    requires FirstWith(list, LaserId, snaps[k].id).None? ==> |added| == 1 && LaserBuiltFrom(added[0], snaps[k])
    ensures LasersShaped(list + added, kept, present, snaps[..k + 1])
  {
    var s := snaps[k];
    var joining := Added(present, snaps[..k], LaserSnapshotId);
    assert snaps[..k + 1][..k] == snaps[..k];
    assert Added(present, snaps[..k + 1], LaserSnapshotId) ==
      joining + (if s.id in present || s.id in Keys(snaps[..k], LaserSnapshotId) then [] else [s]);
    KeysExtend(snaps, LaserSnapshotId, k);
    if FirstWith(list, LaserId, s.id).None? {
      assert added == [added[0]];
      KeysSnoc(list, LaserId, added[0]);
    } else {
      assert list + added == list;
    }
  }

  /** The state of `UpdateLasers` after the first `k` snapshots: the kept
      lasers followed by the joined ones, shaped by those snapshots, with
      `recs` their records and every one of those snapshots applied. */
  ghost predicate LasersLoop(list: seq<Laser>, kept: seq<Laser>, joined: seq<Laser>, recs: seq<LaserRecord>,
                             snaps: seq<LaserSnapshot>, k: nat, players: seq<Player>)
    reads set l | l in list
  {
    k <= |snaps| && list == kept + joined && LasersShaped(list, kept, Keys(kept, LaserId), snaps[..k]) &&
    recs == LaserRecords(list) && LasersApplied(FirstOf(recs, LaserRecordId), snaps, k, players)
  }

  /** The body of the `foreach` of `UpdateLasers`: snapshot `k` is applied
      and the laser it adds, if any, joins at the end. */
  method LaserIteration(list: seq<Laser>, players: seq<Player>, ghost kept: seq<Laser>, ghost joined: seq<Laser>,
                        ghost recs: seq<LaserRecord>, snaps: seq<LaserSnapshot>, k: nat)
    returns (list': seq<Laser>, ghost joined': seq<Laser>, ghost recs': seq<LaserRecord>)
    requires k < |snaps| && LasersLoop(list, kept, joined, recs, snaps, k, players)
    modifies set l | l in list
    ensures LasersLoop(list', kept, joined', recs', snaps, k + 1, players)
    ensures forall l :: l in joined' ==> l in joined || fresh(l)
  {
    ghost var added;
    list', recs', added := LaserStep(list, snaps[k], players, snaps, k, recs);
    ConcatAssoc(kept, joined, added);
    joined' := joined + added;
    LasersShapedStep(list, added, kept, Keys(kept, LaserId), snaps, k);
  }

  /** The `foreach` of `UpdateLasers` on the lasers the payload kept: the
      kept lasers stay first, a new laser joins for each joining snapshot,
      and every snapshot is applied. */
  method ApplyLaserSnapshots(kept: seq<Laser>, snaps: seq<LaserSnapshot>, players: seq<Player>)
    returns (list: seq<Laser>)
    modifies set l | l in kept
    ensures LasersShaped(list, kept, Keys(kept, LaserId), snaps)
    ensures forall l :: l in list[|kept|..] ==> fresh(l)
    ensures LasersApplied(LaserView(list), snaps, |snaps|, players)
  {
    ghost var recs := LaserRecords(kept);
    ghost var joined: seq<Laser> := [];
    list := kept;
    var k := 0;
    LasersLoopStart(kept, snaps, players);
    while k < |snaps|
      invariant LasersLoop(list, kept, joined, recs, snaps, k, players)
      invariant forall l :: l in joined ==> fresh(l)
    {
      list, joined, recs := LaserIteration(list, players, kept, joined, recs, snaps, k);
      k := k + 1;
    }
    LasersLoopEnd(list, kept, joined, recs, snaps, players);
  }

  /** Before the first snapshot the list is the kept lasers. */
  lemma {:induction false} LasersLoopStart(kept: seq<Laser>, snaps: seq<LaserSnapshot>, players: seq<Player>)
    ensures LasersLoop(kept, kept, [], LaserRecords(kept), snaps, 0, players)
  {
    assert kept[..|kept|] == kept && kept == kept + [];
  }

  /** After the last snapshot the list is shaped by the whole payload, and
      its view has every snapshot applied. */
  lemma {:induction false} LasersLoopEnd(list: seq<Laser>, kept: seq<Laser>, joined: seq<Laser>, recs: seq<LaserRecord>,
                                         snaps: seq<LaserSnapshot>, players: seq<Player>)
    requires LasersLoop(list, kept, joined, recs, snaps, |snaps|, players)
    ensures LasersShaped(list, kept, Keys(kept, LaserId), snaps) && list[|kept|..] == joined
    ensures LasersApplied(LaserView(list), snaps, |snaps|, players)
  {
    assert snaps[..|snaps|] == snaps;
  }

  /** `UpdateLasers`: the lasers the payload lacks leave the grid, then each
      snapshot in payload order updates the first laser with its id or joins
      the list as a new laser. Afterwards the grid's laser ids are the
      payload's, and for each id the first laser with it carries the last
      snapshot's fields and the shooter the last snapshot naming one
      names. */
  method UpdateLasers(grid: Grid, snaps: seq<LaserSnapshot>, players: seq<Player>)
    modifies grid`lasers, set l | l in grid.lasers
    ensures var kept := Kept(old(grid.lasers), LaserId, Keys(snaps, LaserSnapshotId));
      LasersShaped(grid.lasers, kept, Keys(kept, LaserId), snaps) && forall l :: l in grid.lasers[|kept|..] ==> fresh(l)
    ensures Keys(grid.lasers, LaserId) == Keys(snaps, LaserSnapshotId)
    ensures LasersApplied(LaserView(grid.lasers), snaps, |snaps|, players)
  {
    var kept := Kept(grid.lasers, LaserId, Keys(snaps, LaserSnapshotId));
    KeptFrom(grid.lasers, LaserId, Keys(snaps, LaserSnapshotId));
    KeptKeys(grid.lasers, LaserId, Keys(snaps, LaserSnapshotId));
    var list := ApplyLaserSnapshots(kept, snaps, players);
    ghost var view := LaserView(list);
    grid.lasers := list;
    assert LaserView(grid.lasers) == view;
  }
}
