/** `UpdateMines` of `GameStateApplier`: the grid's mines are reconciled
    by id against the payload's mine snapshots. */
module LogicApplyMines {
  import opened Wrappers
  import opened LogicReconcile
    import opened LogicTanks
  import opened LogicMines
  import opened LogicGrid
  import opened LogicApplyPlayers

  function MineId(m: Mine): int {
    m.id
  }

  function MineSnapshotId(s: MineSnapshot): int {
    s.id
  }

  /** What `Mine.UpdateFrom` copies, with the id. */
  datatype MineFields = MineFields(id: int, x: int, y: int, damage: Option<int>, layerId: Option<string>,
                                   explosionRemainingTicks: Option<int>)

  function MineSnapshotFields(s: MineSnapshot): MineFields {
    MineFields(s.id, s.x, s.y, s.damage, s.layerId, s.explosionRemainingTicks)
  }

  /** A mine as the applier sees it: the copied fields and the layer
      object. */
  datatype MineRecord = MineRecord(fields: MineFields, layer: Player?)

  function MineRecordId(r: MineRecord): int {
    r.fields.id
  }

  function MineRecordFields(r: MineRecord): MineFields {
    r.fields
  }

  function MineRecordLayer(r: MineRecord): Player? {
    r.layer
  }

  /** The snapshot names a layer. */
  function NamesLayer(s: MineSnapshot): bool {
    s.layerId.Some?
  }

  /** The payload player a snapshot's layer id names. */
  function NamedLayer(players: seq<Player>): MineSnapshot -> Player? {
    (s: MineSnapshot) => if s.layerId.Some? then FindPlayer(players, s.layerId.value) else null
  }

  /** The mine was built from the snapshot: its id (the rest of what it
      holds is the snapshot's, as the applied view states). */
  predicate MineBuiltFrom(m: Mine, s: MineSnapshot) {
    m.id == s.id
  }

  ghost function MineRecordOf(m: Mine): MineRecord
    reads m
  {
    MineRecord(MineFields(m.id, m.x, m.y, m.damage, m.layerId, m.explosionRemainingTicks), m.layer)
  }

  ghost function MineRecords(ls: seq<Mine>): (r: seq<MineRecord>)
    reads set m | m in ls
    ensures |r| == |ls| && forall i :: 0 <= i < |ls| ==> r[i] == MineRecordOf(ls[i])
  {
    if ls == [] then [] else [MineRecordOf(ls[0])] + MineRecords(ls[1..])
  }

  /** For each id, the first mine with it. */
  ghost function MineView(ls: seq<Mine>): map<int, MineRecord>
    reads set m | m in ls
  {
    FirstOf(MineRecords(ls), MineRecordId)
  }

  /** The first `k` snapshots are applied: for each id the first mine with
      it carries the last snapshot's fields, and the player the last
      snapshot naming a layer names. */
  ghost predicate MinesApplied(view: map<int, MineRecord>, snaps: seq<MineSnapshot>, k: nat, players: seq<Player>)
    requires k <= |snaps|
  {
    AppliedLast(view, MineRecordFields, snaps, k, MineSnapshotId, Every, MineSnapshotFields) &&
    AppliedLast(view, MineRecordLayer, snaps, k, MineSnapshotId, NamesLayer, NamedLayer(players))
  }

  /** `existing.UpdateFrom(mineSnapshot)` on the first mine with the
      snapshot's id, then the layer is looked up when the snapshot names
      one. */
  method MineUpdate(list: seq<Mine>, p: nat, s: MineSnapshot, players: seq<Player>)
    requires p < |list| && FirstWith(list, MineId, s.id) == Some(p)
    modifies list[p]
    ensures MineView(list) == old(MineView(list))[s.id := MineRecord(MineSnapshotFields(s),
      if s.layerId.Some? then FindPlayer(players, s.layerId.value) else old(list[p].layer))]
  {
    ghost var rs := MineRecords(list);
    var e := list[p];
    e.UpdateFrom(s);
    if s.layerId.Some? {
      e.layer := FindPlayer(players, s.layerId.value);
    }
    ghost var r := MineRecordOf(e);
    assert forall i :: 0 <= i < |list| ==> MineRecords(list)[i] == rs[i] || (rs[i].fields.id == s.id && MineRecords(list)[i] == r);
    FirstWithSame(list, MineId, rs, MineRecordId, s.id);
    FirstOfReplace(rs, MineRecords(list), MineRecordId, r);
  }

  /** A mine snapshot with a new id joins the list, with its layer
      looked up when it names one. */
  method MineAppend(list: seq<Mine>, s: MineSnapshot, players: seq<Player>) returns (list': seq<Mine>)
    requires FirstWith(list, MineId, s.id).None?
    ensures |list'| == |list| + 1 && list' == list + [list'[|list|]]
    ensures fresh(list'[|list|]) && MineBuiltFrom(list'[|list|], s)
    ensures MineView(list') == old(MineView(list))[s.id := MineRecord(MineSnapshotFields(s), NamedLayer(players)(s))]
  {
    ghost var rs := MineRecords(list);
    var m := new Mine.Snapshot(s);
    if s.layerId.Some? {
      m.layer := FindPlayer(players, s.layerId.value);
    }
    list' := list + [m];
    assert MineRecords(list) == rs;
    assert MineRecords(list') == rs + [MineRecordOf(m)];
    FirstWithSame(list, MineId, rs, MineRecordId, s.id);
    FirstOfAppend(rs, MineRecordId, MineRecordOf(m));
  }

  /** One mine snapshot of `UpdateMines`, keeping the first `k`
      snapshots applied and applying snapshot `k`; `recs` are the mines'
      records before and `recs'` after. */
  method MineStep(list: seq<Mine>, s: MineSnapshot, players: seq<Player>, ghost snaps: seq<MineSnapshot>, ghost k: nat,
                   ghost recs: seq<MineRecord>)
    returns (list': seq<Mine>, ghost recs': seq<MineRecord>, ghost added: seq<Mine>)
    requires k < |snaps| && snaps[k] == s && recs == MineRecords(list)
    requires MinesApplied(FirstOf(recs, MineRecordId), snaps, k, players)
    modifies set m | m in list
    ensures recs' == MineRecords(list')
    ensures list' == list + added && forall m :: m in added ==> fresh(m)
    ensures FirstWith(list, MineId, s.id).Some? ==> added == []
    ensures FirstWith(list, MineId, s.id).None? ==> |added| == 1 && MineBuiltFrom(added[0], s)
    ensures MinesApplied(FirstOf(recs', MineRecordId), snaps, k + 1, players)
  {
    ghost var view := MineView(list);
    var found := FirstWith(list, MineId, s.id);
    FirstWithSame(list, MineId, MineRecords(list), MineRecordId, s.id);
    if found.None? {
      list' := MineAppend(list, s, players);
      added := [list'[|list|]];
    } else {
      added := [];
      assert list[found.value].layer == view[s.id].layer;
      MineUpdate(list, found.value, s, players);
      list' := list;
    }
    recs' := MineRecords(list');
    MinesAppliedStep(view, MineView(list'), snaps, k, players);
  }

  /** Applying snapshot `k` to the view, as `UpdateMines` does, extends
      the applied snapshots by one. */
  lemma {:induction false} MinesAppliedStep(view: map<int, MineRecord>, view': map<int, MineRecord>,
                                             snaps: seq<MineSnapshot>, k: nat, players: seq<Player>)
    requires k < |snaps| && MinesApplied(view, snaps, k, players)
    requires var s := snaps[k];
      view' == view[s.id := MineRecord(MineSnapshotFields(s),
        if s.layerId.Some? then FindPlayer(players, s.layerId.value)
        else if s.id in view then view[s.id].layer else null)]
    ensures MinesApplied(view', snaps, k + 1, players)
  {
    AppliedLastStep(view, view', MineRecordFields, snaps, k, MineSnapshotId, Every, MineSnapshotFields);
    AppliedLastStep(view, view', MineRecordLayer, snaps, k, MineSnapshotId, NamesLayer, NamedLayer(players));
  }

  /** After the snapshots `prefix`, the list is the kept mines followed
      by one mine built from each joining snapshot, and holds the keys of
      both. */
  ghost predicate MinesShaped(list: seq<Mine>, kept: seq<Mine>, present: set<int>, prefix: seq<MineSnapshot>) {
    var added := Added(present, prefix, MineSnapshotId);
    |list| == |kept| + |added| && list[..|kept|] == kept &&
    (forall i :: |kept| <= i < |list| ==> MineBuiltFrom(list[i], added[i - |kept|])) &&
    Keys(list, MineId) == present + Keys(prefix, MineSnapshotId)
  }

  /** One snapshot keeps the shape: a known id leaves the list alone, a new
      one appends a mine built from it. */
  lemma {:induction false} MinesShapedStep(list: seq<Mine>, added: seq<Mine>, kept: seq<Mine>, present: set<int>,
                                            snaps: seq<MineSnapshot>, k: nat)
    requires k < |snaps| && MinesShaped(list, kept, present, snaps[..k])
    requires FirstWith(list, MineId, snaps[k].id).Some? ==> added == []
    requires FirstWith(list, MineId, snaps[k].id).None? ==> |added| == 1 && MineBuiltFrom(added[0], snaps[k])
    ensures MinesShaped(list + added, kept, present, snaps[..k + 1])
  {
    var s := snaps[k];
    var joining := Added(present, snaps[..k], MineSnapshotId);
    assert snaps[..k + 1][..k] == snaps[..k];
    assert Added(present, snaps[..k + 1], MineSnapshotId) ==
      joining + (if s.id in present || s.id in Keys(snaps[..k], MineSnapshotId) then [] else [s]);
    KeysExtend(snaps, MineSnapshotId, k);
    if FirstWith(list, MineId, s.id).None? {
      assert added == [added[0]];
      KeysSnoc(list, MineId, added[0]);
    } else {
      assert list + added == list;
    }
  }

  /** The state of `UpdateMines` after the first `k` snapshots: the kept
      mines followed by the joined ones, shaped by those snapshots, with
      `recs` their records and every one of those snapshots applied. */
  ghost predicate MinesLoop(list: seq<Mine>, kept: seq<Mine>, joined: seq<Mine>, recs: seq<MineRecord>,
                             snaps: seq<MineSnapshot>, k: nat, players: seq<Player>)
    reads set m | m in list
  {
    k <= |snaps| && list == kept + joined && MinesShaped(list, kept, Keys(kept, MineId), snaps[..k]) &&
    recs == MineRecords(list) && MinesApplied(FirstOf(recs, MineRecordId), snaps, k, players)
  }

  /** The body of the `foreach` of `UpdateMines`: snapshot `k` is applied
      and the mine it adds, if any, joins at the end. */
  method MineIteration(list: seq<Mine>, players: seq<Player>, ghost kept: seq<Mine>, ghost joined: seq<Mine>,
                        ghost recs: seq<MineRecord>, snaps: seq<MineSnapshot>, k: nat)
    returns (list': seq<Mine>, ghost joined': seq<Mine>, ghost recs': seq<MineRecord>)
    requires k < |snaps| && MinesLoop(list, kept, joined, recs, snaps, k, players)
    modifies set m | m in list
    ensures MinesLoop(list', kept, joined', recs', snaps, k + 1, players)
    ensures forall m :: m in joined' ==> m in joined || fresh(m)
  {
    ghost var added;
    list', recs', added := MineStep(list, snaps[k], players, snaps, k, recs);
    ConcatAssoc(kept, joined, added);
    joined' := joined + added;
    MinesShapedStep(list, added, kept, Keys(kept, MineId), snaps, k);
  }

  /** The `foreach` of `UpdateMines` on the mines the payload kept: the
      kept mines stay first, a new mine joins for each joining snapshot,
      and every snapshot is applied. */
  method ApplyMineSnapshots(kept: seq<Mine>, snaps: seq<MineSnapshot>, players: seq<Player>)
    returns (list: seq<Mine>)
    modifies set m | m in kept
    ensures MinesShaped(list, kept, Keys(kept, MineId), snaps)
    ensures forall m :: m in list[|kept|..] ==> fresh(m)
    ensures MinesApplied(MineView(list), snaps, |snaps|, players)
  {
    ghost var recs := MineRecords(kept);
    ghost var joined: seq<Mine> := [];
    list := kept;
    var k := 0;
    MinesLoopStart(kept, snaps, players);
    while k < |snaps|
      invariant MinesLoop(list, kept, joined, recs, snaps, k, players)
      invariant forall m :: m in joined ==> fresh(m)
    {
      list, joined, recs := MineIteration(list, players, kept, joined, recs, snaps, k);
      k := k + 1;
    }
    MinesLoopEnd(list, kept, joined, recs, snaps, players);
  }

  /** Before the first snapshot the list is the kept mines. */
  lemma {:induction false} MinesLoopStart(kept: seq<Mine>, snaps: seq<MineSnapshot>, players: seq<Player>)
    ensures MinesLoop(kept, kept, [], MineRecords(kept), snaps, 0, players)
  {
    assert kept[..|kept|] == kept && kept == kept + [];
  }

  /** After the last snapshot the list is shaped by the whole payload, and
      its view has every snapshot applied. */
  lemma {:induction false} MinesLoopEnd(list: seq<Mine>, kept: seq<Mine>, joined: seq<Mine>, recs: seq<MineRecord>,
                                         snaps: seq<MineSnapshot>, players: seq<Player>)
    requires MinesLoop(list, kept, joined, recs, snaps, |snaps|, players)
    ensures MinesShaped(list, kept, Keys(kept, MineId), snaps) && list[|kept|..] == joined
    ensures MinesApplied(MineView(list), snaps, |snaps|, players)
  {
    assert snaps[..|snaps|] == snaps;
  }

  /** `UpdateMines`: the mines the payload lacks leave the grid, then each
      snapshot in payload order updates the first mine with its id or joins
      the list as a new mine. Afterwards the grid's mine ids are the
      payload's, and for each id the first mine with it carries the last
      snapshot's fields and the layer the last snapshot naming one
      names. */
  method UpdateMines(grid: Grid, snaps: seq<MineSnapshot>, players: seq<Player>)
    modifies grid`mines, set m | m in grid.mines
    ensures var kept := Kept(old(grid.mines), MineId, Keys(snaps, MineSnapshotId));
      MinesShaped(grid.mines, kept, Keys(kept, MineId), snaps) && forall m :: m in grid.mines[|kept|..] ==> fresh(m)
    ensures Keys(grid.mines, MineId) == Keys(snaps, MineSnapshotId)
    ensures MinesApplied(MineView(grid.mines), snaps, |snaps|, players)
  {
    var kept := Kept(grid.mines, MineId, Keys(snaps, MineSnapshotId));
    KeptFrom(grid.mines, MineId, Keys(snaps, MineSnapshotId));
    KeptKeys(grid.mines, MineId, Keys(snaps, MineSnapshotId));
    var list := ApplyMineSnapshots(kept, snaps, players);
    ghost var view := MineView(list);
    grid.mines := list;
    assert MineView(grid.mines) == view;
  }
}
