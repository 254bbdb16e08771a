/** `UpdateBullets` of `GameStateApplier`: the grid's bullets are reconciled
    by id against the payload's bullet snapshots. */
module LogicApplyBullets {
  import opened Wrappers
  import opened LogicReconcile
  import opened LogicTanks
  import opened LogicBullets
  import opened LogicGrid
  import opened LogicApplyPlayers

  function BulletId(b: Bullet): int {
    b.id
  }

  function BulletSnapshotId(s: BulletSnapshot): int {
    s.id
  }

  /** A bullet as the applier sees it: its id and the shooter object. */
  datatype BulletRecord = BulletRecord(id: int, shooter: Player?)

  function BulletRecordId(r: BulletRecord): int {
    r.id
  }

  function BulletRecordShooter(r: BulletRecord): Player? {
    r.shooter
  }

  /** The snapshot names a shooter. */
  function NamesShooter(s: BulletSnapshot): bool {
    s.shooterId.Some?
  }

  /** The payload player a snapshot's shooter id names. */
  function NamedShooter(players: seq<Player>): BulletSnapshot -> Player? {
    (s: BulletSnapshot) => if s.shooterId.Some? then FindPlayer(players, s.shooterId.value) else null
  }

  /** The bullet was built from the snapshot: its id, direction, speed,
      damage and shooter id. */
  predicate BulletBuiltFrom(b: Bullet, s: BulletSnapshot) {
    b.id == s.id && b.direction == s.direction && b.speed == s.speed && b.damage == s.damage && b.shooterId == s.shooterId
  }

  ghost function BulletRecordOf(b: Bullet): BulletRecord
    reads b
  {
    BulletRecord(b.id, b.shooter)
  }

  ghost function BulletRecords(ls: seq<Bullet>): (r: seq<BulletRecord>)
    reads set b | b in ls
    ensures |r| == |ls| && forall i :: 0 <= i < |ls| ==> r[i] == BulletRecordOf(ls[i])
  {
    if ls == [] then [] else [BulletRecordOf(ls[0])] + BulletRecords(ls[1..])
  }

  /** For each id, the first bullet with it. */
  ghost function BulletView(ls: seq<Bullet>): map<int, BulletRecord>
    reads set b | b in ls
  {
    FirstOf(BulletRecords(ls), BulletRecordId)
  }

  /** The first `k` snapshots are applied: for each id the first bullet
      with it carries the player the last snapshot naming a shooter
      names. */
  ghost predicate BulletsApplied(view: map<int, BulletRecord>, snaps: seq<BulletSnapshot>, k: nat, players: seq<Player>)
    requires k <= |snaps|
  {
    AppliedLast(view, BulletRecordShooter, snaps, k, BulletSnapshotId, NamesShooter, NamedShooter(players))
  }

  /** The first bullet with the snapshot's id takes the shooter the
      snapshot names, when it names one. */
  method BulletUpdate(list: seq<Bullet>, p: nat, s: BulletSnapshot, players: seq<Player>)
    requires p < |list| && FirstWith(list, BulletId, s.id) == Some(p)
    modifies list[p]
    ensures BulletView(list) == old(BulletView(list))[s.id := BulletRecord(s.id,
      if s.shooterId.Some? then FindPlayer(players, s.shooterId.value) else old(list[p].shooter))]
  {
    ghost var rs := BulletRecords(list);
    var e := list[p];
    if s.shooterId.Some? {
      e.shooter := FindPlayer(players, s.shooterId.value);
    }
    ghost var r := BulletRecordOf(e);
    assert forall i :: 0 <= i < |list| ==> BulletRecords(list)[i] == rs[i] || (rs[i].id == s.id && BulletRecords(list)[i] == r);
    FirstWithSame(list, BulletId, rs, BulletRecordId, s.id);
    FirstOfReplace(rs, BulletRecords(list), BulletRecordId, r);
  }

  /** A bullet snapshot with a new id joins the list, with its shooter
      looked up when it names one. */
  method BulletAppend(list: seq<Bullet>, s: BulletSnapshot, players: seq<Player>) returns (list': seq<Bullet>)
    requires FirstWith(list, BulletId, s.id).None?
    ensures |list'| == |list| + 1 && list' == list + [list'[|list|]]
    ensures fresh(list'[|list|]) && BulletBuiltFrom(list'[|list|], s)
    ensures BulletView(list') == old(BulletView(list))[s.id := BulletRecord(s.id, NamedShooter(players)(s))]
  {
    ghost var rs := BulletRecords(list);
    var b := new Bullet.Snapshot(s);
    if s.shooterId.Some? {
      b.shooter := FindPlayer(players, s.shooterId.value);
    }
    list' := list + [b];
    assert BulletRecords(list) == rs;
    assert BulletRecords(list') == rs + [BulletRecordOf(b)];
    FirstWithSame(list, BulletId, rs, BulletRecordId, s.id);
    FirstOfAppend(rs, BulletRecordId, BulletRecordOf(b));
  }

  /** One bullet snapshot of `UpdateBullets`, keeping the first `k`
      snapshots applied and applying snapshot `k`; `recs` are the bullets'
      records before and `recs'` after. */
  method BulletStep(list: seq<Bullet>, s: BulletSnapshot, players: seq<Player>, ghost snaps: seq<BulletSnapshot>, ghost k: nat,
                   ghost recs: seq<BulletRecord>)
    returns (list': seq<Bullet>, ghost recs': seq<BulletRecord>, ghost added: seq<Bullet>)
    requires k < |snaps| && snaps[k] == s && recs == BulletRecords(list)
    requires BulletsApplied(FirstOf(recs, BulletRecordId), snaps, k, players)
    modifies set b | b in list
    ensures recs' == BulletRecords(list')
    ensures list' == list + added && forall b :: b in added ==> fresh(b)
    ensures FirstWith(list, BulletId, s.id).Some? ==> added == []
    ensures FirstWith(list, BulletId, s.id).None? ==> |added| == 1 && BulletBuiltFrom(added[0], s)
    ensures BulletsApplied(FirstOf(recs', BulletRecordId), snaps, k + 1, players)
  {
    ghost var view := BulletView(list);
    var found := FirstWith(list, BulletId, s.id);
    FirstWithSame(list, BulletId, BulletRecords(list), BulletRecordId, s.id);
    if found.None? {
      list' := BulletAppend(list, s, players);
      added := [list'[|list|]];
    } else {
      added := [];
      assert list[found.value].shooter == view[s.id].shooter;
      BulletUpdate(list, found.value, s, players);
      list' := list;
    }
    recs' := BulletRecords(list');
    BulletsAppliedStep(view, BulletView(list'), snaps, k, players);
  }

  /** Applying snapshot `k` to the view, as `UpdateBullets` does, extends
      the applied snapshots by one. */
  lemma {:induction false} BulletsAppliedStep(view: map<int, BulletRecord>, view': map<int, BulletRecord>,
                                             snaps: seq<BulletSnapshot>, k: nat, players: seq<Player>)
    requires k < |snaps| && BulletsApplied(view, snaps, k, players)
    requires var s := snaps[k];
      view' == view[s.id := BulletRecord(s.id,
        if s.shooterId.Some? then FindPlayer(players, s.shooterId.value)
        else if s.id in view then view[s.id].shooter else null)]
    ensures BulletsApplied(view', snaps, k + 1, players)
  {
    AppliedLastStep(view, view', BulletRecordShooter, snaps, k, BulletSnapshotId, NamesShooter, NamedShooter(players));
  }

  /** After the snapshots `prefix`, the list is the kept bullets followed
      by one bullet built from each joining snapshot, and holds the keys of
      both. */
  ghost predicate BulletsShaped(list: seq<Bullet>, kept: seq<Bullet>, present: set<int>, prefix: seq<BulletSnapshot>) {
    var added := Added(present, prefix, BulletSnapshotId);
    |list| == |kept| + |added| && list[..|kept|] == kept &&
    (forall i :: |kept| <= i < |list| ==> BulletBuiltFrom(list[i], added[i - |kept|])) &&
    Keys(list, BulletId) == present + Keys(prefix, BulletSnapshotId)
  }

  /** One snapshot keeps the shape: a known id leaves the list alone, a new
      one appends a bullet built from it. */
  lemma {:induction false} BulletsShapedStep(list: seq<Bullet>, added: seq<Bullet>, kept: seq<Bullet>, present: set<int>,
                                            snaps: seq<BulletSnapshot>, k: nat)
    requires k < |snaps| && BulletsShaped(list, kept, present, snaps[..k])
    requires FirstWith(list, BulletId, snaps[k].id).Some? ==> added == []
    requires FirstWith(list, BulletId, snaps[k].id).None? ==> |added| == 1 && BulletBuiltFrom(added[0], snaps[k])
    ensures BulletsShaped(list + added, kept, present, snaps[..k + 1])
  {
    var s := snaps[k];
    var joining := Added(present, snaps[..k], BulletSnapshotId);
    assert snaps[..k + 1][..k] == snaps[..k];
    assert Added(present, snaps[..k + 1], BulletSnapshotId) ==
      joining + (if s.id in present || s.id in Keys(snaps[..k], BulletSnapshotId) then [] else [s]);
    KeysExtend(snaps, BulletSnapshotId, k);
    if FirstWith(list, BulletId, s.id).None? {
      assert added == [added[0]];
      KeysSnoc(list, BulletId, added[0]);
    } else {
      assert list + added == list;
    }
  }

  /** The state of `UpdateBullets` after the first `k` snapshots: the kept
      bullets followed by the joined ones, shaped by those snapshots, with
      `recs` their records and every one of those snapshots applied. */
  ghost predicate BulletsLoop(list: seq<Bullet>, kept: seq<Bullet>, joined: seq<Bullet>, recs: seq<BulletRecord>,
                             snaps: seq<BulletSnapshot>, k: nat, players: seq<Player>)
    reads set b | b in list
  {
    k <= |snaps| && list == kept + joined && BulletsShaped(list, kept, Keys(kept, BulletId), snaps[..k]) &&
    recs == BulletRecords(list) && BulletsApplied(FirstOf(recs, BulletRecordId), snaps, k, players)
  }

  /** The body of the `foreach` of `UpdateBullets`: snapshot `k` is applied
      and the bullet it adds, if any, joins at the end. */
  method BulletIteration(list: seq<Bullet>, players: seq<Player>, ghost kept: seq<Bullet>, ghost joined: seq<Bullet>,
                        ghost recs: seq<BulletRecord>, snaps: seq<BulletSnapshot>, k: nat)
    returns (list': seq<Bullet>, ghost joined': seq<Bullet>, ghost recs': seq<BulletRecord>)
    requires k < |snaps| && BulletsLoop(list, kept, joined, recs, snaps, k, players)
    modifies set b | b in list
    ensures BulletsLoop(list', kept, joined', recs', snaps, k + 1, players)
    ensures forall b :: b in joined' ==> b in joined || fresh(b)
  {
    ghost var added;
    list', recs', added := BulletStep(list, snaps[k], players, snaps, k, recs);
    ConcatAssoc(kept, joined, added);
    joined' := joined + added;
    BulletsShapedStep(list, added, kept, Keys(kept, BulletId), snaps, k);
  }

  /** The `foreach` of `UpdateBullets` on the bullets the payload kept: the
      kept bullets stay first, a new bullet joins for each joining snapshot,
      and every snapshot is applied. */
  method ApplyBulletSnapshots(kept: seq<Bullet>, snaps: seq<BulletSnapshot>, players: seq<Player>)
    returns (list: seq<Bullet>)
    modifies set b | b in kept
    ensures BulletsShaped(list, kept, Keys(kept, BulletId), snaps)
    ensures forall b :: b in list[|kept|..] ==> fresh(b)
    ensures BulletsApplied(BulletView(list), snaps, |snaps|, players)
  {
    ghost var recs := BulletRecords(kept);
    ghost var joined: seq<Bullet> := [];
    list := kept;
    var k := 0;
    BulletsLoopStart(kept, snaps, players);
    while k < |snaps|
      invariant BulletsLoop(list, kept, joined, recs, snaps, k, players)
      invariant forall b :: b in joined ==> fresh(b)
    {
      list, joined, recs := BulletIteration(list, players, kept, joined, recs, snaps, k);
      k := k + 1;
    }
    BulletsLoopEnd(list, kept, joined, recs, snaps, players);
  }

  /** Before the first snapshot the list is the kept bullets. */
  lemma {:induction false} BulletsLoopStart(kept: seq<Bullet>, snaps: seq<BulletSnapshot>, players: seq<Player>)
    ensures BulletsLoop(kept, kept, [], BulletRecords(kept), snaps, 0, players)
  {
    assert kept[..|kept|] == kept && kept == kept + [];
  }

  /** After the last snapshot the list is shaped by the whole payload, and
      its view has every snapshot applied. */
  lemma {:induction false} BulletsLoopEnd(list: seq<Bullet>, kept: seq<Bullet>, joined: seq<Bullet>, recs: seq<BulletRecord>,
                                         snaps: seq<BulletSnapshot>, players: seq<Player>)
    requires BulletsLoop(list, kept, joined, recs, snaps, |snaps|, players)
    ensures BulletsShaped(list, kept, Keys(kept, BulletId), snaps) && list[|kept|..] == joined
    ensures BulletsApplied(BulletView(list), snaps, |snaps|, players)
  {
    assert snaps[..|snaps|] == snaps;
  }

  /** `UpdateBullets`: the bullets the payload lacks leave the grid, then each
      snapshot in payload order re-attaches the shooter of the first bullet
      with its id or joins the list as a new bullet. Afterwards the grid's
      bullet ids are the payload's, and for each id the first bullet with
      it carries the shooter the last snapshot naming one names. */
  method UpdateBullets(grid: Grid, snaps: seq<BulletSnapshot>, players: seq<Player>)
    modifies grid`bullets, set b | b in grid.bullets
    ensures var kept := Kept(old(grid.bullets), BulletId, Keys(snaps, BulletSnapshotId));
      BulletsShaped(grid.bullets, kept, Keys(kept, BulletId), snaps) && forall b :: b in grid.bullets[|kept|..] ==> fresh(b)
    ensures Keys(grid.bullets, BulletId) == Keys(snaps, BulletSnapshotId)
    ensures BulletsApplied(BulletView(grid.bullets), snaps, |snaps|, players)
  {
    var kept := Kept(grid.bullets, BulletId, Keys(snaps, BulletSnapshotId));
    KeptFrom(grid.bullets, BulletId, Keys(snaps, BulletSnapshotId));
    KeptKeys(grid.bullets, BulletId, Keys(snaps, BulletSnapshotId));
    var list := ApplyBulletSnapshots(kept, snaps, players);
    ghost var view := BulletView(list);
    grid.bullets := list;
    assert BulletView(grid.bullets) == view;
  }
}
