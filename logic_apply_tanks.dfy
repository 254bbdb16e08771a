/** `UpdateTanks` of `GameStateApplier`: the grid's tanks are reconciled by
    owner id against the payload's tank snapshots, each tank is linked to
    its owner and the owner to the tank. A snapshot whose owner is not
    among the payload's players is skipped. */
module LogicApplyTanks {
  import opened Wrappers
  import opened LogicReconcile
  import opened LogicDirections
  import opened LogicTanks
  import opened LogicGrid
  import opened LogicApplyPlayers

  function TankOwnerId(t: Tank): string {
    t.ownerId
  }

  function TankSnapshotOwnerId(s: TankSnapshot): string {
    s.ownerId
  }

  /** The tank's own fields `Tank.UpdateFrom` copies before anything it
      can throw on, with the owner id. */
  datatype TankFields = TankFields(ownerId: string, x: int, y: int, direction: Direction, health: Option<int>,
                                   previousX: Option<int>, previousY: Option<int>,
                                   visibilityGrid: Option<seq<seq<bool>>>)

  function TankSnapshotFields(s: TankSnapshot): TankFields {
    TankFields(s.ownerId, s.x, s.y, s.direction, s.health, s.previousX, s.previousY, s.visibilityGrid)
  }

  function TankSnapshotItem(s: TankSnapshot): Option<SecondaryItemType> {
    s.item
  }

  /** A tank as the applier sees it: the copied fields, the item, the
      owner object and the tank object itself. */
  datatype TankRecord = TankRecord(fields: TankFields, item: Option<SecondaryItemType>, owner: Player, tank: Tank)

  function TankRecordOwnerId(r: TankRecord): string {
    r.fields.ownerId
  }

  function TankRecordFields(r: TankRecord): TankFields {
    r.fields
  }

  function TankRecordItem(r: TankRecord): Option<SecondaryItemType> {
    r.item
  }

  /** The snapshot's owner is among the payload's players. */
  function HasOwner(players: seq<Player>): TankSnapshot -> bool {
    (s: TankSnapshot) => s.ownerId in Keys(players, PlayerKey)
  }

  /** The snapshot is applied and, outside STEREO builds, its item is
      copied. */
  function CopiesItem(players: seq<Player>, stereo: bool): TankSnapshot -> bool {
    (s: TankSnapshot) => !stereo && s.ownerId in Keys(players, PlayerKey)
  }

  /** The snapshots whose owner is among the payload's players, in payload
      order: the ones the `foreach` does not skip. */
  function WithOwner(snaps: seq<TankSnapshot>, players: seq<Player>): (r: seq<TankSnapshot>)
    ensures |r| <= |snaps|
  {
    if snaps == [] then []
    else
      var init, last := snaps[..|snaps| - 1], snaps[|snaps| - 1];
      WithOwner(init, players) + (if last.ownerId in Keys(players, PlayerKey) then [last] else [])
  }

  /** The snapshots kept are exactly those of the payload's owner ids that
      a payload player has. */
  lemma {:induction false} WithOwnerKeys(snaps: seq<TankSnapshot>, players: seq<Player>)
    ensures Keys(WithOwner(snaps, players), TankSnapshotOwnerId) ==
      Keys(snaps, TankSnapshotOwnerId) * Keys(players, PlayerKey)
  {
    if snaps != [] {
      var init, last := snaps[..|snaps| - 1], snaps[|snaps| - 1];
      WithOwnerKeys(init, players);
      KeysExtend(snaps, TankSnapshotOwnerId, |snaps| - 1);
      assert snaps[..|snaps| - 1 + 1] == snaps;
      if last.ownerId in Keys(players, PlayerKey) {
        KeysSnoc(WithOwner(init, players), TankSnapshotOwnerId, last);
      } else {
        assert WithOwner(snaps, players) == WithOwner(init, players);
      }
    }
  }

  /** A prefix one longer keeps one more snapshot exactly when that
      snapshot's owner is a payload player. */
  lemma {:induction false} WithOwnerExtend(snaps: seq<TankSnapshot>, players: seq<Player>, k: nat)
    requires k < |snaps|
    ensures WithOwner(snaps[..k + 1], players) ==
      WithOwner(snaps[..k], players) + (if snaps[k].ownerId in Keys(players, PlayerKey) then [snaps[k]] else [])
  {
    assert snaps[..k + 1][..k] == snaps[..k];
  }

  /** The tank was built from the snapshot: its owner id and type. */
  predicate TankBuiltFrom(t: Tank, s: TankSnapshot) {
    t.ownerId == s.ownerId && t.tankType == s.tankType
  }

  ghost function TankRecordOf(t: Tank): TankRecord
    reads t
  {
    TankRecord(TankFields(t.ownerId, t.x, t.y, t.direction, t.health, t.previousX, t.previousY, t.visibilityGrid),
               t.item, t.owner, t)
  }

  ghost function TankRecords(ts: seq<Tank>): (r: seq<TankRecord>)
    reads set t | t in ts
    ensures |r| == |ts| && forall i :: 0 <= i < |ts| ==> r[i] == TankRecordOf(ts[i])
  {
    if ts == [] then [] else [TankRecordOf(ts[0])] + TankRecords(ts[1..])
  }

  /** For each owner id, the first tank with it. */
  ghost function TankView(ts: seq<Tank>): map<string, TankRecord>
    reads set t | t in ts
  {
    FirstOf(TankRecords(ts), TankRecordOwnerId)
  }

  /** The first `k` snapshots are applied: for each owner id the first tank
      with it carries the fields of the last of them whose owner is a
      payload player, and outside STEREO builds that snapshot's item. */
  ghost predicate TanksApplied(view: map<string, TankRecord>, snaps: seq<TankSnapshot>, k: nat, players: seq<Player>,
                               stereo: bool)
    requires k <= |snaps|
  {
    AppliedLast(view, TankRecordFields, snaps, k, TankSnapshotOwnerId, HasOwner(players), TankSnapshotFields) &&
    AppliedLast(view, TankRecordItem, snaps, k, TankSnapshotOwnerId, CopiesItem(players, stereo), TankSnapshotItem)
  }

  /** The tank each payload player points at, by id. */
  ghost function PlayerTanks(players: seq<Player>): (m: map<string, Tank?>)
    reads (set p | p in players)`tank
    ensures m.Keys == Keys(players, PlayerKey)
  {
    map id | id in Keys(players, PlayerKey) :: FindPlayer(players, id).tank
  }

  /** For each of the owner ids, the first tank with it is owned by the
      payload player with it, which (by `links`) points back at the tank. */
  ghost predicate Linked(view: map<string, TankRecord>, players: seq<Player>, links: map<string, Tank?>,
                         ids: set<string>)
  {
    forall id :: id in ids ==>
      id in view && id in links && FindPlayer(players, id) != null &&
      view[id].owner == FindPlayer(players, id) && links[id] == view[id].tank
  }

  /** The players' links are a function of their `tank` fields alone. */
  twostate lemma {:induction false} PlayerTanksFrame(players: seq<Player>)
    requires forall p :: p in players ==> old(p.tank) == p.tank
    ensures PlayerTanks(players) == old(PlayerTanks(players))
  {
  }

  /** The first tank of each owner id is a function of the tanks' fields. */
  twostate lemma {:induction false} TankViewFrame(ts: seq<Tank>)
    requires forall t :: t in ts ==> unchanged(t)
    ensures TankView(ts) == old(TankView(ts))
  {
    assert TankRecords(ts) == old(TankRecords(ts));
  }

  /** For each of the owner ids, the first tank with it and the payload
      player with it point at each other. */
  ghost predicate OwnersLinked(view: map<string, TankRecord>, players: seq<Player>, ids: set<string>)
    reads (set p | p in players)`tank
  {
    Linked(view, players, PlayerTanks(players), ids)
  }

  /** Linking the snapshot's owner to the first tank with its id, as
      recorded in the new view, keeps the other links and adds that one. */
  lemma {:induction false} LinkedStep(view: map<string, TankRecord>, view': map<string, TankRecord>,
                                      players: seq<Player>, links: map<string, Tank?>, ids: set<string>, id: string)
    requires Linked(view, players, links, ids) && id in Keys(players, PlayerKey)
    requires id in view' && view' == view[id := view'[id]] && view'[id].owner == FindPlayer(players, id)
    ensures Linked(view', players, links[id := view'[id].tank], ids + {id})
  {
  }

  /** The objects hanging off the tanks that applying a snapshot writes:
      each tank's turret and its abilities, radar and mine. */
  ghost function TankParts(ts: seq<Tank>): set<object?> {
    set t, x | t in ts && x in t.Parts() :: x
  }

  lemma {:induction false} TankPartsAppend(a: seq<Tank>, b: seq<Tank>)
    ensures TankParts(a + b) == TankParts(a) + TankParts(b)
  {
    forall x | x in TankParts(a + b)
      ensures x in TankParts(a) + TankParts(b)
    {
      var t :| t in a + b && x in t.Parts();
      assert t in a || t in b;
    }
  }

  /** Neither a player nor a grid is among the objects hanging off the
      tanks. */
  lemma {:induction false} TankPartsHoldNoPlayer(ts: seq<Tank>)
    ensures forall u: Player :: u !in TankParts(ts)
    ensures forall g: Grid :: g !in TankParts(ts)
  {
    forall x | x in TankParts(ts)
      ensures !(x is Player) && !(x is Grid)
    {
      var t :| t in ts && x in t.Parts();
      t.PartsHoldNoOwner();
    }
  }

  /** The tank a snapshot landed on holds the snapshot's turret state and
      its turret points back at it; outside STEREO builds its radar and
      mine took the snapshot's state too. */
  predicate Holds(t: Tank, s: TankSnapshot, stereo: bool)
    reads t.Parts()
  {
    t.turret != null && t.turret.Took(s.turret) && t.turret.tank == t && (!stereo ==> t.TookAbilities(s))
  }

  /** The view after snapshot `s` is applied to tank `t` owned by `owner`:
      the snapshot's fields, its item unless a STEREO build keeps the
      tank's, the owner and the tank. */
  function Placed(view: map<string, TankRecord>, s: TankSnapshot, stereo: bool, owner: Player, t: Tank)
    : (r: map<string, TankRecord>)
    ensures s.ownerId in r && r[s.ownerId].fields == TankSnapshotFields(s) && r[s.ownerId].tank == t
    ensures forall id :: id in view && id != s.ownerId ==> id in r && r[id] == view[id]
  {
    view[s.ownerId := TankRecord(TankSnapshotFields(s),
      if stereo && s.ownerId in view then view[s.ownerId].item else s.item, owner, t)]
  }

  /** `existing.UpdateFrom(snapshot)`, `existing.Owner = owner` and
      `existing.Turret.Tank = existing` on the first tank with the
      snapshot's owner id. `UpdateFrom` throws when the snapshot lacks what
      the tank dereferences (`Tank.Fits`). */
  method TankUpdate(list: seq<Tank>, p: nat, s: TankSnapshot, owner: Player, stereo: bool) returns (o: Outcome)
    requires p < |list| && FirstWith(list, TankOwnerId, s.ownerId) == Some(p)
    modifies list[p], list[p].Parts()
    ensures o.Pass? <==> list[p].Fits(s, stereo)
    ensures o.Throw? ==> o.error == NullReference
    ensures o.Pass? ==> TankView(list) == Placed(old(TankView(list)), s, stereo, owner, list[p])
    ensures o.Pass? ==> Holds(list[p], s, stereo)
  {
    ghost var rs := TankRecords(list);
    assert rs[p] == TankRecordOf(list[p]);
    var e := list[p];
    e.PartsHoldNoOwner();
    assert TankOwnerId(e) == s.ownerId;
    o := Retarget(e, s, owner, stereo);
    if o.Throw? {
      return;
    }
    ghost var r := TankRecordOf(e);
    forall i | 0 <= i < |list|
      ensures TankRecords(list)[i] == rs[i] || (rs[i].fields.ownerId == s.ownerId && TankRecords(list)[i] == r)
    {
      if list[i] != e {
        assert list[i] !in e.Parts();
      }
    }
    FirstWithSame(list, TankOwnerId, rs, TankRecordOwnerId, s.ownerId);
    FirstOfReplace(rs, TankRecords(list), TankRecordOwnerId, r);
  }

  /** The three statements on the tank found: `UpdateFrom`, the owner, and
      the turret pointing back at the tank. */
  method Retarget(e: Tank, s: TankSnapshot, owner: Player, stereo: bool) returns (o: Outcome)
    requires e.ownerId == s.ownerId
    modifies e, e.Parts()
    ensures o.Pass? <==> e.Fits(s, stereo)
    ensures o.Throw? ==> o.error == NullReference
    ensures o.Pass? ==> TankRecordOf(e) == TankRecord(TankSnapshotFields(s), if stereo then old(e.item) else s.item, owner, e)
    ensures o.Pass? ==> Holds(e, s, stereo)
  {
    o := e.UpdateFrom(s, stereo);
    if o.Throw? {
      return;
    }
    e.owner := owner;
    e.turret.tank := e;
  }

  /** A snapshot with a new owner id joins the list as the tank read from
      it, owned by `owner`, its turret pointing back at it
      (`existing = snapshot` makes the following `UpdateFrom` a copy of the
      tank onto itself). */
  method TankAppend(list: seq<Tank>, s: TankSnapshot, owner: Player, stereo: bool) returns (list': seq<Tank>)
    requires FirstWith(list, TankOwnerId, s.ownerId).None?
    ensures |list'| == |list| + 1 && list' == list + [list'[|list|]]
    ensures fresh(list'[|list|]) && TankBuiltFrom(list'[|list|], s)
    ensures forall x :: x in list'[|list|].Parts() ==> x == null || fresh(x)
    ensures TankView(list') == Placed(old(TankView(list)), s, stereo, owner, list'[|list|])
    ensures Holds(list'[|list|], s, stereo)
  {
    ghost var rs := TankRecords(list);
    var t := JoinTank(s, owner, stereo);
    list' := list + [t];
    assert TankRecords(list) == rs;
    TankRecordsSnoc(list, t);
    FirstWithSame(list, TankOwnerId, rs, TankRecordOwnerId, s.ownerId);
    FirstOfAppend(rs, TankRecordOwnerId, TankRecordOf(t));
  }

  /** `existing = snapshot` and `existing.Turret.Tank = existing` for a
      snapshot with a new owner id: the tank read from it, owned by
      `owner`. */
  method JoinTank(s: TankSnapshot, owner: Player, stereo: bool) returns (t: Tank)
    ensures fresh(t) && TankBuiltFrom(t, s)
    ensures forall x :: x in t.Parts() ==> x == null || fresh(x)
    ensures TankRecordOf(t) == TankRecord(TankSnapshotFields(s), s.item, owner, t)
    ensures Holds(t, s, stereo)
  {
    t := new Tank.Snapshot(s, owner, stereo);
    assert t.turret.Took(s.turret) && t.TookAbilities(s);
    t.turret.tank := t;
  }

  lemma {:induction false} TankRecordsSnoc(list: seq<Tank>, t: Tank)
    ensures TankRecords(list + [t]) == TankRecords(list) + [TankRecordOf(t)]
  {
    assert forall i :: 0 <= i < |list| ==> (list + [t])[i] == list[i];
  }

  /** Applying snapshot `k`, whose owner is a payload player, to its
      owner id's record extends the applied snapshots by one. */
  lemma {:induction false} TanksAppliedStep(view: map<string, TankRecord>, view': map<string, TankRecord>,
                                            snaps: seq<TankSnapshot>, k: nat, players: seq<Player>, stereo: bool,
                                            owner: Player, t: Tank)
    requires k < |snaps| && TanksApplied(view, snaps, k, players, stereo)
    requires snaps[k].ownerId in Keys(players, PlayerKey)
    requires view' == Placed(view, snaps[k], stereo, owner, t)
    ensures TanksApplied(view', snaps, k + 1, players, stereo)
  {
    AppliedLastStep(view, view', TankRecordFields, snaps, k, TankSnapshotOwnerId, HasOwner(players), TankSnapshotFields);
    AppliedLastStep(view, view', TankRecordItem, snaps, k, TankSnapshotOwnerId, CopiesItem(players, stereo),
                    TankSnapshotItem);
  }

  /** Skipping snapshot `k`, whose owner is not a payload player, keeps the
      applied snapshots applied. */
  lemma {:induction false} TanksAppliedSkip(view: map<string, TankRecord>, snaps: seq<TankSnapshot>, k: nat,
                                            players: seq<Player>, stereo: bool)
    requires k < |snaps| && TanksApplied(view, snaps, k, players, stereo)
    requires snaps[k].ownerId !in Keys(players, PlayerKey)
    ensures TanksApplied(view, snaps, k + 1, players, stereo)
  {
    AppliedLastSkip(view, TankRecordFields, snaps, k, TankSnapshotOwnerId, HasOwner(players), TankSnapshotFields);
    AppliedLastSkip(view, TankRecordItem, snaps, k, TankSnapshotOwnerId, CopiesItem(players, stereo),
                    TankSnapshotItem);
  }

  /** A snapshot, whose owner is `owner`, on the tanks alone: applied to
      the first tank with its owner id, which throws when the snapshot
      lacks what that tank dereferences, or appended as a new tank;
      `existing` is that tank. */
  method TankPlace(list: seq<Tank>, s: TankSnapshot, owner: Player, stereo: bool, ghost recs: seq<TankRecord>)
    returns (list': seq<Tank>, existing: Tank, ghost recs': seq<TankRecord>, ghost added: seq<Tank>, o: Outcome)
    requires recs == TankRecords(list)
    modifies (set t | t in list), TankParts(list)
    ensures o.Pass? <==> match FirstWith(list, TankOwnerId, s.ownerId)
                         case Some(p) => list[p].Fits(s, stereo)
                         case None => true
    ensures o.Throw? ==> o.error == NullReference
    ensures list' == list + added && forall t :: t in added ==> fresh(t)
    ensures forall x :: x in TankParts(added) ==> x == null || fresh(x)
    ensures FirstWith(list, TankOwnerId, s.ownerId).Some? ==> added == []
    ensures FirstWith(list, TankOwnerId, s.ownerId).None? ==> |added| == 1 && TankBuiltFrom(added[0], s)
    ensures o.Pass? ==> recs' == TankRecords(list')
    ensures o.Pass? ==> FirstOf(recs', TankRecordOwnerId) == Placed(FirstOf(recs, TankRecordOwnerId), s, stereo, owner, existing)
    ensures o.Pass? ==> Holds(existing, s, stereo)
  {
    var found := FirstWith(list, TankOwnerId, s.ownerId);
    FirstWithSame(list, TankOwnerId, recs, TankRecordOwnerId, s.ownerId);
    if found.None? {
      list' := TankAppend(list, s, owner, stereo);
      existing := list'[|list|];
      added := [existing];
      o := Pass;
    } else {
      added := [];
      existing := list[found.value];
      o := TankUpdate(list, found.value, s, owner, stereo);
      list' := list;
    }
    recs' := TankRecords(list');
  }

  /** One tank snapshot of `UpdateTanks`: skipped when its owner is not a
      payload player; otherwise placed, and the tank and its owner linked
      (`existing.Owner = owner`, `owner.Tank = existing`). */
  method TankStep(list: seq<Tank>, s: TankSnapshot, players: seq<Player>, stereo: bool, ghost snaps: seq<TankSnapshot>,
                  ghost k: nat, ghost recs: seq<TankRecord>, ghost ids: set<string>)
    returns (list': seq<Tank>, ghost recs': seq<TankRecord>, ghost added: seq<Tank>, o: Outcome)
    requires k < |snaps| && snaps[k] == s && recs == TankRecords(list)
    requires TanksApplied(FirstOf(recs, TankRecordOwnerId), snaps, k, players, stereo)
    requires OwnersLinked(FirstOf(recs, TankRecordOwnerId), players, ids)
    modifies (set t | t in list), (set p | p in players), TankParts(list)
    ensures o.Pass? <==> s.ownerId !in Keys(players, PlayerKey) || match FirstWith(list, TankOwnerId, s.ownerId)
                         case Some(p) => list[p].Fits(s, stereo)
                         case None => true
    ensures o.Throw? ==> o.error == NullReference
    ensures list' == list + added && forall t :: t in added ==> fresh(t)
    ensures forall x :: x in TankParts(added) ==> x == null || fresh(x)
    ensures s.ownerId !in Keys(players, PlayerKey) || FirstWith(list, TankOwnerId, s.ownerId).Some? ==> added == []
    ensures s.ownerId in Keys(players, PlayerKey) && FirstWith(list, TankOwnerId, s.ownerId).None? ==>
      |added| == 1 && TankBuiltFrom(added[0], s)
    ensures o.Pass? ==> recs' == TankRecords(list')
    ensures o.Pass? ==> TanksApplied(FirstOf(recs', TankRecordOwnerId), snaps, k + 1, players, stereo)
    ensures o.Pass? ==> OwnersLinked(FirstOf(recs', TankRecordOwnerId), players,
                                     ids + if s.ownerId in Keys(players, PlayerKey) then {s.ownerId} else {})
    ensures o.Pass? && s.ownerId in Keys(players, PlayerKey) ==> Holds(FirstOf(recs', TankRecordOwnerId)[s.ownerId].tank, s, stereo)
  {
    ghost var links := PlayerTanks(players);
    var owner := FindPlayer(players, s.ownerId);
    if owner == null {
      list', recs', added, o := list, recs, [], Pass;
      TanksAppliedSkip(FirstOf(recs, TankRecordOwnerId), snaps, k, players, stereo);
      return;
    }
    var existing;
    TankPartsHoldNoPlayer(list);
    label placing:
    list', existing, recs', added, o := TankPlace(list, s, owner, stereo, recs);
    if o.Throw? {
      return;
    }
    existing.PartsHoldNoOwner();
    assert forall p :: p in players ==> old@placing(p.tank) == p.tank;
    PlayerTanksFrame@placing(players);
    TanksAppliedStep(FirstOf(recs, TankRecordOwnerId), FirstOf(recs', TankRecordOwnerId), snaps, k, players, stereo,
                     owner, existing);
    LinkedStep(FirstOf(recs, TankRecordOwnerId), FirstOf(recs', TankRecordOwnerId), players, links, ids, s.ownerId);
    assert FirstOf(recs', TankRecordOwnerId)[s.ownerId].tank == existing;
    LinkOwner(players, owner, existing, list', s, stereo);
  }

  /** `owner.Tank = existing`: one payload player's link changes, and no
      tank nor anything hanging off one. */
  method LinkOwner(players: seq<Player>, owner: Player, existing: Tank, ghost list: seq<Tank>, ghost s: TankSnapshot,
                   ghost stereo: bool)
    requires owner == FindPlayer(players, owner.id)
    modifies owner`tank
    ensures PlayerTanks(players) == old(PlayerTanks(players))[owner.id := existing]
    ensures TankRecords(list) == old(TankRecords(list))
    ensures old(Holds(existing, s, stereo)) ==> Holds(existing, s, stereo)
  {
    ghost var recs := TankRecords(list);
    existing.PartsHoldNoOwner();
    owner.tank := existing;
    assert forall i :: 0 <= i < |list| ==> TankRecordOf(list[i]) == recs[i];
  }

  /** After the snapshots `owned`, the list is the kept tanks followed by
      one tank built from each joining snapshot, and holds the owner ids of
      both. */
  ghost predicate TanksShaped(list: seq<Tank>, kept: seq<Tank>, present: set<string>, owned: seq<TankSnapshot>) {
    var added := Added(present, owned, TankSnapshotOwnerId);
    |list| == |kept| + |added| && list[..|kept|] == kept &&
    (forall i :: |kept| <= i < |list| ==> TankBuiltFrom(list[i], added[i - |kept|])) &&
    Keys(list, TankOwnerId) == present + Keys(owned, TankSnapshotOwnerId)
  }

  /** A snapshot whose owner id the list already holds, or that is
      skipped, keeps the shape. */
  lemma {:induction false} TanksShapedKnown(list: seq<Tank>, added: seq<Tank>, kept: seq<Tank>, present: set<string>,
                                            owned: seq<TankSnapshot>, owned': seq<TankSnapshot>, s: TankSnapshot)
    requires TanksShaped(list, kept, present, owned) && added == []
    requires owned' == owned || (owned' == owned + [s] && s.ownerId in Keys(list, TankOwnerId))
    ensures TanksShaped(list + added, kept, present, owned')
  {
    assert list + added == list;
    if owned' != owned {
      AddedSnoc(present, owned, TankSnapshotOwnerId, s);
      KeysSnoc(owned, TankSnapshotOwnerId, s);
    }
  }

  /** A snapshot with an owner id new to the list appends a tank built from
      it, which keeps the shape. */
  lemma {:induction false} TanksShapedNew(list: seq<Tank>, added: seq<Tank>, kept: seq<Tank>, present: set<string>,
                                          owned: seq<TankSnapshot>, owned': seq<TankSnapshot>, s: TankSnapshot)
    requires TanksShaped(list, kept, present, owned) && s.ownerId !in Keys(list, TankOwnerId)
    requires |added| == 1 && TankBuiltFrom(added[0], s) && owned' == owned + [s]
    ensures TanksShaped(list + added, kept, present, owned')
  {
    var t := added[0];
    var joining := Added(present, owned, TankSnapshotOwnerId);
    AddedSnoc(present, owned, TankSnapshotOwnerId, s);
    assert Added(present, owned + [s], TankSnapshotOwnerId) == joining + [s];
    KeysSnoc(owned, TankSnapshotOwnerId, s);
    assert list + added == list + [t];
    KeysSnoc(list, TankOwnerId, t);
    assert (list + [t])[..|kept|] == list[..|kept|];
    forall i | |kept| <= i < |list| + 1
      ensures TankBuiltFrom((list + [t])[i], (joining + [s])[i - |kept|])
    {
      if i < |list| {
        assert (list + [t])[i] == list[i] && (joining + [s])[i - |kept|] == joining[i - |kept|];
      }
    }
  }

  /** One snapshot keeps the shape: a skipped snapshot or a known owner id
      leaves the list alone, a new owner id appends a tank built from it. */
  lemma {:induction false} TanksShapedStep(list: seq<Tank>, added: seq<Tank>, kept: seq<Tank>, present: set<string>,
                                           snaps: seq<TankSnapshot>, k: nat, players: seq<Player>)
    requires k < |snaps| && TanksShaped(list, kept, present, WithOwner(snaps[..k], players))
    requires snaps[k].ownerId !in Keys(players, PlayerKey) || FirstWith(list, TankOwnerId, snaps[k].ownerId).Some? ==>
      added == []
    requires snaps[k].ownerId in Keys(players, PlayerKey) && FirstWith(list, TankOwnerId, snaps[k].ownerId).None? ==>
      |added| == 1 && TankBuiltFrom(added[0], snaps[k])
    ensures TanksShaped(list + added, kept, present, WithOwner(snaps[..k + 1], players))
  {
    WithOwnerExtend(snaps, players, k);
    if snaps[k].ownerId in Keys(players, PlayerKey) && FirstWith(list, TankOwnerId, snaps[k].ownerId).None? {
      TanksShapedNew(list, added, kept, present, WithOwner(snaps[..k], players), WithOwner(snaps[..k + 1], players),
                     snaps[k]);
    } else {
      TanksShapedKnown(list, added, kept, present, WithOwner(snaps[..k], players), WithOwner(snaps[..k + 1], players),
                       snaps[k]);
    }
  }

  /** The state of `UpdateTanks` after the first `k` snapshots: the kept
      tanks followed by the joined ones, shaped by those snapshots, with
      `recs` their records, every one of those snapshots applied, and the
      owners of those applied linked to their tanks. */
  ghost predicate TanksLoop(list: seq<Tank>, kept: seq<Tank>, joined: seq<Tank>, recs: seq<TankRecord>,
                            snaps: seq<TankSnapshot>, k: nat, players: seq<Player>, stereo: bool)
    reads set t | t in list, set p | p in players
  {
    k <= |snaps| && list == kept + joined && TanksShaped(list, kept, Keys(kept, TankOwnerId), WithOwner(snaps[..k], players)) &&
    recs == TankRecords(list) && TanksApplied(FirstOf(recs, TankRecordOwnerId), snaps, k, players, stereo) &&
    OwnersLinked(FirstOf(recs, TankRecordOwnerId), players, Keys(WithOwner(snaps[..k], players), TankSnapshotOwnerId))
  }

  /** The body of the `foreach` of `UpdateTanks`: snapshot `k` is applied
      and the tank it adds, if any, joins at the end. */
  method TankIteration(list: seq<Tank>, players: seq<Player>, stereo: bool, ghost kept: seq<Tank>,
                       ghost joined: seq<Tank>, ghost recs: seq<TankRecord>, snaps: seq<TankSnapshot>, k: nat)
    returns (list': seq<Tank>, ghost joined': seq<Tank>, ghost recs': seq<TankRecord>, o: Outcome)
    requires k < |snaps| && TanksLoop(list, kept, joined, recs, snaps, k, players, stereo)
    modifies (set t | t in list), (set p | p in players), TankParts(list)
    ensures o.Throw? ==> o.error == NullReference
    ensures o.Pass? ==> TanksLoop(list', kept, joined', recs', snaps, k + 1, players, stereo)
    ensures list' == kept + joined' && forall t :: t in joined' ==> t in joined || fresh(t)
    ensures forall x :: x in TankParts(joined') ==> x in TankParts(joined) || x == null || fresh(x)
  {
    ghost var added;
    ghost var ids := Keys(WithOwner(snaps[..k], players), TankSnapshotOwnerId);
    list', recs', added, o := TankStep(list, snaps[k], players, stereo, snaps, k, recs, ids);
    ConcatAssoc(kept, joined, added);
    joined' := joined + added;
    TankPartsAppend(joined, added);
    if o.Pass? {
      TanksShapedStep(list, added, kept, Keys(kept, TankOwnerId), snaps, k, players);
      TanksIdsStep(snaps, players, k);
    }
  }

  /** The owner ids applied after one more snapshot. */
  lemma {:induction false} TanksIdsStep(snaps: seq<TankSnapshot>, players: seq<Player>, k: nat)
    requires k < |snaps|
    ensures Keys(WithOwner(snaps[..k + 1], players), TankSnapshotOwnerId) ==
      Keys(WithOwner(snaps[..k], players), TankSnapshotOwnerId) +
      if snaps[k].ownerId in Keys(players, PlayerKey) then {snaps[k].ownerId} else {}
  {
    WithOwnerExtend(snaps, players, k);
    if snaps[k].ownerId in Keys(players, PlayerKey) {
      KeysSnoc(WithOwner(snaps[..k], players), TankSnapshotOwnerId, snaps[k]);
    } else {
      assert WithOwner(snaps[..k + 1], players) == WithOwner(snaps[..k], players);
    }
  }

  /** The `foreach` of `UpdateTanks` on the tanks the payload kept; a
      `NullReferenceException` out of `UpdateFrom` ends it. */
  method ApplyTankSnapshots(kept: seq<Tank>, snaps: seq<TankSnapshot>, players: seq<Player>, stereo: bool)
    returns (list: seq<Tank>, o: Outcome)
    modifies (set t | t in kept), (set p | p in players), TankParts(kept)
    ensures o.Throw? ==> o.error == NullReference
    ensures o.Pass? ==> TanksShaped(list, kept, Keys(kept, TankOwnerId), WithOwner(snaps, players))
    ensures o.Pass? ==> forall t :: t in list[|kept|..] ==> fresh(t)
    ensures o.Pass? ==> TanksApplied(TankView(list), snaps, |snaps|, players, stereo)
    ensures o.Pass? ==> OwnersLinked(TankView(list), players, Keys(WithOwner(snaps, players), TankSnapshotOwnerId))
  {
    ghost var recs := TankRecords(kept);
    ghost var joined: seq<Tank> := [];
    list := kept;
    var k := 0;
    TanksLoopStart(kept, snaps, players, stereo);
    o := Pass;
    while k < |snaps|
      invariant o == Pass && k <= |snaps|
      invariant TanksLoop(list, kept, joined, recs, snaps, k, players, stereo)
      invariant forall t :: t in joined ==> fresh(t)
      invariant forall x :: x in TankParts(joined) ==> x == null || fresh(x)
    {
      TankPartsAppend(kept, joined);
      list, joined, recs, o := TankIteration(list, players, stereo, kept, joined, recs, snaps, k);
      if o.Throw? {
        return;
      }
      k := k + 1;
    }
    TanksLoopEnd(list, kept, joined, recs, snaps, players, stereo);
  }

  /** Before the first snapshot the list is the kept tanks. */
  lemma {:induction false} TanksLoopStart(kept: seq<Tank>, snaps: seq<TankSnapshot>, players: seq<Player>, stereo: bool)
    ensures TanksLoop(kept, kept, [], TankRecords(kept), snaps, 0, players, stereo)
  {
    assert kept[..|kept|] == kept && kept == kept + [];
    assert WithOwner(snaps[..0], players) == [];
    assert Keys(WithOwner(snaps[..0], players), TankSnapshotOwnerId) == {};
  }

  /** After the last snapshot the list is shaped by the whole payload. */
  lemma {:induction false} TanksLoopEnd(list: seq<Tank>, kept: seq<Tank>, joined: seq<Tank>, recs: seq<TankRecord>,
                                        snaps: seq<TankSnapshot>, players: seq<Player>, stereo: bool)
    requires TanksLoop(list, kept, joined, recs, snaps, |snaps|, players, stereo)
    ensures TanksShaped(list, kept, Keys(kept, TankOwnerId), WithOwner(snaps, players)) && list[|kept|..] == joined
    ensures TanksApplied(TankView(list), snaps, |snaps|, players, stereo)
    ensures OwnersLinked(TankView(list), players, Keys(WithOwner(snaps, players), TankSnapshotOwnerId))
  {
    assert snaps[..|snaps|] == snaps;
  }

  /** `UpdateTanks`: the tanks whose owner id the payload lacks leave the
      grid, then each snapshot whose owner is a payload player updates the
      first tank with its owner id or joins the list as a new tank, and
      that tank and its owner are linked. Afterwards the grid's owner ids
      are the payload's the grid already had, and those a payload player
      has. A snapshot lacking what its tank's `UpdateFrom` dereferences
      throws out of the loop. */
  method UpdateTanks(grid: Grid, snaps: seq<TankSnapshot>, players: seq<Player>, stereo: bool) returns (o: Outcome)
    modifies grid`tanks, (set t | t in grid.tanks), (set p | p in players), TankParts(grid.tanks)
    ensures o.Throw? ==> o.error == NullReference
    ensures o.Pass? ==> var kept := Kept(old(grid.tanks), TankOwnerId, Keys(snaps, TankSnapshotOwnerId));
      TanksShaped(grid.tanks, kept, Keys(kept, TankOwnerId), WithOwner(snaps, players)) &&
      forall t :: t in grid.tanks[|kept|..] ==> fresh(t)
    ensures o.Pass? ==>
      Keys(grid.tanks, TankOwnerId) ==
        Keys(old(grid.tanks), TankOwnerId) * Keys(snaps, TankSnapshotOwnerId) +
        Keys(snaps, TankSnapshotOwnerId) * Keys(players, PlayerKey)
    ensures o.Pass? ==> TanksApplied(TankView(grid.tanks), snaps, |snaps|, players, stereo)
    ensures o.Pass? ==> OwnersLinked(TankView(grid.tanks), players, Keys(snaps, TankSnapshotOwnerId) * Keys(players, PlayerKey))
  {
    var kept := Kept(grid.tanks, TankOwnerId, Keys(snaps, TankSnapshotOwnerId));
    KeptFrom(grid.tanks, TankOwnerId, Keys(snaps, TankSnapshotOwnerId));
    KeptKeys(grid.tanks, TankOwnerId, Keys(snaps, TankSnapshotOwnerId));
    WithOwnerKeys(snaps, players);
    var list;
    list, o := ApplyTankSnapshots(kept, snaps, players, stereo);
    label applied:
    grid.tanks := list;
    TankViewFrame@applied(list);
    PlayerTanksFrame@applied(players);
  }
}
