/** `GameStateApplier` (client builds): a game state payload is applied to
    the client's grid. Each entity list is reconciled by id against the
    payload's snapshots: the entities the payload lacks go, the first
    entity with a snapshot's id takes the snapshot's state in place, and a
    snapshot with a new id joins the list. This module holds the entry
    point, `ApplyToGrid`, for a non-STEREO client build; the reconcilers
    live in one module per entity. */
module LogicStateApplier {
  import opened Wrappers
  import opened LogicReconcile
  import opened LogicTanks
  import opened LogicLasers
  import opened LogicMines
  import opened LogicBullets
  import opened LogicZones
  import opened LogicGrid
  import opened LogicApplyPlayers
  import opened LogicApplyTanks
  import opened LogicApplyBullets
  import opened LogicApplyLasers
  import opened LogicApplyMines
  import opened LogicApplyZones

  /** The grid's notifications, in the order they are raised. */
  datatype GridEvent = StateUpdating | DimensionsChanging | DimensionsChanged | StateUpdated

  /** What `ApplyToGrid` reads of a `GameStatePayload`: the wall grid, the
      snapshots of every entity kind, the items lying on the map and the
      payload's players. */
  datatype Payload = Payload(walls: seq<seq<Option<Wall>>>, tanks: seq<TankSnapshot>, bullets: seq<BulletSnapshot>,
                             lasers: seq<LaserSnapshot>, mines: seq<MineSnapshot>, zones: seq<ZoneSnapshot>,
                             items: seq<SecondaryItem>, players: seq<Player>)

  /** The notifications `UpdateDimensions` raises: the pair around the
      new wall grid, only when the dimension changes. */
  function DimensionEvents(oldDim: int, newDim: int): seq<GridEvent> {
    if oldDim != newDim then [DimensionsChanging, DimensionsChanged] else []
  }

  /** `UpdateDimensions`: when the payload's dimension differs from the
      grid's, a new empty wall grid of that dimension replaces the old one,
      between the two dimension notifications; then the payload's walls are
      copied over every cell. Either way the grid ends up with the
      payload's dimension and walls. */
  method UpdateDimensions(grid: Grid, walls: seq<seq<Option<Wall>>>) returns (events: seq<GridEvent>)
    requires grid.Valid() && Square(walls, |walls|)
    modifies grid`dim, grid`wallGrid
    ensures grid.Valid() && grid.dim == |walls| && grid.wallGrid == walls
    ensures events == DimensionEvents(old(grid.dim), |walls|)
  {
    var newDim := |walls|;
    events := [];
    if grid.dim != newDim {
      events := events + [DimensionsChanging];
      grid.wallGrid := EmptyWalls(newDim);
      grid.dim := newDim;
      events := events + [DimensionsChanged];
    }
    // `Array.Copy` of the whole payload array onto an array of the same
    // dimension overwrites every cell.
    assert Square(grid.wallGrid, |walls|);
    grid.wallGrid := walls;
  }

  /** The tanks after reconciliation, given the first tank of each owner
      id (`view`) and the tank each payload player points at (`links`):
      the tanks of owners the payload lacks leave and the rest keep their
      order, one tank joins for each new owner id a payload player holds,
      each first tank carries its last snapshot's state, and the owner and
      the first tank with its id point at each other. */
  ghost predicate TanksReconciled(now: seq<Tank>, view: map<string, TankRecord>, links: map<string, Tank?>,
                                  before: seq<Tank>, payload: Payload)
  {
    var keys := Keys(payload.tanks, TankSnapshotOwnerId);
    var kept := Kept(before, TankOwnerId, keys);
    TanksShaped(now, kept, Keys(kept, TankOwnerId), WithOwner(payload.tanks, payload.players)) &&
    Keys(now, TankOwnerId) == Keys(before, TankOwnerId) * keys + keys * Keys(payload.players, PlayerKey) &&
    TanksApplied(view, payload.tanks, |payload.tanks|, payload.players, false) &&
    Linked(view, payload.players, links, keys * Keys(payload.players, PlayerKey))
  }

  /** The bullets after reconciliation, given the first bullet of each id
      (`view`): the bullets the payload lacks leave and the rest keep their
      order, one bullet joins for each new id, the ids are the payload's,
      and each first bullet carries its last snapshot's shooter. */
  ghost predicate BulletsReconciled(now: seq<Bullet>, view: map<int, BulletRecord>, before: seq<Bullet>, payload: Payload) {
    var kept := Kept(before, BulletId, Keys(payload.bullets, BulletSnapshotId));
    BulletsShaped(now, kept, Keys(kept, BulletId), payload.bullets) &&
    Keys(now, BulletId) == Keys(payload.bullets, BulletSnapshotId) &&
    BulletsApplied(view, payload.bullets, |payload.bullets|, payload.players)
  }

  /** The same for the lasers. */
  ghost predicate LasersReconciled(now: seq<Laser>, view: map<int, LaserRecord>, before: seq<Laser>, payload: Payload) {
    var kept := Kept(before, LaserId, Keys(payload.lasers, LaserSnapshotId));
    LasersShaped(now, kept, Keys(kept, LaserId), payload.lasers) &&
    Keys(now, LaserId) == Keys(payload.lasers, LaserSnapshotId) &&
    LasersApplied(view, payload.lasers, |payload.lasers|, payload.players)
  }

  /** The same for the mines. */
  ghost predicate MinesReconciled(now: seq<Mine>, view: map<int, MineRecord>, before: seq<Mine>, payload: Payload) {
    var kept := Kept(before, MineId, Keys(payload.mines, MineSnapshotId));
    MinesShaped(now, kept, Keys(kept, MineId), payload.mines) &&
    Keys(now, MineId) == Keys(payload.mines, MineSnapshotId) &&
    MinesApplied(view, payload.mines, |payload.mines|, payload.players)
  }

  /** What the reconcilers run so far leave for the later ones to keep:
      for each kind reconciled, the first entity of each id, and the tank
      each payload player points at; the kinds not reconciled yet are
      empty. */
  datatype Seen = Seen(tanks: map<string, TankRecord>, links: map<string, Tank?>, bullets: map<int, BulletRecord>,
                       lasers: map<int, LaserRecord>, mines: map<int, MineRecord>)

  ghost function SeenTanks(tanks: seq<Tank>, players: seq<Player>): Seen
    reads set t | t in tanks, (set p | p in players)`tank
  {
    Seen(TankView(tanks), PlayerTanks(players), map[], map[], map[])
  }

  ghost function SeenBullets(tanks: seq<Tank>, players: seq<Player>, bullets: seq<Bullet>): Seen
    reads set t | t in tanks, (set p | p in players)`tank, set b | b in bullets
  {
    SeenTanks(tanks, players).(bullets := BulletView(bullets))
  }

  ghost function SeenLasers(tanks: seq<Tank>, players: seq<Player>, bullets: seq<Bullet>, lasers: seq<Laser>): Seen
    reads set t | t in tanks, (set p | p in players)`tank, set b | b in bullets, set l | l in lasers
  {
    SeenBullets(tanks, players, bullets).(lasers := LaserView(lasers))
  }

  ghost function SeenMines(tanks: seq<Tank>, players: seq<Player>, bullets: seq<Bullet>, lasers: seq<Laser>,
                           mines: seq<Mine>): Seen
    reads set t | t in tanks, (set p | p in players)`tank, set b | b in bullets, set l | l in lasers, set m | m in mines
  {
    SeenLasers(tanks, players, bullets, lasers).(mines := MineView(mines))
  }

  // Each reconciler, seen from `ApplyToGrid`: what it leaves of its own
  // kind, the grid's other lists left as they were, and what the kinds
  // reconciled before it were left with.

  method ReconcileTanks(grid: Grid, payload: Payload) returns (o: Outcome)
    modifies grid`tanks, (set t | t in grid.tanks), (set p | p in payload.players), TankParts(grid.tanks)
    ensures o.Throw? ==> o.error == NullReference
    ensures o.Pass? ==> TanksReconciled(grid.tanks, TankView(grid.tanks), PlayerTanks(payload.players), old(grid.tanks), payload)
    ensures grid.dim == old(grid.dim) && grid.wallGrid == old(grid.wallGrid) && grid.bullets == old(grid.bullets)
      && grid.lasers == old(grid.lasers) && grid.mines == old(grid.mines) && grid.zones == old(grid.zones)
      && grid.items == old(grid.items)
  {
    TankPartsHoldNoPlayer(grid.tanks);
    o := UpdateTanks(grid, payload.tanks, payload.players, false);
  }

  method ReconcileBullets(grid: Grid, payload: Payload)
    modifies grid`bullets, set b | b in grid.bullets
    ensures BulletsReconciled(grid.bullets, BulletView(grid.bullets), old(grid.bullets), payload)
    ensures SeenTanks(grid.tanks, payload.players) == old(SeenTanks(grid.tanks, payload.players))
    ensures grid.dim == old(grid.dim) && grid.wallGrid == old(grid.wallGrid) && grid.tanks == old(grid.tanks)
      && grid.lasers == old(grid.lasers) && grid.mines == old(grid.mines) && grid.zones == old(grid.zones)
      && grid.items == old(grid.items)
  {
    UpdateBullets(grid, payload.bullets, payload.players);
  }

  method ReconcileLasers(grid: Grid, payload: Payload)
    modifies grid`lasers, set l | l in grid.lasers
    ensures LasersReconciled(grid.lasers, LaserView(grid.lasers), old(grid.lasers), payload)
    ensures SeenBullets(grid.tanks, payload.players, grid.bullets) == old(SeenBullets(grid.tanks, payload.players, grid.bullets))
    ensures grid.dim == old(grid.dim) && grid.wallGrid == old(grid.wallGrid) && grid.tanks == old(grid.tanks)
      && grid.bullets == old(grid.bullets) && grid.mines == old(grid.mines) && grid.zones == old(grid.zones)
      && grid.items == old(grid.items)
  {
    UpdateLasers(grid, payload.lasers, payload.players);
  }

  method ReconcileMines(grid: Grid, payload: Payload)
    modifies grid`mines, set m | m in grid.mines
    ensures MinesReconciled(grid.mines, MineView(grid.mines), old(grid.mines), payload)
    ensures SeenLasers(grid.tanks, payload.players, grid.bullets, grid.lasers) ==
            old(SeenLasers(grid.tanks, payload.players, grid.bullets, grid.lasers))
    ensures grid.dim == old(grid.dim) && grid.wallGrid == old(grid.wallGrid) && grid.tanks == old(grid.tanks)
      && grid.bullets == old(grid.bullets) && grid.lasers == old(grid.lasers) && grid.zones == old(grid.zones)
      && grid.items == old(grid.items)
  {
    UpdateMines(grid, payload.mines, payload.players);
  }

  method ReconcileZones(grid: Grid, payload: Payload) returns (o: Outcome)
    modifies grid`zones, set z | z in grid.zones
    ensures ZonesResult(grid.zones, Kept(old(grid.zones), ZoneIndex, Keys(payload.zones, ZoneSnapshotIndex)),
                        payload.zones, payload.players, o)
    ensures o.Pass? ==> Keys(grid.zones, ZoneIndex) == Keys(payload.zones, ZoneSnapshotIndex)
    ensures SeenMines(grid.tanks, payload.players, grid.bullets, grid.lasers, grid.mines) ==
            old(SeenMines(grid.tanks, payload.players, grid.bullets, grid.lasers, grid.mines))
    ensures grid.dim == old(grid.dim) && grid.wallGrid == old(grid.wallGrid) && grid.tanks == old(grid.tanks)
      && grid.bullets == old(grid.bullets) && grid.lasers == old(grid.lasers) && grid.mines == old(grid.mines)
      && grid.items == old(grid.items)
  {
    o := UpdateZones(grid, payload.zones, payload.players);
  }

  /** `Items = payload.Items`, once the zones have passed: the entities are
      left as they were. */
  method UpdateItems(grid: Grid, payload: Payload, ghost kept: seq<Zone>, ghost o: Outcome)
    modifies grid`items
    ensures grid.items == payload.items
    ensures SeenMines(grid.tanks, payload.players, grid.bullets, grid.lasers, grid.mines) ==
            old(SeenMines(grid.tanks, payload.players, grid.bullets, grid.lasers, grid.mines))
    ensures ZonesResult(grid.zones, kept, payload.zones, payload.players, o) ==
            old(ZonesResult(grid.zones, kept, payload.zones, payload.players, o))
  {
    grid.items := payload.items;
  }

  // The body of `ApplyToGrid` from each reconciler on: that reconciler,
  // then the rest. Each states what its reconciler leaves of its own kind,
  // passes on what the rest states, and keeps what the reconcilers before
  // it left (`Seen*`).

  /** From `UpdateZones` on: the zones, then the items unless it throws. */
  method ApplyFromZones(grid: Grid, payload: Payload) returns (o: Outcome)
    modifies grid`zones, grid`items, set z | z in grid.zones
    ensures ZonesResult(grid.zones, Kept(old(grid.zones), ZoneIndex, Keys(payload.zones, ZoneSnapshotIndex)),
                        payload.zones, payload.players, o)
    ensures o.Pass? ==> Keys(grid.zones, ZoneIndex) == Keys(payload.zones, ZoneSnapshotIndex)
    ensures grid.items == if o.Pass? then payload.items else old(grid.items)
    ensures SeenMines(grid.tanks, payload.players, grid.bullets, grid.lasers, grid.mines) ==
            old(SeenMines(grid.tanks, payload.players, grid.bullets, grid.lasers, grid.mines))
    ensures grid.dim == old(grid.dim) && grid.wallGrid == old(grid.wallGrid) && grid.tanks == old(grid.tanks)
      && grid.bullets == old(grid.bullets) && grid.lasers == old(grid.lasers) && grid.mines == old(grid.mines)
  {
    ghost var kept := Kept(grid.zones, ZoneIndex, Keys(payload.zones, ZoneSnapshotIndex));
    o := ReconcileZones(grid, payload);
    if o.Pass? {
      UpdateItems(grid, payload, kept, o);
    }
  }

  /** From `UpdateMines` on. */
  method ApplyFromMines(grid: Grid, payload: Payload) returns (o: Outcome)
    modifies grid`mines, grid`zones, grid`items, set m | m in grid.mines, set z | z in grid.zones
    ensures MinesReconciled(grid.mines, MineView(grid.mines), old(grid.mines), payload)
    ensures ZonesResult(grid.zones, Kept(old(grid.zones), ZoneIndex, Keys(payload.zones, ZoneSnapshotIndex)),
                        payload.zones, payload.players, o)
    ensures o.Pass? ==> Keys(grid.zones, ZoneIndex) == Keys(payload.zones, ZoneSnapshotIndex)
    ensures grid.items == if o.Pass? then payload.items else old(grid.items)
    ensures SeenLasers(grid.tanks, payload.players, grid.bullets, grid.lasers) ==
            old(SeenLasers(grid.tanks, payload.players, grid.bullets, grid.lasers))
    ensures grid.dim == old(grid.dim) && grid.wallGrid == old(grid.wallGrid) && grid.tanks == old(grid.tanks)
      && grid.bullets == old(grid.bullets) && grid.lasers == old(grid.lasers)
  {
    ReconcileMines(grid, payload);
    o := ApplyFromZones(grid, payload);
  }

  /** From `UpdateLasers` on. */
  method ApplyFromLasers(grid: Grid, payload: Payload) returns (o: Outcome)
    modifies grid`lasers, grid`mines, grid`zones, grid`items
    modifies set l | l in grid.lasers, set m | m in grid.mines, set z | z in grid.zones
    ensures LasersReconciled(grid.lasers, LaserView(grid.lasers), old(grid.lasers), payload)
    ensures MinesReconciled(grid.mines, MineView(grid.mines), old(grid.mines), payload)
    ensures ZonesResult(grid.zones, Kept(old(grid.zones), ZoneIndex, Keys(payload.zones, ZoneSnapshotIndex)),
                        payload.zones, payload.players, o)
    ensures o.Pass? ==> Keys(grid.zones, ZoneIndex) == Keys(payload.zones, ZoneSnapshotIndex)
    ensures grid.items == if o.Pass? then payload.items else old(grid.items)
    ensures SeenBullets(grid.tanks, payload.players, grid.bullets) == old(SeenBullets(grid.tanks, payload.players, grid.bullets))
    ensures grid.dim == old(grid.dim) && grid.wallGrid == old(grid.wallGrid) && grid.tanks == old(grid.tanks)
      && grid.bullets == old(grid.bullets)
  {
    ReconcileLasers(grid, payload);
    o := ApplyFromMines(grid, payload);
  }

  /** From `UpdateBullets` on. */
  method ApplyFromBullets(grid: Grid, payload: Payload) returns (o: Outcome)
    modifies grid`bullets, grid`lasers, grid`mines, grid`zones, grid`items
    modifies set b | b in grid.bullets, set l | l in grid.lasers, set m | m in grid.mines, set z | z in grid.zones
    ensures BulletsReconciled(grid.bullets, BulletView(grid.bullets), old(grid.bullets), payload)
    ensures LasersReconciled(grid.lasers, LaserView(grid.lasers), old(grid.lasers), payload)
    ensures MinesReconciled(grid.mines, MineView(grid.mines), old(grid.mines), payload)
    ensures ZonesResult(grid.zones, Kept(old(grid.zones), ZoneIndex, Keys(payload.zones, ZoneSnapshotIndex)),
                        payload.zones, payload.players, o)
    ensures o.Pass? ==> Keys(grid.zones, ZoneIndex) == Keys(payload.zones, ZoneSnapshotIndex)
    ensures grid.items == if o.Pass? then payload.items else old(grid.items)
    ensures SeenTanks(grid.tanks, payload.players) == old(SeenTanks(grid.tanks, payload.players))
    ensures grid.dim == old(grid.dim) && grid.wallGrid == old(grid.wallGrid) && grid.tanks == old(grid.tanks)
  {
    ReconcileBullets(grid, payload);
    o := ApplyFromLasers(grid, payload);
  }

  /** From `UpdateTanks` on; `reached` tells whether the tanks passed, so
      that the other kinds were reconciled. */
  method ApplyFromTanks(grid: Grid, payload: Payload) returns (o: Outcome, ghost reached: bool)
    modifies grid`tanks, grid`bullets, grid`lasers, grid`mines, grid`zones, grid`items
    modifies set t | t in grid.tanks, set b | b in grid.bullets, set l | l in grid.lasers, set m | m in grid.mines
    modifies set z | z in grid.zones, set p | p in payload.players
    modifies TankParts(grid.tanks)
    ensures !reached ==> o == Throw(NullReference)
    ensures !reached ==>
      grid.bullets == old(grid.bullets) && grid.lasers == old(grid.lasers) &&
      grid.mines == old(grid.mines) && grid.zones == old(grid.zones) && grid.items == old(grid.items)
    ensures reached ==> TanksReconciled(grid.tanks, TankView(grid.tanks), PlayerTanks(payload.players), old(grid.tanks), payload)
    ensures reached ==> BulletsReconciled(grid.bullets, BulletView(grid.bullets), old(grid.bullets), payload)
    ensures reached ==> LasersReconciled(grid.lasers, LaserView(grid.lasers), old(grid.lasers), payload)
    ensures reached ==> MinesReconciled(grid.mines, MineView(grid.mines), old(grid.mines), payload)
    ensures reached ==> ZonesResult(grid.zones, Kept(old(grid.zones), ZoneIndex, Keys(payload.zones, ZoneSnapshotIndex)),
                                   payload.zones, payload.players, o)
    ensures reached && o.Pass? ==> Keys(grid.zones, ZoneIndex) == Keys(payload.zones, ZoneSnapshotIndex)
    ensures reached ==> grid.items == if o.Pass? then payload.items else old(grid.items)
    ensures grid.dim == old(grid.dim) && grid.wallGrid == old(grid.wallGrid)
  {
    o := ReconcileTanks(grid, payload);
    reached := o.Pass?;
    if o.Pass? {
      o := ApplyFromBullets(grid, payload);
    }
  }

  /** `ApplyToGrid` (non-STEREO client build): the notifications open and
      close the update, the dimension and walls become the payload's, and
      each entity list ends as its reconciler leaves it (`TanksReconciled`,
      `BulletsReconciled`, `LasersReconciled`, `MinesReconciled`,
      `ZonesResult`: which entities stay, in which order, which join, and
      the state each carries), then the items become the payload's. Two
      exceptions end it early, before the closing notification: a tank
      snapshot lacking what its tank's `UpdateFrom` dereferences (then
      `reached` is false and no later list is touched), and a zone naming a
      player the payload lacks (then the items are left). */
  method ApplyToGrid(grid: Grid, payload: Payload) returns (events: seq<GridEvent>, o: Outcome, ghost reached: bool)
    requires grid.Valid() && Square(payload.walls, |payload.walls|)
    modifies grid`dim, grid`wallGrid, grid`tanks, grid`bullets, grid`lasers, grid`mines, grid`zones, grid`items
    modifies set t | t in grid.tanks, set b | b in grid.bullets, set l | l in grid.lasers, set m | m in grid.mines
    modifies set z | z in grid.zones, set p | p in payload.players
    modifies TankParts(grid.tanks)
    ensures grid.Valid() && grid.dim == |payload.walls| && grid.wallGrid == payload.walls
    ensures events == [StateUpdating] + DimensionEvents(old(grid.dim), |payload.walls|) +
      (if o.Pass? then [StateUpdated] else [])
    ensures !reached ==> o == Throw(NullReference)
    ensures !reached ==>
      grid.bullets == old(grid.bullets) && grid.lasers == old(grid.lasers) &&
      grid.mines == old(grid.mines) && grid.zones == old(grid.zones) && grid.items == old(grid.items)
    ensures reached ==> TanksReconciled(grid.tanks, TankView(grid.tanks), PlayerTanks(payload.players), old(grid.tanks), payload)
    ensures reached ==> BulletsReconciled(grid.bullets, BulletView(grid.bullets), old(grid.bullets), payload)
    ensures reached ==> LasersReconciled(grid.lasers, LaserView(grid.lasers), old(grid.lasers), payload)
    ensures reached ==> MinesReconciled(grid.mines, MineView(grid.mines), old(grid.mines), payload)
    ensures reached ==> ZonesResult(grid.zones, Kept(old(grid.zones), ZoneIndex, Keys(payload.zones, ZoneSnapshotIndex)),
                                   payload.zones, payload.players, o)
    ensures reached && o.Pass? ==> Keys(grid.zones, ZoneIndex) == Keys(payload.zones, ZoneSnapshotIndex)
    ensures reached ==> grid.items == if o.Pass? then payload.items else old(grid.items)
  {
    events := [StateUpdating];
    var dimEvents := UpdateDimensions(grid, payload.walls);
    events := events + dimEvents;
    o, reached := ApplyFromTanks(grid, payload);
    events := events + if o.Pass? then [StateUpdated] else [];
  }
}
