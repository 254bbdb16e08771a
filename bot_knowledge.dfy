/** The bot's fog-of-war memory (`KnowledgeMap`): for every cell a set of
    remembered objects keyed by the tick they were last seen, the cells any
    own tank sees this tick, and a countdown for remembered mines. */
module BotKnowledge {
  import opened Wrappers
  import opened BotPackets
  import opened BotGeometry

  const MaxTrackTime: int := 10
  const MineTrackTime: int := 500

  /** A `dim` x `dim` grid stored row by row. */
  ghost predicate IsGrid<T>(g: seq<seq<T>>, dim: nat) {
    |g| == dim && forall i :: 0 <= i < dim ==> |g[i]| == dim
  }

  function Fill<T>(dim: nat, v: T): (g: seq<seq<T>>)
    ensures IsGrid(g, dim)
    ensures forall i, j :: 0 <= i < dim && 0 <= j < dim ==> g[i][j] == v
  {
    seq(dim, _ => seq(dim, _ => v))
  }

  function SetCell<T>(g: seq<seq<T>>, p: Pos, v: T): (r: seq<seq<T>>)
    requires 0 <= p.x < |g| && 0 <= p.y < |g[p.x]|
    ensures |r| == |g| && forall i :: 0 <= i < |g| ==> |r[i]| == |g[i]|
    ensures forall i, j :: 0 <= i < |g| && 0 <= j < |g[i]| ==>
      r[i][j] == if i == p.x && j == p.y then v else g[i][j]
  {
    g[p.x := g[p.x][p.y := v]]
  }

  /** Two grids of the same shape with the same cells are equal. */
  lemma {:induction false} GridEq<T>(g: seq<seq<T>>, h: seq<seq<T>>, dim: nat)
    requires IsGrid(g, dim) && IsGrid(h, dim)
    requires forall i, j :: 0 <= i < dim && 0 <= j < dim ==> g[i][j] == h[i][j]
    ensures g == h
  {
    forall i | 0 <= i < dim ensures g[i] == h[i] {
      assert forall j :: 0 <= j < dim ==> g[i][j] == h[i][j];
    }
  }

  /** Writing a cell's own value back changes nothing. */
  lemma {:induction false} SetCellSame<T>(g: seq<seq<T>>, p: Pos)
    requires 0 <= p.x < |g| && 0 <= p.y < |g[p.x]|
    ensures SetCell(g, p, g[p.x][p.y]) == g
  {
    assert g[p.x][p.y := g[p.x][p.y]] == g[p.x];
  }

  /** The grid a row-major sweep has produced on reaching (i, j): cells
      before (i, j) come from `g1`, the others still from `g0`. */
  function Overlay<T>(g0: seq<seq<T>>, g1: seq<seq<T>>, i: int, j: int): (r: seq<seq<T>>)
    requires IsGrid(g0, |g0|) && IsGrid(g1, |g0|)
    ensures IsGrid(r, |g0|)
  {
    seq(|g0|, a requires 0 <= a < |g0| =>
      seq(|g0|, b requires 0 <= b < |g0| =>
        if a < i || (a == i && b < j) then g1[a][b] else g0[a][b]))
  }

  lemma {:induction false} OverlayStep<T>(g0: seq<seq<T>>, g1: seq<seq<T>>, i: nat, j: nat)
    requires IsGrid(g0, |g0|) && IsGrid(g1, |g0|) && i < |g0| && j < |g0|
    ensures Overlay(g0, g1, i, j)[i][j] == g0[i][j]
    ensures SetCell(Overlay(g0, g1, i, j), Pos(i, j), g1[i][j]) == Overlay(g0, g1, i, j + 1)
  {
    GridEq(SetCell(Overlay(g0, g1, i, j), Pos(i, j), g1[i][j]), Overlay(g0, g1, i, j + 1), |g0|);
  }

  lemma {:induction false} OverlayRowEnd<T>(g0: seq<seq<T>>, g1: seq<seq<T>>, i: nat)
    requires IsGrid(g0, |g0|) && IsGrid(g1, |g0|) && i < |g0|
    ensures Overlay(g0, g1, i, |g0|) == Overlay(g0, g1, i + 1, 0)
  {
    GridEq(Overlay(g0, g1, i, |g0|), Overlay(g0, g1, i + 1, 0), |g0|);
  }

  lemma {:induction false} OverlayEnds<T>(g0: seq<seq<T>>, g1: seq<seq<T>>)
    requires IsGrid(g0, |g0|) && IsGrid(g1, |g0|)
    ensures Overlay(g0, g1, 0, 0) == g0
    ensures Overlay(g0, g1, |g0|, 0) == g1
  {
    GridEq(Overlay(g0, g1, 0, 0), g0, |g0|);
    GridEq(Overlay(g0, g1, |g0|, 0), g1, |g0|);
  }

  // ---------------------------------------------------------------------
  // Knowledge tiles

  /** `KnowledgeTileVariant`: an object and the tick it was last seen. */
  datatype Entry = Entry(lastSeen: int, obj: TileObject)

  /** The set's order: its comparator looks at `lastSeen` only, so entries
      are strictly increasing in `lastSeen` and a tick occurs at most once. */
  predicate Ordered(t: seq<Entry>) {
    forall i, j :: 0 <= i < j < |t| ==> t[i].lastSeen < t[j].lastSeen
  }

  predicate HasTick(t: seq<Entry>, tick: int) {
    exists i :: 0 <= i < |t| && t[i].lastSeen == tick
  }

  /** `std::set::insert`: a no-op when an entry with the same tick is
      present (the comparator treats it as equal), else an ordered insertion. */
  function Insert(t: seq<Entry>, e: Entry): (r: seq<Entry>)
    requires Ordered(t)
    ensures Ordered(r)
    ensures forall x :: x in r ==> x in t || x == e
    decreases |t|
  {
    if |t| == 0 then [e]
    else if e.lastSeen < t[0].lastSeen then
      assert forall i :: 0 <= i < |t| ==> t[i].lastSeen >= t[0].lastSeen;
      [e] + t
    else if e.lastSeen == t[0].lastSeen then t
    else
      var rest := Insert(t[1..], e);
      assert forall x :: x in rest ==> t[0].lastSeen < x.lastSeen;
      [t[0]] + rest
  }

  /** Insertion guarantees an entry for the tick; it changes nothing when
      the tick is already present, and otherwise adds exactly `e`. */
  lemma {:induction false} InsertSpec(t: seq<Entry>, e: Entry)
    requires Ordered(t)
    ensures HasTick(Insert(t, e), e.lastSeen)
    ensures HasTick(t, e.lastSeen) ==> Insert(t, e) == t
    ensures !HasTick(t, e.lastSeen) ==>
      |Insert(t, e)| == |t| + 1 && forall x :: x in Insert(t, e) <==> x in t || x == e
  {
    InsertTick(t, e);
    InsertPresent(t, e);
    InsertAbsent(t, e);
  }

  /** A tick other than the head's is in the tile exactly when it is in the tail. */
  lemma {:induction false} TickInTail(t: seq<Entry>, tick: int)
    requires |t| > 0 && t[0].lastSeen != tick
    ensures HasTick(t, tick) <==> HasTick(t[1..], tick)
  {
    if HasTick(t, tick) {
      var k :| 0 <= k < |t| && t[k].lastSeen == tick;
      assert t[1..][k - 1] == t[k];
    }
    if HasTick(t[1..], tick) {
      var k :| 0 <= k < |t[1..]| && t[1..][k].lastSeen == tick;
      assert t[k + 1] == t[1..][k];
    }
  }

  lemma {:induction false} InsertTick(t: seq<Entry>, e: Entry)
    requires Ordered(t)
    ensures HasTick(Insert(t, e), e.lastSeen)
    decreases |t|
  {
    var r := Insert(t, e);
    if |t| == 0 || e.lastSeen < t[0].lastSeen {
      assert r[0] == e;
    } else if e.lastSeen == t[0].lastSeen {
      assert r[0] == t[0];
    } else {
      var rest := Insert(t[1..], e);
      InsertTick(t[1..], e);
      assert r == [t[0]] + rest;
      var i :| 0 <= i < |rest| && rest[i].lastSeen == e.lastSeen;
      assert r[i + 1] == rest[i];
    }
  }

  lemma {:induction false} InsertPresent(t: seq<Entry>, e: Entry)
    requires Ordered(t)
    ensures HasTick(t, e.lastSeen) ==> Insert(t, e) == t
    decreases |t|
  {
    if |t| == 0 {
    } else if e.lastSeen < t[0].lastSeen {
      assert forall i :: 0 <= i < |t| ==> t[i].lastSeen > e.lastSeen;
    } else if e.lastSeen > t[0].lastSeen {
      InsertPresent(t[1..], e);
      TickInTail(t, e.lastSeen);
      assert t == [t[0]] + t[1..];
    }
  }

  lemma {:induction false} InsertAbsent(t: seq<Entry>, e: Entry)
    requires Ordered(t)
    ensures !HasTick(t, e.lastSeen) ==>
      |Insert(t, e)| == |t| + 1 && forall x :: x in Insert(t, e) <==> x in t || x == e
    decreases |t|
  {
    if |t| == 0 {
    } else if e.lastSeen < t[0].lastSeen {
    } else if e.lastSeen == t[0].lastSeen {
      assert HasTick(t, e.lastSeen) by { assert t[0].lastSeen == e.lastSeen; }
    } else {
      var rest := Insert(t[1..], e);
      InsertAbsent(t[1..], e);
      TickInTail(t, e.lastSeen);
      assert Insert(t, e) == [t[0]] + rest;
      assert t == [t[0]] + t[1..];
    }
  }

  /** All ordered, over a whole grid of knowledge tiles. */
  ghost predicate AllOrdered(g: seq<seq<seq<Entry>>>) {
    forall i, j :: 0 <= i < |g| && 0 <= j < |g[i]| ==> Ordered(g[i][j])
  }

  /** The first object of a snapshot tile that is not a wall. */
  function FirstNonWall(objs: seq<TileObject>): (r: Option<TileObject>)
    ensures r.Some? ==> r.value in objs && !r.value.WallObj?
    ensures r.None? ==> forall o :: o in objs ==> o.WallObj?
  {
    if |objs| == 0 then None
    else if !objs[0].WallObj? then Some(objs[0])
    else FirstNonWall(objs[1..])
  }

  /** The loop over a visible tile: starting from `acc`, insert every
      non-wall object tagged with tick `time`. */
  function RefreshFrom(acc: seq<Entry>, objs: seq<TileObject>, time: int): (r: seq<Entry>)
    requires Ordered(acc)
    ensures Ordered(r)
    decreases |objs|
  {
    if |objs| == 0 then acc
    else RefreshFrom(if objs[0].WallObj? then acc else Insert(acc, Entry(time, objs[0])), objs[1..], time)
  }

  /** A visible tile after the refresh: the set is cleared and every
      non-wall object is inserted with the current tick. */
  function Refresh(objs: seq<TileObject>, time: int): seq<Entry> {
    RefreshFrom([], objs, time)
  }

  lemma {:induction false} RefreshFromTicked(acc: seq<Entry>, objs: seq<TileObject>, time: int)
    requires Ordered(acc) && HasTick(acc, time)
    ensures RefreshFrom(acc, objs, time) == acc
    decreases |objs|
  {
    if |objs| > 0 {
      if !objs[0].WallObj? {
        InsertSpec(acc, Entry(time, objs[0]));
      }
      RefreshFromTicked(acc, objs[1..], time);
    }
  }

  /** Only one entry per tick survives: a visible tile keeps exactly the
      first non-wall object of the snapshot, tagged with the current tick,
      or nothing when the tile holds only walls. */
  lemma {:induction false} RefreshKeepsFirst(objs: seq<TileObject>, time: int)
    ensures Refresh(objs, time) ==
      match FirstNonWall(objs)
      case None => []
      case Some(o) => [Entry(time, o)]
    decreases |objs|
  {
    if |objs| > 0 {
      if objs[0].WallObj? {
        RefreshKeepsFirst(objs[1..], time);
      } else {
        var e := Entry(time, objs[0]);
        assert Insert([], e) == [e];
        assert HasTick([e], time) by { assert [e][0].lastSeen == time; }
        RefreshFromTicked([e], objs[1..], time);
      }
    }
  }

  /** The erase loop over a tile that is not visible: bullets are dropped
      (they are collected separately), and so is every entry last seen more
      than `MaxTrackTime` ticks ago. */
  function Forget(t: seq<Entry>, time: int): (r: seq<Entry>) {
    if |t| == 0 then []
    else if t[0].obj.BulletObj? || time - t[0].lastSeen > MaxTrackTime then Forget(t[1..], time)
    else [t[0]] + Forget(t[1..], time)
  }

  /** Kept entries are exactly the recent non-bullet entries, in order. */
  lemma {:induction false} ForgetKeeps(t: seq<Entry>, time: int)
    requires Ordered(t)
    ensures Ordered(Forget(t, time))
    ensures forall e :: e in Forget(t, time) <==>
      e in t && !e.obj.BulletObj? && time - e.lastSeen <= MaxTrackTime
    decreases |t|
  {
    if |t| > 0 {
      ForgetKeeps(t[1..], time);
      assert t == [t[0]] + t[1..];
      assert forall e :: e in Forget(t[1..], time) ==> t[0].lastSeen < e.lastSeen;
    }
  }

  /** The bullets erased from a tile that is not visible, with its cell. */
  function TileBullets(t: seq<Entry>, p: Pos): seq<(Bullet, Pos)> {
    if |t| == 0 then []
    else (if t[0].obj.BulletObj? then [(t[0].obj.bullet, p)] else []) + TileBullets(t[1..], p)
  }

  /** Exactly the tile's bullets are erased, each paired with the tile's cell. */
  lemma {:induction false} TileBulletsMembers(t: seq<Entry>, p: Pos, b: Bullet, q: Pos)
    ensures (b, q) in TileBullets(t, p) <==> q == p && exists k :: 0 <= k < |t| && t[k].obj == BulletObj(b)
    decreases |t|
  {
    if |t| > 0 {
      TileBulletsMembers(t[1..], p, b, q);
      if exists k :: 0 <= k < |t| && t[k].obj == BulletObj(b) {
        var k :| 0 <= k < |t| && t[k].obj == BulletObj(b);
        if k > 0 { assert t[1..][k - 1] == t[k]; }
      }
      if exists k :: 0 <= k < |t[1..]| && t[1..][k].obj == BulletObj(b) {
        var k :| 0 <= k < |t[1..]| && t[1..][k].obj == BulletObj(b);
        assert t[k + 1] == t[1..][k];
      }
    }
  }

  // ---------------------------------------------------------------------
  // The trajectory test

  /** The cell `k` steps from (x, y) along scan direction `i`. */
  function RayCell(x: int, y: int, i: nat, k: int): Pos
    requires i < 4
  {
    if i == 0 then Pos(x - k, y)
    else if i == 1 then Pos(x, y + k)
    else if i == 2 then Pos(x + k, y)
    else Pos(x, y - k)
  }

  /** The scan direction's cells 1..j all lie in the grid. */
  predicate RayInside(x: int, y: int, i: nat, j: int, dim: int)
    requires i < 4
  {
    forall k :: 1 <= k <= j ==> IsValid(RayCell(x, y, i, k), dim)
  }

  /** Bullets accepted for scan direction `i`: moving down for 0, up for 2,
      right for 3, left for 1. */
  predicate Approaches(b: Bullet, i: nat) {
    (b.direction == Down && i == 0) || (b.direction == Up && i == 2) ||
    (b.direction == Right && i == 3) || (b.direction == Left && i == 1)
  }

  predicate Threatening(o: TileObject, i: nat) {
    o.LaserObj? || (o.BulletObj? && Approaches(o.bullet, i))
  }

  predicate Threat(t: seq<Entry>, i: nat) {
    exists k :: 0 <= k < |t| && Threatening(t[k].obj, i)
  }

  /** `isOnBulletTraj` as written: for some scan direction `i` and step
      `j < 2 * numTicks` whose cells are all in the grid, the QUERIED tile
      (x, y), not the scanned one, holds a laser or an accepted bullet. */
  predicate OnBulletTraj(tiles: seq<seq<seq<Entry>>>, x: int, y: int, numTicks: int)
    requires 0 <= x < |tiles| && 0 <= y < |tiles[x]|
  {
    exists i, j :: 0 <= i < 4 && 1 <= j < 2 * numTicks && RayInside(x, y, i, j, |tiles|) &&
      Threat(tiles[x][y], i)
  }

  /** The scan length does not matter: the test reduces to the first step of
      each direction, and every `numTicks >= 1` gives the same answer, so the
      10-tick query of the search equals the 1-tick "next move" query. */
  lemma {:induction false} TrajectoryIsLocal(tiles: seq<seq<seq<Entry>>>, x: int, y: int, numTicks: int)
    requires 0 <= x < |tiles| && 0 <= y < |tiles[x]|
    ensures OnBulletTraj(tiles, x, y, numTicks) <==>
      numTicks >= 1 && exists i :: 0 <= i < 4 && IsValid(RayCell(x, y, i, 1), |tiles|) && Threat(tiles[x][y], i)
    ensures numTicks >= 1 ==> (OnBulletTraj(tiles, x, y, numTicks) <==> OnBulletTraj(tiles, x, y, 1))
  {
    if numTicks >= 1 {
      if i :| 0 <= i < 4 && IsValid(RayCell(x, y, i, 1), |tiles|) && Threat(tiles[x][y], i) {
        assert RayInside(x, y, i, 1, |tiles|);
      }
    }
  }

  /** Only the queried tile matters: two knowledge grids of the same size
      that agree at (x, y) agree on the test. */
  lemma {:induction false} TrajectoryReadsQueriedTile(tiles: seq<seq<seq<Entry>>>, other: seq<seq<seq<Entry>>>, x: int, y: int, numTicks: int)
    requires 0 <= x < |tiles| && 0 <= y < |tiles[x]|
    requires |other| == |tiles| && 0 <= y < |other[x]| && other[x][y] == tiles[x][y]
    ensures OnBulletTraj(tiles, x, y, numTicks) == OnBulletTraj(other, x, y, numTicks)
  {
  }

  // ---------------------------------------------------------------------
  // The update's specification

  /** Whether a snapshot object is a tank that carries a visibility mask. */
  predicate CarriesMask(o: TileObject, m: seq<seq<char>>) {
    o.TankObj? && o.tank.visibility == Some(m)
  }

  function ObjMasks(objs: seq<TileObject>): seq<seq<seq<char>>> {
    if |objs| == 0 then []
    else
      var own := if objs[0].TankObj? && objs[0].tank.visibility.Some? then [objs[0].tank.visibility.value] else [];
      own + ObjMasks(objs[1..])
  }

  function RowMasks(row: seq<Tile>): seq<seq<seq<char>>> {
    if |row| == 0 then [] else ObjMasks(row[0].objects) + RowMasks(row[1..])
  }

  /** The visibility masks of all tanks in the snapshot, in scan order. */
  function Masks(tiles: seq<seq<Tile>>): seq<seq<seq<char>>> {
    if |tiles| == 0 then [] else RowMasks(tiles[0]) + Masks(tiles[1..])
  }

  lemma {:induction false} ObjMasksMembers(objs: seq<TileObject>, m: seq<seq<char>>)
    ensures m in ObjMasks(objs) <==> exists k :: 0 <= k < |objs| && CarriesMask(objs[k], m)
    decreases |objs|
  {
    if |objs| > 0 {
      ObjMasksMembers(objs[1..], m);
      if exists k :: 0 <= k < |objs| && CarriesMask(objs[k], m) {
        var k :| 0 <= k < |objs| && CarriesMask(objs[k], m);
        if k > 0 { assert objs[1..][k - 1] == objs[k]; }
      }
      if exists k :: 0 <= k < |objs[1..]| && CarriesMask(objs[1..][k], m) {
        var k :| 0 <= k < |objs[1..]| && CarriesMask(objs[1..][k], m);
        assert objs[k + 1] == objs[1..][k];
      }
    }
  }

  lemma {:induction false} RowMasksMembers(row: seq<Tile>, m: seq<seq<char>>)
    ensures m in RowMasks(row) <==>
      exists j, k :: 0 <= j < |row| && 0 <= k < |row[j].objects| && CarriesMask(row[j].objects[k], m)
    decreases |row|
  {
    if |row| > 0 {
      RowMasksMembers(row[1..], m);
      ObjMasksMembers(row[0].objects, m);
      if exists j, k :: 0 <= j < |row| && 0 <= k < |row[j].objects| && CarriesMask(row[j].objects[k], m) {
        var j, k :| 0 <= j < |row| && 0 <= k < |row[j].objects| && CarriesMask(row[j].objects[k], m);
        if j > 0 { assert row[1..][j - 1] == row[j]; }
      }
      if exists j, k :: 0 <= j < |row[1..]| && 0 <= k < |row[1..][j].objects| && CarriesMask(row[1..][j].objects[k], m) {
        var j, k :| 0 <= j < |row[1..]| && 0 <= k < |row[1..][j].objects| && CarriesMask(row[1..][j].objects[k], m);
        assert row[j + 1] == row[1..][j];
      }
    }
  }

  /** The mask list holds exactly the masks carried by snapshot tanks. */
  lemma {:induction false} MasksMembers(tiles: seq<seq<Tile>>, m: seq<seq<char>>)
    ensures m in Masks(tiles) <==>
      exists i, j, k :: 0 <= i < |tiles| && 0 <= j < |tiles[i]| && 0 <= k < |tiles[i][j].objects| &&
        CarriesMask(tiles[i][j].objects[k], m)
    decreases |tiles|
  {
    if |tiles| > 0 {
      MasksMembers(tiles[1..], m);
      RowMasksMembers(tiles[0], m);
      if exists i, j, k :: (0 <= i < |tiles| && 0 <= j < |tiles[i]| && 0 <= k < |tiles[i][j].objects| &&
        CarriesMask(tiles[i][j].objects[k], m)) {
        var i, j, k :| 0 <= i < |tiles| && 0 <= j < |tiles[i]| && 0 <= k < |tiles[i][j].objects| &&
          CarriesMask(tiles[i][j].objects[k], m);
        if i > 0 { assert tiles[1..][i - 1] == tiles[i]; }
      }
      if exists i, j, k :: (0 <= i < |tiles[1..]| && 0 <= j < |tiles[1..][i]| && 0 <= k < |tiles[1..][i][j].objects| &&
        CarriesMask(tiles[1..][i][j].objects[k], m)) {
        var i, j, k :| 0 <= i < |tiles[1..]| && 0 <= j < |tiles[1..][i]| && 0 <= k < |tiles[1..][i][j].objects| &&
          CarriesMask(tiles[1..][i][j].objects[k], m);
        assert tiles[i + 1] == tiles[1..][i];
      }
    }
  }

  /** A snapshot the map can absorb: `dim` x `dim` tiles, and every tank's
      visibility mask of the same shape. */
  ghost predicate Snapshot(gs: GameState, dim: nat) {
    SquareTiles(gs.tiles, dim) &&
    forall l :: 0 <= l < |Masks(gs.tiles)| ==> IsGrid(Masks(gs.tiles)[l], dim)
  }

  /** Some of the first `n` masks has '1' at (x, y). */
  ghost predicate SeenBy(masks: seq<seq<seq<char>>>, n: nat, x: nat, y: nat)
    requires n <= |masks|
    requires forall l :: 0 <= l < n ==> x < |masks[l]| && y < |masks[l][x]|
  {
    exists l :: 0 <= l < n && masks[l][x][y] == '1'
  }

  /** `notifyMine` on one counter: restart it only when it has run out. */
  function Notified(live: int): (r: int)
    ensures live <= 0 ==> r == MineTrackTime
    ensures live > 0 ==> r == live
  {
    if live <= 0 then MineTrackTime else live
  }

  /** The visible-tile loop's effect on the counter: one notification per
      mine object. */
  function NotifyFrom(live: int, objs: seq<TileObject>): int
    decreases |objs|
  {
    if |objs| == 0 then live
    else NotifyFrom(if objs[0].MineObj? then Notified(live) else live, objs[1..])
  }

  predicate HasMine(objs: seq<TileObject>) {
    exists k :: 0 <= k < |objs| && objs[k].MineObj?
  }

  /** Repeated notifications act once: the counter restarts iff the tile
      shows a mine and the counter had run out. */
  lemma {:induction false} NotifyOnce(live: int, objs: seq<TileObject>)
    ensures NotifyFrom(live, objs) == if HasMine(objs) then Notified(live) else live
    decreases |objs|
  {
    if |objs| > 0 {
      var next := if objs[0].MineObj? then Notified(live) else live;
      NotifyOnce(next, objs[1..]);
      if HasMine(objs[1..]) {
        var k :| 0 <= k < |objs[1..]| && objs[1..][k].MineObj?;
        assert objs[k + 1].MineObj?;
      }
      if HasMine(objs) && !objs[0].MineObj? {
        var k :| 0 <= k < |objs| && objs[k].MineObj?;
        assert objs[1..][k - 1].MineObj?;
      }
    }
  }

  /** The mine counters after the scan: a visible tile showing a mine
      notifies its counter. */
  function Noticed(live: seq<seq<int>>, vis: seq<seq<bool>>, gs: GameState): (r: seq<seq<int>>)
    requires IsGrid(live, |live|) && IsGrid(vis, |live|) && SquareTiles(gs.tiles, |live|)
    ensures IsGrid(r, |live|)
  {
    seq(|live|, i requires 0 <= i < |live| =>
      seq(|live|, j requires 0 <= j < |live| =>
        if vis[i][j] && HasMine(gs.tiles[i][j].objects) then Notified(live[i][j]) else live[i][j]))
  }

  /** A tile after the scan: refreshed from the snapshot when visible,
      forgotten in part otherwise. */
  function ScanTile(old_t: seq<Entry>, visible: bool, objs: seq<TileObject>, time: int): seq<Entry> {
    if visible then Refresh(objs, time) else Forget(old_t, time)
  }

  function Scanned(tiles: seq<seq<seq<Entry>>>, vis: seq<seq<bool>>, gs: GameState): (r: seq<seq<seq<Entry>>>)
    requires IsGrid(tiles, |tiles|) && IsGrid(vis, |tiles|) && SquareTiles(gs.tiles, |tiles|)
    ensures IsGrid(r, |tiles|)
  {
    seq(|tiles|, i requires 0 <= i < |tiles| =>
      seq(|tiles|, j requires 0 <= j < |tiles| =>
        ScanTile(tiles[i][j], vis[i][j], gs.tiles[i][j].objects, gs.time)))
  }

  /** The bullets a cell hands over during the scan: none when visible. */
  function CellBullets(tiles: seq<seq<seq<Entry>>>, vis: seq<seq<bool>>, i: nat, j: nat): seq<(Bullet, Pos)>
    requires IsGrid(tiles, |tiles|) && IsGrid(vis, |tiles|) && i < |tiles| && j < |tiles|
  {
    if vis[i][j] then [] else TileBullets(tiles[i][j], Pos(i, j))
  }

  /** Bullets erased from the cells before (i, j) in row-major order. */
  function CollectBefore(tiles: seq<seq<seq<Entry>>>, vis: seq<seq<bool>>, i: nat, j: nat): seq<(Bullet, Pos)>
    requires IsGrid(tiles, |tiles|) && IsGrid(vis, |tiles|) && i <= |tiles| && j <= |tiles|
    requires i == |tiles| ==> j == 0
    decreases i, j
  {
    if j > 0 then CollectBefore(tiles, vis, i, j - 1) + CellBullets(tiles, vis, i, j - 1)
    else if i == 0 then []
    else CollectBefore(tiles, vis, i - 1, |tiles|)
  }

  /** All bullets erased by the scan, in scan order. */
  function Collected(tiles: seq<seq<seq<Entry>>>, vis: seq<seq<bool>>): seq<(Bullet, Pos)>
    requires IsGrid(tiles, |tiles|) && IsGrid(vis, |tiles|)
  {
    CollectBefore(tiles, vis, |tiles|, 0)
  }

  /** A remembered bullet of a cell that is not visible. */
  predicate HiddenBullet(tiles: seq<seq<seq<Entry>>>, vis: seq<seq<bool>>, b: Bullet, q: Pos)
    requires IsGrid(tiles, |tiles|) && IsGrid(vis, |tiles|)
  {
    IsValid(q, |tiles|) && !vis[q.x][q.y] &&
    exists k :: 0 <= k < |tiles[q.x][q.y]| && tiles[q.x][q.y][k].obj == BulletObj(b)
  }

  lemma {:induction false} CollectBeforeMembers(tiles: seq<seq<seq<Entry>>>, vis: seq<seq<bool>>, i: nat, j: nat, b: Bullet, q: Pos)
    requires IsGrid(tiles, |tiles|) && IsGrid(vis, |tiles|) && i <= |tiles| && j <= |tiles|
    requires i == |tiles| ==> j == 0
    ensures (b, q) in CollectBefore(tiles, vis, i, j) <==>
      HiddenBullet(tiles, vis, b, q) && (q.x < i || (q.x == i && q.y < j))
    decreases i, j
  {
    if j > 0 {
      CollectBeforeMembers(tiles, vis, i, j - 1, b, q);
      var cell := CellBullets(tiles, vis, i, j - 1);
      assert (b, q) in cell <==> HiddenBullet(tiles, vis, b, q) && q == Pos(i, j - 1) by {
        TileBulletsMembers(tiles[i][j - 1], Pos(i, j - 1), b, q);
      }
      assert (b, q) in CollectBefore(tiles, vis, i, j) <==> (b, q) in CollectBefore(tiles, vis, i, j - 1) || (b, q) in cell;
    } else if i > 0 {
      CollectBeforeMembers(tiles, vis, i - 1, |tiles|, b, q);
    }
  }

  /** The scan hands over exactly the remembered bullets of the cells that
      are not visible, each with its own cell. */
  lemma {:induction false} CollectedMembers(tiles: seq<seq<seq<Entry>>>, vis: seq<seq<bool>>, b: Bullet, q: Pos)
    requires IsGrid(tiles, |tiles|) && IsGrid(vis, |tiles|)
    ensures (b, q) in Collected(tiles, vis) <==> HiddenBullet(tiles, vis, b, q)
  {
    CollectBeforeMembers(tiles, vis, |tiles|, 0, b, q);
  }

  /** One projected bullet: up to `n` more cells along its direction,
      stopping at the border, each marked with the current tick. */
  function ProjectFrom(g: seq<seq<seq<Entry>>>, b: Bullet, p: Pos, time: int, n: nat): (r: seq<seq<seq<Entry>>>)
    requires IsGrid(g, |g|) && AllOrdered(g)
    ensures IsGrid(r, |g|) && AllOrdered(r)
    decreases n
  {
    if n == 0 then g
    else
      var q := Step(p, b.direction);
      if !IsValid(q, |g|) then g
      else ProjectFrom(SetCell(g, q, Insert(g[q.x][q.y], Entry(time, BulletObj(b)))), b, q, time, n - 1)
  }

  /** The projection loop over the collected bullets, two cells each. */
  function ProjectAll(g: seq<seq<seq<Entry>>>, bs: seq<(Bullet, Pos)>, time: int): (r: seq<seq<seq<Entry>>>)
    requires IsGrid(g, |g|) && AllOrdered(g)
    ensures IsGrid(r, |g|) && AllOrdered(r)
    decreases |bs|
  {
    if |bs| == 0 then g else ProjectAll(ProjectFrom(g, bs[0].0, bs[0].1, time, 2), bs[1..], time)
  }

  // ---------------------------------------------------------------------
  // Properties of the update

  /** Projection only adds entries tagged with the current tick and leaves
      every entry already present in place. */
  lemma {:induction false} ProjectFromMonotone(g: seq<seq<seq<Entry>>>, b: Bullet, p: Pos, time: int, n: nat, x: int, y: int)
    requires IsGrid(g, |g|) && AllOrdered(g) && 0 <= x < |g| && 0 <= y < |g|
    ensures forall e :: e in g[x][y] ==> e in ProjectFrom(g, b, p, time, n)[x][y]
    ensures forall e :: e in ProjectFrom(g, b, p, time, n)[x][y] ==> e in g[x][y] || e == Entry(time, BulletObj(b))
    ensures HasTick(g[x][y], time) ==> HasTick(ProjectFrom(g, b, p, time, n)[x][y], time)
    decreases n
  {
    if n > 0 {
      var q := Step(p, b.direction);
      if IsValid(q, |g|) {
        InsertSpec(g[q.x][q.y], Entry(time, BulletObj(b)));
        var g' := SetCell(g, q, Insert(g[q.x][q.y], Entry(time, BulletObj(b))));
        ProjectFromMonotone(g', b, q, time, n - 1, x, y);
      }
    }
  }

  lemma {:induction false} ProjectAllMonotone(g: seq<seq<seq<Entry>>>, bs: seq<(Bullet, Pos)>, time: int, x: int, y: int)
    requires IsGrid(g, |g|) && AllOrdered(g) && 0 <= x < |g| && 0 <= y < |g|
    ensures forall e :: e in g[x][y] ==> e in ProjectAll(g, bs, time)[x][y]
    ensures forall e :: e in ProjectAll(g, bs, time)[x][y] ==>
      e in g[x][y] || (e.lastSeen == time && e.obj.BulletObj?)
    ensures HasTick(g[x][y], time) ==> HasTick(ProjectAll(g, bs, time)[x][y], time)
    decreases |bs|
  {
    if |bs| > 0 {
      var g' := ProjectFrom(g, bs[0].0, bs[0].1, time, 2);
      ProjectFromMonotone(g, bs[0].0, bs[0].1, time, 2, x, y);
      ProjectAllMonotone(g', bs[1..], time, x, y);
    }
  }

  /** A projected bullet marks the cells one and two steps ahead with the
      current tick, as far as they are inside the grid. */
  lemma {:induction false} ProjectFromMarks(g: seq<seq<seq<Entry>>>, b: Bullet, p: Pos, time: int)
    requires IsGrid(g, |g|) && AllOrdered(g)
    ensures var q1 := Step(p, b.direction);
      IsValid(q1, |g|) ==> HasTick(ProjectFrom(g, b, p, time, 2)[q1.x][q1.y], time)
    ensures var q1 := Step(p, b.direction); var q2 := Step(q1, b.direction);
      IsValid(q1, |g|) && IsValid(q2, |g|) ==> HasTick(ProjectFrom(g, b, p, time, 2)[q2.x][q2.y], time)
  {
    var q1 := Step(p, b.direction);
    if IsValid(q1, |g|) {
      InsertSpec(g[q1.x][q1.y], Entry(time, BulletObj(b)));
      var g1 := SetCell(g, q1, Insert(g[q1.x][q1.y], Entry(time, BulletObj(b))));
      assert ProjectFrom(g, b, p, time, 2) == ProjectFrom(g1, b, q1, time, 1);
      ProjectFromMonotone(g1, b, q1, time, 1, q1.x, q1.y);
      var q2 := Step(q1, b.direction);
      if IsValid(q2, |g|) {
        InsertSpec(g1[q2.x][q2.y], Entry(time, BulletObj(b)));
        var g2 := SetCell(g1, q2, Insert(g1[q2.x][q2.y], Entry(time, BulletObj(b))));
        assert ProjectFrom(g1, b, q1, time, 1) == ProjectFrom(g2, b, q2, time, 0);
      }
    }
  }

  /** Every collected bullet marks its next one or two in-grid cells. */
  lemma {:induction false} ProjectAllMarks(g: seq<seq<seq<Entry>>>, bs: seq<(Bullet, Pos)>, time: int, n: nat)
    requires IsGrid(g, |g|) && AllOrdered(g) && n < |bs|
    ensures var b := bs[n].0; var q1 := Step(bs[n].1, b.direction); var q2 := Step(q1, b.direction);
      (IsValid(q1, |g|) ==> HasTick(ProjectAll(g, bs, time)[q1.x][q1.y], time)) &&
      (IsValid(q1, |g|) && IsValid(q2, |g|) ==> HasTick(ProjectAll(g, bs, time)[q2.x][q2.y], time))
    decreases n
  {
    var g' := ProjectFrom(g, bs[0].0, bs[0].1, time, 2);
    if n == 0 {
      ProjectFromMarks(g, bs[0].0, bs[0].1, time);
      var b := bs[0].0;
      var q1 := Step(bs[0].1, b.direction);
      var q2 := Step(q1, b.direction);
      if IsValid(q1, |g|) { ProjectAllMonotone(g', bs[1..], time, q1.x, q1.y); }
      if IsValid(q1, |g|) && IsValid(q2, |g|) { ProjectAllMonotone(g', bs[1..], time, q2.x, q2.y); }
    } else {
      ProjectAllMarks(g', bs[1..], time, n - 1);
      assert bs[1..][n - 1] == bs[n];
    }
  }

  /** After the update a visible cell holds at most one entry, and it is
      tagged with the current tick: the first non-wall object of the
      snapshot when there is one, otherwise at most a projected bullet. */
  lemma {:induction false} VisibleTileAfterUpdate(tiles: seq<seq<seq<Entry>>>, vis: seq<seq<bool>>, gs: GameState, x: int, y: int)
    requires IsGrid(tiles, |tiles|) && IsGrid(vis, |tiles|) && SquareTiles(gs.tiles, |tiles|)
    requires AllOrdered(tiles)
    requires 0 <= x < |tiles| && 0 <= y < |tiles| && vis[x][y]
    ensures var t := ProjectAll(AllScanned(tiles, vis, gs), Collected(tiles, vis), gs.time)[x][y];
      |t| <= 1 && (forall e :: e in t ==> e.lastSeen == gs.time) &&
      (FirstNonWall(gs.tiles[x][y].objects).Some? ==> t == [Entry(gs.time, FirstNonWall(gs.tiles[x][y].objects).value)])
  {
    var s := AllScanned(tiles, vis, gs);
    var objs := gs.tiles[x][y].objects;
    RefreshKeepsFirst(objs, gs.time);
    assert s[x][y] == Refresh(objs, gs.time);
    var bs := Collected(tiles, vis);
    var t := ProjectAll(s, bs, gs.time)[x][y];
    ProjectAllMonotone(s, bs, gs.time, x, y);
    match FirstNonWall(objs)
    case Some(o) =>
      var e := Entry(gs.time, o);
      assert s[x][y] == [e];
      assert HasTick([e], gs.time) by { assert [e][0].lastSeen == gs.time; }
      assert t == [e] by {
        ProjectAllSettled(s, bs, gs.time, x, y);
      }
    case None =>
      assert s[x][y] == [];
      ProjectAllOneTick(s, bs, gs.time, x, y);
  }

  /** A tile that already has an entry for the current tick is not changed
      by projection. */
  lemma {:induction false} ProjectAllSettled(g: seq<seq<seq<Entry>>>, bs: seq<(Bullet, Pos)>, time: int, x: int, y: int)
    requires IsGrid(g, |g|) && AllOrdered(g) && 0 <= x < |g| && 0 <= y < |g|
    requires HasTick(g[x][y], time)
    ensures ProjectAll(g, bs, time)[x][y] == g[x][y]
    decreases |bs|
  {
    if |bs| > 0 {
      var g' := ProjectFrom(g, bs[0].0, bs[0].1, time, 2);
      ProjectFromSettled(g, bs[0].0, bs[0].1, time, 2, x, y);
      ProjectAllSettled(g', bs[1..], time, x, y);
    }
  }

  lemma {:induction false} ProjectFromSettled(g: seq<seq<seq<Entry>>>, b: Bullet, p: Pos, time: int, n: nat, x: int, y: int)
    requires IsGrid(g, |g|) && AllOrdered(g) && 0 <= x < |g| && 0 <= y < |g|
    requires HasTick(g[x][y], time)
    ensures ProjectFrom(g, b, p, time, n)[x][y] == g[x][y]
    decreases n
  {
    if n > 0 {
      var q := Step(p, b.direction);
      if IsValid(q, |g|) {
        InsertSpec(g[q.x][q.y], Entry(time, BulletObj(b)));
        var g' := SetCell(g, q, Insert(g[q.x][q.y], Entry(time, BulletObj(b))));
        ProjectFromSettled(g', b, q, time, n - 1, x, y);
      }
    }
  }

  /** An ordered tile with two entries spans two different ticks. */
  lemma {:induction false} TwoTicks(t: seq<Entry>)
    requires Ordered(t) && |t| >= 2
    ensures exists e1, e2 :: e1 in t && e2 in t && e1.lastSeen < e2.lastSeen
  {
    assert t[0] in t && t[1] in t;
  }

  /** Starting from an empty tile, projection leaves at most one entry. */
  lemma {:induction false} ProjectAllOneTick(g: seq<seq<seq<Entry>>>, bs: seq<(Bullet, Pos)>, time: int, x: int, y: int)
    requires IsGrid(g, |g|) && AllOrdered(g) && 0 <= x < |g| && 0 <= y < |g|
    requires g[x][y] == []
    ensures var t := ProjectAll(g, bs, time)[x][y];
      |t| <= 1 && forall e :: e in t ==> e.lastSeen == time
  {
    ProjectAllMonotone(g, bs, time, x, y);
    var t := ProjectAll(g, bs, time)[x][y];
    assert forall i :: 0 <= i < |t| ==> t[i].lastSeen == time by {
      forall i | 0 <= i < |t| ensures t[i].lastSeen == time {
        assert t[i] in t;
      }
    }
    if |t| >= 2 {
      TwoTicks(t);
      assert false;
    }

  }

  /** The tiles right after the scan phase. */
  function AllScanned(tiles: seq<seq<seq<Entry>>>, vis: seq<seq<bool>>, gs: GameState): (r: seq<seq<seq<Entry>>>)
    requires IsGrid(tiles, |tiles|) && IsGrid(vis, |tiles|) && SquareTiles(gs.tiles, |tiles|)
    requires AllOrdered(tiles)
    ensures IsGrid(r, |tiles|) && AllOrdered(r)
    ensures forall i, j :: 0 <= i < |tiles| && 0 <= j < |tiles| ==>
      r[i][j] == ScanTile(tiles[i][j], vis[i][j], gs.tiles[i][j].objects, gs.time)
  {
    var r := Scanned(tiles, vis, gs);
    forall i, j | 0 <= i < |tiles| && 0 <= j < |tiles| ensures Ordered(r[i][j]) {
      if !vis[i][j] { ForgetKeeps(tiles[i][j], gs.time); }
    }
    r
  }

  /** A cell that is not visible keeps only its recent non-bullet entries
      and the bullets projected onto it this tick. */
  lemma {:induction false} HiddenTileAfterUpdate(tiles: seq<seq<seq<Entry>>>, vis: seq<seq<bool>>, gs: GameState, x: int, y: int)
    requires IsGrid(tiles, |tiles|) && IsGrid(vis, |tiles|) && SquareTiles(gs.tiles, |tiles|)
    requires AllOrdered(tiles)
    requires 0 <= x < |tiles| && 0 <= y < |tiles| && !vis[x][y]
    ensures var t := ProjectAll(AllScanned(tiles, vis, gs), Collected(tiles, vis), gs.time)[x][y];
      forall e :: e in t ==>
        (e in tiles[x][y] && !e.obj.BulletObj? && gs.time - e.lastSeen <= MaxTrackTime) ||
        (e.lastSeen == gs.time && e.obj.BulletObj?)
    ensures var t := ProjectAll(AllScanned(tiles, vis, gs), Collected(tiles, vis), gs.time)[x][y];
      forall e :: e in tiles[x][y] && !e.obj.BulletObj? && gs.time - e.lastSeen <= MaxTrackTime ==> e in t
  {
    var s := AllScanned(tiles, vis, gs);
    ForgetKeeps(tiles[x][y], gs.time);
    ProjectAllMonotone(s, Collected(tiles, vis), gs.time, x, y);
  }

  /** What `update` makes of a knowledge map, one part at a time: the
      cells some tank sees, the remembered tiles, and the mine counters. */
  ghost function Visibility(gs: GameState, dim: nat): (v: seq<seq<bool>>)
    requires Snapshot(gs, dim)
    ensures IsGrid(v, dim)
    ensures forall x, y :: 0 <= x < dim && 0 <= y < dim ==> (v[x][y] <==> SeenBy(Masks(gs.tiles), |Masks(gs.tiles)|, x, y))
  {
    seq(dim, x requires 0 <= x < dim =>
      seq(dim, y requires 0 <= y < dim => SeenBy(Masks(gs.tiles), |Masks(gs.tiles)|, x, y)))
  }

  ghost function UpdatedTiles(tiles: seq<seq<seq<Entry>>>, gs: GameState): seq<seq<seq<Entry>>>
    requires IsGrid(tiles, |tiles|) && AllOrdered(tiles) && Snapshot(gs, |tiles|)
  {
    var vis := Visibility(gs, |tiles|);
    ProjectAll(AllScanned(tiles, vis, gs), Collected(tiles, vis), gs.time)
  }

  ghost function DecayedMines(m: seq<seq<int>>, gs: GameState): (r: seq<seq<int>>)
    requires IsGrid(m, |m|) && Snapshot(gs, |m|)
    ensures IsGrid(r, |m|)
    ensures forall x, y :: 0 <= x < |m| && 0 <= y < |m| ==>
      r[x][y] == (if Visibility(gs, |m|)[x][y] && HasMine(gs.tiles[x][y].objects) then Notified(m[x][y]) else m[x][y]) - 1
  {
    var vis := Visibility(gs, |m|);
    seq(|m|, x requires 0 <= x < |m| =>
      seq(|m|, y requires 0 <= y < |m| =>
        (if vis[x][y] && HasMine(gs.tiles[x][y].objects) then Notified(m[x][y]) else m[x][y]) - 1))
  }

  // ---------------------------------------------------------------------
  // The map itself

  class KnowledgeMap {
    var tiles: seq<seq<seq<Entry>>>
    var minesLiveness: seq<seq<int>>
    var isVisible: seq<seq<bool>>

    /** `tiles.size()`. */
    function Dim(): nat
      reads this
    {
      |tiles|
    }

    ghost predicate Valid()
      reads this
    {
      IsGrid(tiles, |tiles|) && IsGrid(minesLiveness, |tiles|) && IsGrid(isVisible, |tiles|) &&
      AllOrdered(tiles)
    }

    /** A default-constructed map, before `init`. */
    constructor ()
      ensures Valid() && Dim() == 0
    {
      tiles, minesLiveness, isVisible := [], [], [];
    }

    /** `init(dim)`: empty tiles, run-out counters, nothing visible. */
    method Init(dim: nat)
      modifies this
      ensures Valid() && Dim() == dim
      ensures forall x, y :: 0 <= x < dim && 0 <= y < dim ==>
        tiles[x][y] == [] && minesLiveness[x][y] == 0 && !isVisible[x][y]
    {
      tiles := Fill(dim, []);
      minesLiveness := Fill(dim, 0);
      isVisible := Fill(dim, false);
    }

    /** `isOnBulletTraj(x, y, numTicks)`, with its scan loops. */
    method IsOnBulletTraj(x: int, y: int, numTicks: int) returns (b: bool)
      requires Valid() && 0 <= x < Dim() && 0 <= y < Dim()
      ensures b == OnBulletTraj(tiles, x, y, numTicks)
    {
      var dim := |tiles|;
      var t := tiles[x][y];
      for i := 0 to 4
        invariant forall i', j :: 0 <= i' < i && 1 <= j < 2 * numTicks && RayInside(x, y, i', j, dim) ==> !Threat(t, i')
      {
        var j := 1;
        while j < 2 * numTicks
          invariant 1 <= j
          invariant RayInside(x, y, i, j - 1, dim)
          invariant j > 1 ==> !Threat(t, i)
        {
          var c := RayCell(x, y, i, j);
          if !IsValid(c, dim) {
            break;
          }
          assert RayInside(x, y, i, j, dim);
          for k := 0 to |t|
            invariant forall k' :: 0 <= k' < k ==> !Threatening(t[k'].obj, i)
          {
            if t[k].obj.BulletObj? {
              var bullet := t[k].obj.bullet;
              if bullet.direction == Down && i == 0 { assert Threatening(t[k].obj, i); return true; }
              if bullet.direction == Up && i == 2 { assert Threatening(t[k].obj, i); return true; }
              if bullet.direction == Right && i == 3 { assert Threatening(t[k].obj, i); return true; }
              if bullet.direction == Left && i == 1 { assert Threatening(t[k].obj, i); return true; }
            } else if t[k].obj.LaserObj? {
              assert Threatening(t[k].obj, i);
              return true;
            }
          }
          j := j + 1;
        }
      }
      return false;
    }

    /** `willBeHitByBulletInNextMove`: the trajectory test for one tick. */
    method WillBeHitByBulletInNextMove(x: int, y: int) returns (b: bool)
      requires Valid() && 0 <= x < Dim() && 0 <= y < Dim()
      ensures b == OnBulletTraj(tiles, x, y, 1)
    {
      b := IsOnBulletTraj(x, y, 1);
    }

    /** `notifyMine`: restart the counter of `p` only if it has run out. */
    method NotifyMine(p: Pos)
      requires Valid() && IsValid(p, Dim())
      modifies this
      ensures Valid() && tiles == old(tiles) && isVisible == old(isVisible)
      ensures forall x, y :: 0 <= x < Dim() && 0 <= y < Dim() ==>
        minesLiveness[x][y] ==
          if x == p.x && y == p.y then Notified(old(minesLiveness)[x][y]) else old(minesLiveness)[x][y]
    {
      if minesLiveness[p.x][p.y] <= 0 {
        minesLiveness := SetCell(minesLiveness, p, MineTrackTime);
      }
    }

    /** `containsMine`. */
    predicate ContainsMine(p: Pos)
      requires Valid() && IsValid(p, Dim())
      reads this
    {
      minesLiveness[p.x][p.y] > 0
    }

    /** `update`: visibility, the per-cell scan, the bullet projection and
      the mine countdown, in this order. */
    method Update(gs: GameState)
      requires Valid() && Snapshot(gs, Dim())
      modifies this
      ensures Valid() && Dim() == old(Dim())
      ensures isVisible == Visibility(gs, Dim())
      ensures tiles == UpdatedTiles(old(tiles), gs) && minesLiveness == DecayedMines(old(minesLiveness), gs)
    {
      ComputeVisibility(gs);
      var bullets := ScanCells(gs);
      ProjectBullets(bullets, gs.time);
      DecayMines();
      forall x | 0 <= x < Dim()
        ensures isVisible[x] == Visibility(gs, Dim())[x]
        ensures minesLiveness[x] == DecayedMines(old(minesLiveness), gs)[x]
      {
      }
    }

    /** The first phase of `update`: a cell is visible iff some tank's mask
      has '1' there. */
    method ComputeVisibility(gs: GameState)
      requires Valid() && Snapshot(gs, Dim())
      modifies this
      ensures Valid() && tiles == old(tiles) && minesLiveness == old(minesLiveness)
      ensures forall x, y :: 0 <= x < Dim() && 0 <= y < Dim() ==>
        (isVisible[x][y] <==> SeenBy(Masks(gs.tiles), |Masks(gs.tiles)|, x, y))
    {
      var dim := |tiles|;
      isVisible := Fill(dim, false);
      var masks := Masks(gs.tiles);
      for l := 0 to |masks|
        invariant Valid() && tiles == old(tiles) && minesLiveness == old(minesLiveness)
        invariant forall x, y :: 0 <= x < dim && 0 <= y < dim ==> (isVisible[x][y] <==> SeenBy(masks, l, x, y))
      {
        var m := masks[l];
        for x := 0 to dim
          invariant Valid() && tiles == old(tiles) && minesLiveness == old(minesLiveness)
          invariant forall a, b :: 0 <= a < dim && 0 <= b < dim ==>
            (isVisible[a][b] <==> SeenBy(masks, l, a, b) || (a < x && m[a][b] == '1'))
        {
          for y := 0 to dim
            invariant Valid() && tiles == old(tiles) && minesLiveness == old(minesLiveness)
            invariant forall a, b :: 0 <= a < dim && 0 <= b < dim ==>
              (isVisible[a][b] <==> SeenBy(masks, l, a, b) || ((a < x || (a == x && b < y)) && m[a][b] == '1'))
          {
            if m[x][y] == '1' {
              isVisible := SetCell(isVisible, Pos(x, y), true);
            }
          }
        }
        assert forall a, b :: 0 <= a < dim && 0 <= b < dim ==>
          (SeenBy(masks, l + 1, a, b) <==> SeenBy(masks, l, a, b) || m[a][b] == '1');
      }
    }

    /** The second phase of `update`: visible tiles are rebuilt from the
      snapshot (noting mines), the others lose bullets and stale entries;
      the erased bullets are returned with their cells, in scan order. */
    method ScanCells(gs: GameState) returns (bullets: seq<(Bullet, Pos)>)
      requires Valid() && Snapshot(gs, Dim())
      modifies this
      ensures Valid() && Dim() == old(Dim()) && isVisible == old(isVisible)
      ensures bullets == Collected(old(tiles), isVisible)
      ensures tiles == AllScanned(old(tiles), isVisible, gs)
      ensures minesLiveness == Noticed(old(minesLiveness), isVisible, gs)
    {
      var dim := |tiles|;
      ghost var t0, l0 := tiles, minesLiveness;
      ghost var target := AllScanned(t0, isVisible, gs);
      ghost var liveTarget := Noticed(l0, isVisible, gs);
      OverlayEnds(t0, target);
      OverlayEnds(l0, liveTarget);
      bullets := [];
      for i := 0 to dim
        invariant isVisible == old(isVisible)
        invariant tiles == Overlay(t0, target, i, 0) && minesLiveness == Overlay(l0, liveTarget, i, 0)
        invariant bullets == CollectBefore(t0, isVisible, i, 0)
      {
        bullets := ScanRow(gs, i, t0, l0, bullets);
      }
    }

    /** Row `i` of the scan, cell by cell. */
    method ScanRow(gs: GameState, i: nat, ghost t0: seq<seq<seq<Entry>>>, ghost l0: seq<seq<int>>,
                   bullets0: seq<(Bullet, Pos)>) returns (bullets: seq<(Bullet, Pos)>)
      requires IsGrid(t0, |t0|) && AllOrdered(t0) && IsGrid(l0, |t0|) && IsGrid(isVisible, |t0|)
      requires SquareTiles(gs.tiles, |t0|) && i < |t0|
      requires tiles == Overlay(t0, AllScanned(t0, isVisible, gs), i, 0)
      requires minesLiveness == Overlay(l0, Noticed(l0, isVisible, gs), i, 0)
      requires bullets0 == CollectBefore(t0, isVisible, i, 0)
      modifies this
      ensures isVisible == old(isVisible)
      ensures tiles == Overlay(t0, AllScanned(t0, isVisible, gs), i + 1, 0)
      ensures minesLiveness == Overlay(l0, Noticed(l0, isVisible, gs), i + 1, 0)
      ensures bullets == CollectBefore(t0, isVisible, i + 1, 0)
    {
      var dim := |tiles|;
      ghost var target := AllScanned(t0, isVisible, gs);
      ghost var liveTarget := Noticed(l0, isVisible, gs);
      bullets := bullets0;
      for j := 0 to dim
        invariant isVisible == old(isVisible)
        invariant tiles == Overlay(t0, target, i, j) && minesLiveness == Overlay(l0, liveTarget, i, j)
        invariant bullets == CollectBefore(t0, isVisible, i, j)
      {
        OverlayStep(t0, target, i, j);
        OverlayStep(l0, liveTarget, i, j);
        var erased := ScanCell(gs, Pos(i, j));
        bullets := bullets + erased;
      }
      OverlayRowEnd(t0, target, i);
      OverlayRowEnd(l0, liveTarget, i);
    }

    /** One cell of the scan: a visible tile is refreshed from the snapshot
      and notes its mines; any other tile forgets, handing back its bullets. */
    method ScanCell(gs: GameState, p: Pos) returns (erased: seq<(Bullet, Pos)>)
      requires IsGrid(tiles, |tiles|) && IsGrid(minesLiveness, |tiles|) && IsGrid(isVisible, |tiles|)
      requires SquareTiles(gs.tiles, |tiles|) && IsValid(p, |tiles|) && Ordered(tiles[p.x][p.y])
      modifies this
      ensures isVisible == old(isVisible)
      ensures erased == if isVisible[p.x][p.y] then [] else TileBullets(old(tiles)[p.x][p.y], p)
      ensures tiles == SetCell(old(tiles), p,
        ScanTile(old(tiles)[p.x][p.y], isVisible[p.x][p.y], gs.tiles[p.x][p.y].objects, gs.time))
      ensures minesLiveness == SetCell(old(minesLiveness), p,
        if isVisible[p.x][p.y] && HasMine(gs.tiles[p.x][p.y].objects)
        then Notified(old(minesLiveness)[p.x][p.y]) else old(minesLiveness)[p.x][p.y])
    {
      if isVisible[p.x][p.y] {
        var t, live := RefreshTile(gs.tiles[p.x][p.y].objects, gs.time, minesLiveness[p.x][p.y]);
        tiles := SetCell(tiles, p, t);
        minesLiveness := SetCell(minesLiveness, p, live);
        erased := [];
      } else {
        var kept;
        kept, erased := ForgetTile(tiles[p.x][p.y], gs.time, p);
        tiles := SetCell(tiles, p, kept);
        SetCellSame(minesLiveness, p);
      }
    }

    /** The third phase of `update`: each erased bullet is re-inserted, with
      the current tick, up to two cells ahead, stopping at the border. */
    method ProjectBullets(bullets: seq<(Bullet, Pos)>, time: int)
      requires Valid()
      modifies this
      ensures Valid() && isVisible == old(isVisible) && minesLiveness == old(minesLiveness)
      ensures tiles == ProjectAll(old(tiles), bullets, time)
    {
      for n := 0 to |bullets|
        invariant Valid() && |tiles| == |old(tiles)| && isVisible == old(isVisible) && minesLiveness == old(minesLiveness)
        invariant ProjectAll(tiles, bullets[n..], time) == ProjectAll(old(tiles), bullets, time)
      {
        assert bullets[n..][1..] == bullets[n + 1..];
        ProjectBullet(bullets[n].0, bullets[n].1, time);
      }
    }

    /** One bullet of the projection loop: up to two cells ahead of it, while
        they are on the map, each gain an entry for the bullet at the current
        tick. */
    method ProjectBullet(b: Bullet, pos: Pos, time: int)
      requires Valid()
      modifies this
      ensures Valid() && isVisible == old(isVisible) && minesLiveness == old(minesLiveness)
      ensures tiles == ProjectFrom(old(tiles), b, pos, time, 2)
    {
      var p := pos;
      var i := 0;
      while i < 2
        invariant 0 <= i <= 2
        invariant Valid() && |tiles| == |old(tiles)| && isVisible == old(isVisible) && minesLiveness == old(minesLiveness)
        invariant ProjectFrom(tiles, b, p, time, 2 - i) == ProjectFrom(old(tiles), b, pos, time, 2)
      {
        var q := Step(p, b.direction);
        if !IsValid(q, |tiles|) {
          break;
        }
        tiles := SetCell(tiles, q, Insert(tiles[q.x][q.y], Entry(time, BulletObj(b))));
        p := q;
        i := i + 1;
      }
    }

    /** The last phase of `update`: every mine counter drops by one. */
    method DecayMines()
      requires Valid()
      modifies this
      ensures Valid() && tiles == old(tiles) && isVisible == old(isVisible)
      ensures forall x, y :: 0 <= x < Dim() && 0 <= y < Dim() ==> minesLiveness[x][y] == old(minesLiveness)[x][y] - 1
    {
      var dim := |minesLiveness|;
      for i := 0 to dim
        invariant Valid() && tiles == old(tiles) && isVisible == old(isVisible)
        invariant forall a, b :: 0 <= a < dim && 0 <= b < dim ==>
          minesLiveness[a][b] == if a < i then old(minesLiveness)[a][b] - 1 else old(minesLiveness)[a][b]
      {
        for j := 0 to dim
          invariant Valid() && tiles == old(tiles) && isVisible == old(isVisible)
          invariant forall a, b :: 0 <= a < dim && 0 <= b < dim ==>
            minesLiveness[a][b] == if a < i || (a == i && b < j) then old(minesLiveness)[a][b] - 1 else old(minesLiveness)[a][b]
        {
          minesLiveness := SetCell(minesLiveness, Pos(i, j), minesLiveness[i][j] - 1);
        }
      }
    }
  }

  /** The loop over a visible tile's snapshot objects: each mine notifies the
      counter, each non-wall object is inserted with the current tick. */
  method RefreshTile(objs: seq<TileObject>, time: int, live0: int) returns (t: seq<Entry>, live: int)
    ensures t == Refresh(objs, time) && Ordered(t)
    ensures live == if HasMine(objs) then Notified(live0) else live0
  {
    t := [];
    live := live0;
    for k := 0 to |objs|
      invariant Ordered(t)
      invariant RefreshFrom(t, objs[k..], time) == Refresh(objs, time)
      invariant NotifyFrom(live, objs[k..]) == NotifyFrom(live0, objs)
    {
      assert objs[k..][1..] == objs[k + 1..];
      if objs[k].MineObj? {
        // notifyMine on this cell
        if live <= 0 {
          live := MineTrackTime;
        }
      }
      if !objs[k].WallObj? {
        t := Insert(t, Entry(time, objs[k]));
      }
    }
    assert objs[|objs|..] == [];
    NotifyOnce(live0, objs);
  }

  /** The erase loop over a tile that is not visible: bullets are taken out
      (and returned with the cell), entries older than `MaxTrackTime` ticks
      are dropped, the rest is kept in order. */
  method ForgetTile(t: seq<Entry>, time: int, p: Pos) returns (kept: seq<Entry>, erased: seq<(Bullet, Pos)>)
    requires Ordered(t)
    ensures kept == Forget(t, time) && erased == TileBullets(t, p) && Ordered(kept)
    ensures forall e :: e in kept <==> e in t && !e.obj.BulletObj? && time - e.lastSeen <= MaxTrackTime
  {
    kept, erased := [], [];
    for k := 0 to |t|
      invariant kept + Forget(t[k..], time) == Forget(t, time)
      invariant erased + TileBullets(t[k..], p) == TileBullets(t, p)
    {
      assert t[k..][1..] == t[k + 1..];
      if t[k].obj.BulletObj? {
        erased := erased + [(t[k].obj.bullet, p)];
      } else if time - t[k].lastSeen > MaxTrackTime {
        // erased
      } else {
        kept := kept + [t[k]];
      }
    }
    assert t[|t|..] == [];
    ForgetKeeps(t, time);
  }
}
