/** What a tank of the bot perceives from one snapshot: the scans along its
    turret (`canSeeTank`, `willFireHitForSure`), the closest bullet on its row
    or column, the healing bullets and the teammate. Everything here is a
    value-level specification; the loops that compute it live in the
    tactics module. */
module BotPerception {
  import opened Wrappers
  import opened BotPackets
  import opened BotGeometry
  import opened BotKnowledge

  /** The grids a scan looks at: the cached wall types (2 solid, 1
      penetrable, 0 none), this tick's visibility and the snapshot tiles. */
  datatype Sight = Sight(dim: nat, wallType: seq<seq<int>>, isVisible: seq<seq<bool>>, tiles: seq<seq<Tile>>)

  ghost predicate SightOk(s: Sight) {
    IsGrid(s.wallType, s.dim) && IsGrid(s.isVisible, s.dim) && SquareTiles(s.tiles, s.dim)
  }

  /** The cell `m` steps from `c` along `d`. */
  function Ray(c: Pos, d: Direction, m: nat): Pos {
    Pos(c.x + m * Delta(d).x, c.y + m * Delta(d).y)
  }

  lemma {:induction false} RayShift(c: Pos, d: Direction, m: nat)
    ensures Ray(Step(c, d), d, m) == Ray(c, d, m + 1)
    ensures Ray(c, d, 1) == Step(c, d)
  {
    match d {
      case Up => case Right => case Down => case Left =>
    }
  }

  /** The objects of a tile, or none outside the grid. */
  function TileAt(s: Sight, p: Pos): seq<TileObject>
    requires SightOk(s)
  {
    if IsValid(p, s.dim) then s.tiles[p.x][p.y].objects else []
  }

  /** A scan goes on through a cell that is in the grid, not a solid wall and
      visible this tick; penetrable walls do not stop it. */
  predicate Passable(s: Sight, c: Pos)
    requires SightOk(s)
  {
    IsValid(c, s.dim) && s.wallType[c.x][c.y] != 2 && s.isVisible[c.x][c.y]
  }

  /** A scan of at most `k` cells from `c` along `d`: each passable cell's
      objects give a verdict (true, false, or carry on). */
  function Scan(s: Sight, c: Pos, d: Direction, k: nat, verdict: seq<TileObject> -> Option<bool>): bool
    requires SightOk(s)
    decreases k
  {
    if k == 0 then false
    else
      var n := Step(c, d);
      if !Passable(s, n) then false
      else match verdict(TileAt(s, n))
        case Some(b) => b
        case None => Scan(s, n, d, k - 1, verdict)
  }

  /** Cells 1..j are passable and cells 1..j-1 gave no verdict. */
  ghost predicate ClearTo(s: Sight, c: Pos, d: Direction, j: nat, verdict: seq<TileObject> -> Option<bool>)
    requires SightOk(s)
  {
    forall m :: 1 <= m <= j ==>
      Passable(s, Ray(c, d, m)) && (m < j ==> verdict(TileAt(s, Ray(c, d, m))) == None)
  }

  lemma {:induction false} ClearShift(s: Sight, c: Pos, d: Direction, j: nat, verdict: seq<TileObject> -> Option<bool>)
    requires SightOk(s) && j >= 1
    requires Passable(s, Step(c, d)) && verdict(TileAt(s, Step(c, d))) == None
    ensures ClearTo(s, c, d, j + 1, verdict) <==> ClearTo(s, Step(c, d), d, j, verdict)
  {
    forall m | 0 <= m {
      RayShift(c, d, m);
    }
    RayShift(c, d, 0);
    if ClearTo(s, Step(c, d), d, j, verdict) {
      forall m | 1 <= m <= j + 1
        ensures Passable(s, Ray(c, d, m)) && (m < j + 1 ==> verdict(TileAt(s, Ray(c, d, m))) == None)
      {
        if m > 1 {
          assert Ray(c, d, m) == Ray(Step(c, d), d, m - 1);
        }
      }
    }
    if ClearTo(s, c, d, j + 1, verdict) {
      forall m | 1 <= m <= j
        ensures Passable(s, Ray(Step(c, d), d, m)) && (m < j ==> verdict(TileAt(s, Ray(Step(c, d), d, m))) == None)
      {
        assert Ray(Step(c, d), d, m) == Ray(c, d, m + 1);
      }
    }
  }

  /** A scan is cut at its first cell when that cell is not passable, and
      decided there when that cell gives a verdict. */
  lemma {:induction false} FirstCellCuts(s: Sight, c: Pos, d: Direction, j: nat, verdict: seq<TileObject> -> Option<bool>)
    requires SightOk(s) && j >= 1
    requires !Passable(s, Step(c, d)) || (j >= 2 && verdict(TileAt(s, Step(c, d))).Some?)
    ensures !ClearTo(s, c, d, j, verdict)
  {
    RayShift(c, d, 0);
    assert Ray(c, d, 1) == Step(c, d);
  }

  /** The scan answers true exactly when, for some j within the bound, the
      cells up to j are passable, the earlier ones stay undecided and the
      j-th one decides true. */
  lemma {:induction false} ScanDecides(s: Sight, c: Pos, d: Direction, k: nat, verdict: seq<TileObject> -> Option<bool>)
    requires SightOk(s)
    ensures Scan(s, c, d, k, verdict) <==>
      exists j :: 1 <= j <= k && ClearTo(s, c, d, j, verdict) && verdict(TileAt(s, Ray(c, d, j))) == Some(true)
    decreases k
  {
    RayShift(c, d, 0);
    var n := Step(c, d);
    if k == 0 {
    } else if !Passable(s, n) {
      forall j | 1 <= j <= k
        ensures !ClearTo(s, c, d, j, verdict)
      {
        FirstCellCuts(s, c, d, j, verdict);
      }
    } else if verdict(TileAt(s, n)).Some? {
      if verdict(TileAt(s, n)).value {
        assert ClearTo(s, c, d, 1, verdict);
      }
      forall j | 2 <= j <= k
        ensures !ClearTo(s, c, d, j, verdict)
      {
        FirstCellCuts(s, c, d, j, verdict);
      }
    } else {
      ScanDecides(s, n, d, k - 1, verdict);
      ScanCarriesOn(s, c, d, k, verdict);
    }
  }

  /** The inductive step of `ScanDecides`: an undecided first cell shifts
      every witness by one. */
  lemma {:induction false} ScanCarriesOn(s: Sight, c: Pos, d: Direction, k: nat, verdict: seq<TileObject> -> Option<bool>)
    requires SightOk(s) && k >= 1
    requires Passable(s, Step(c, d)) && verdict(TileAt(s, Step(c, d))) == None
    ensures (exists j :: 1 <= j <= k && ClearTo(s, c, d, j, verdict) && verdict(TileAt(s, Ray(c, d, j))) == Some(true)) <==>
      (exists j :: 1 <= j <= k - 1 && ClearTo(s, Step(c, d), d, j, verdict) && verdict(TileAt(s, Ray(Step(c, d), d, j))) == Some(true))
  {
    var n := Step(c, d);
    RayShift(c, d, 0);
    if j' :| 1 <= j' <= k - 1 && ClearTo(s, n, d, j', verdict) && verdict(TileAt(s, Ray(n, d, j'))) == Some(true) {
      ClearShift(s, c, d, j', verdict);
      RayShift(c, d, j');
      assert ClearTo(s, c, d, j' + 1, verdict) && verdict(TileAt(s, Ray(c, d, j' + 1))) == Some(true);
    }
    if j :| 1 <= j <= k && ClearTo(s, c, d, j, verdict) && verdict(TileAt(s, Ray(c, d, j))) == Some(true) {
      assert j != 1;
      ClearShift(s, c, d, j - 1, verdict);
      RayShift(c, d, j - 1);
      assert ClearTo(s, n, d, j - 1, verdict) && verdict(TileAt(s, Ray(n, d, j - 1))) == Some(true);
    }
  }

  // ---------------------------------------------------------------------
  // The two verdicts

  /** `canSeeTank`'s target: any enemy in enemy mode; in ally mode a
      friendly tank other than our own whose health is not exactly 100 (an
      absent health counts as not 100). */
  predicate TargetTank(t: Tank, enemy: bool, myId: string) {
    if enemy then IsEnemy(t) else !IsEnemy(t) && t.ownerId != myId && t.health != Some(100)
  }

  predicate HasTarget(objs: seq<TileObject>, enemy: bool, myId: string) {
    exists k :: 0 <= k < |objs| && objs[k].TankObj? && TargetTank(objs[k].tank, enemy, myId)
  }

  /** A tile decides the `canSeeTank` scan only positively. */
  function SeeVerdict(enemy: bool, myId: string): seq<TileObject> -> Option<bool> {
    objs => if HasTarget(objs, enemy, myId) then Some(true) else None
  }

  /** `willFireHitForSure` on one tile: the first friendly tank says no, the
      first enemy facing along the turret's axis says yes, other objects are
      passed over. */
  function FirstVerdict(objs: seq<TileObject>, turretDir: Direction): (r: Option<bool>)
    decreases |objs|
  {
    if objs == [] then None
    else if objs[0].TankObj? && !IsEnemy(objs[0].tank) then Some(false)
    else if objs[0].TankObj? && IsParallel(turretDir, objs[0].tank.direction) then Some(true)
    else FirstVerdict(objs[1..], turretDir)
  }

  /** Tanks that stop the sure-hit scan at their tile. */
  predicate Decisive(o: TileObject, turretDir: Direction) {
    o.TankObj? && (!IsEnemy(o.tank) || IsParallel(turretDir, o.tank.direction))
  }

  /** The tile's verdict comes from its first decisive tank: false for an
      ally, true for a parallel enemy, none when there is no such tank. */
  lemma {:induction false} FirstVerdictDecides(objs: seq<TileObject>, turretDir: Direction)
    ensures FirstVerdict(objs, turretDir).None? <==> forall k :: 0 <= k < |objs| ==> !Decisive(objs[k], turretDir)
    ensures FirstVerdict(objs, turretDir).Some? ==>
      exists k :: 0 <= k < |objs| && Decisive(objs[k], turretDir) &&
        (forall k' :: 0 <= k' < k ==> !Decisive(objs[k'], turretDir)) &&
        FirstVerdict(objs, turretDir).value == IsEnemy(objs[k].tank)
    decreases |objs|
  {
    if objs != [] && !Decisive(objs[0], turretDir) {
      FirstVerdictDecides(objs[1..], turretDir);
      if FirstVerdict(objs, turretDir).Some? {
        var k :| 0 <= k < |objs[1..]| && Decisive(objs[1..][k], turretDir) &&
          (forall k' :: 0 <= k' < k ==> !Decisive(objs[1..][k'], turretDir)) &&
          FirstVerdict(objs[1..], turretDir).value == IsEnemy(objs[1..][k].tank);
        assert Decisive(objs[k + 1], turretDir);
      } else {
        forall k | 0 <= k < |objs| ensures !Decisive(objs[k], turretDir) {
          if k > 0 { assert objs[k] == objs[1..][k - 1]; }
        }
      }
    } else if objs != [] {
      assert Decisive(objs[0], turretDir);
    }
  }

  function SureVerdict(turretDir: Direction): seq<TileObject> -> Option<bool> {
    objs => FirstVerdict(objs, turretDir)
  }

  /** `canSeeTank`: cells 1..dim-1 along the turret. */
  function CanSeeTank(s: Sight, me: Pos, turretDir: Direction, enemy: bool, myId: string): bool
    requires SightOk(s)
  {
    Scan(s, me, turretDir, if s.dim >= 1 then s.dim - 1 else 0, SeeVerdict(enemy, myId))
  }

  /** `willFireHitForSure`: the scan bound is 2, or `dim` when the laser is
      ready, and cells 1..bound-1 are examined. */
  function WillFireHitForSure(s: Sight, me: Pos, turretDir: Direction, laserReady: bool): bool
    requires SightOk(s)
  {
    var bound := if laserReady then s.dim else 2;
    Scan(s, me, turretDir, if bound >= 1 then bound - 1 else 0, SureVerdict(turretDir))
  }

  /** Without a ready laser the sure-hit test looks only at the adjacent
      cell: it holds iff that cell is passable and its first decisive tank is
      an enemy facing along the turret's axis. */
  lemma {:induction false} SureHitLooksOneCell(s: Sight, me: Pos, turretDir: Direction)
    requires SightOk(s)
    ensures WillFireHitForSure(s, me, turretDir, false) <==>
      Passable(s, Step(me, turretDir)) &&
      exists k :: 0 <= k < |TileAt(s, Step(me, turretDir))| &&
        var objs := TileAt(s, Step(me, turretDir));
        Decisive(objs[k], turretDir) && IsEnemy(objs[k].tank) &&
        forall k' :: 0 <= k' < k ==> !Decisive(objs[k'], turretDir)
  {
    var n := Step(me, turretDir);
    FirstVerdictDecides(TileAt(s, n), turretDir);
  }

  // ---------------------------------------------------------------------
  // `closestBullet`

  /** The "no bullet" answer: the position (1e9, 1e9) at distance 1e9. */
  const Far: int := 1000000000

  datatype Best = Best(pos: Pos, dist: int)

  /** A non-healing bullet moving along `d`. */
  predicate Heading(objs: seq<TileObject>, d: Direction) {
    exists k :: 0 <= k < |objs| && objs[k].BulletObj? && objs[k].bullet.kind != Healing &&
      objs[k].bullet.direction == d
  }

  /** The four scans of `closestBullet`, numbered 0..3: the cells above in
      the column (bullets moving down), below (moving up), left in the row
      (moving right) and right (moving left). */
  function SegCell(me: Pos, seg: nat, i: int): Pos {
    if seg < 2 then Pos(i, me.y) else Pos(me.x, i)
  }

  function SegWant(seg: nat): Direction {
    if seg == 0 then Down else if seg == 1 then Up else if seg == 2 then Right else Left
  }

  function SegDist(me: Pos, seg: nat, i: int): int {
    if seg == 0 then me.x - i else if seg == 1 then i - me.x else if seg == 2 then me.y - i else i - me.y
  }

  function SegFrom(me: Pos, seg: nat): int {
    if seg == 0 || seg == 2 then 0 else if seg == 1 then me.x + 1 else me.y + 1
  }

  function SegTo(me: Pos, seg: nat, dim: nat): int {
    if seg == 0 then me.x else if seg == 2 then me.y else dim
  }

  ghost predicate Seg(tiles: seq<seq<Tile>>, me: Pos, seg: nat) {
    seg < 4 && IsValid(me, |tiles|) && SquareTiles(tiles, |tiles|)
  }

  lemma {:induction false} SegInside(tiles: seq<seq<Tile>>, me: Pos, seg: nat, i: int)
    requires Seg(tiles, me, seg) && SegFrom(me, seg) <= i < SegTo(me, seg, |tiles|)
    ensures IsValid(SegCell(me, seg, i), |tiles|)
    ensures SegDist(me, seg, i) >= 1
    ensures Ray(SegCell(me, seg, i), SegWant(seg), SegDist(me, seg, i)) == me
  {
  }

  /** A cell of segment `seg` that holds a bullet heading for `me`. */
  ghost predicate Qualifies(tiles: seq<seq<Tile>>, me: Pos, seg: nat, i: int)
    requires Seg(tiles, me, seg)
  {
    SegFrom(me, seg) <= i < SegTo(me, seg, |tiles|) &&
    var c := SegCell(me, seg, i);
    Heading(tiles[c.x][c.y].objects, SegWant(seg))
  }

  /** The running minimum after the cells of segment `seg` below index `i`;
      a later cell replaces it only when strictly closer. */
  function Sweep(tiles: seq<seq<Tile>>, me: Pos, seg: nat, i: int, acc: Best): Best
    requires Seg(tiles, me, seg) && SegFrom(me, seg) <= i <= SegTo(me, seg, |tiles|)
    decreases i - SegFrom(me, seg)
  {
    if i == SegFrom(me, seg) then acc
    else
      var prev := Sweep(tiles, me, seg, i - 1, acc);
      var c := SegCell(me, seg, i - 1);
      if Heading(tiles[c.x][c.y].objects, SegWant(seg)) && SegDist(me, seg, i - 1) < prev.dist
      then Best(c, SegDist(me, seg, i - 1))
      else prev
  }

  /** A sweep keeps the start or picks a qualifying cell, and ends no
      farther than the start or any qualifying cell it passed. */
  lemma {:induction false} SweepFindsMin(tiles: seq<seq<Tile>>, me: Pos, seg: nat, i: int, acc: Best)
    requires Seg(tiles, me, seg) && SegFrom(me, seg) <= i <= SegTo(me, seg, |tiles|)
    ensures var r := Sweep(tiles, me, seg, i, acc);
      r.dist <= acc.dist && (r != acc ==> r.dist < acc.dist) &&
      (r == acc ||
       exists j :: Qualifies(tiles, me, seg, j) && j < i && r == Best(SegCell(me, seg, j), SegDist(me, seg, j))) &&
      forall j :: Qualifies(tiles, me, seg, j) && j < i ==> r.dist <= SegDist(me, seg, j)
    decreases i - SegFrom(me, seg)
  {
    if i > SegFrom(me, seg) {
      SweepFindsMin(tiles, me, seg, i - 1, acc);
      var prev := Sweep(tiles, me, seg, i - 1, acc);
      var r := Sweep(tiles, me, seg, i, acc);
      if r != prev {
        assert Qualifies(tiles, me, seg, i - 1);
      }
    }
  }

  function SweepAll(tiles: seq<seq<Tile>>, me: Pos, seg: nat, acc: Best): Best
    requires Seg(tiles, me, seg)
  {
    Sweep(tiles, me, seg, SegTo(me, seg, |tiles|), acc)
  }

  /** `closestBullet`'s answer: the four scans in source order. */
  function ClosestBullet(tiles: seq<seq<Tile>>, me: Pos): Best
    requires IsValid(me, |tiles|) && SquareTiles(tiles, |tiles|)
  {
    var b0 := SweepAll(tiles, me, 0, Best(Pos(Far, Far), Far));
    var b1 := SweepAll(tiles, me, 1, b0);
    var b2 := SweepAll(tiles, me, 2, b1);
    SweepAll(tiles, me, 3, b2)
  }

  /** A bullet that flies straight into `me`: a non-healing bullet at `c`
      moving along `d`, `k` cells away on the same row or column. */
  ghost predicate Incoming(tiles: seq<seq<Tile>>, me: Pos, c: Pos, d: Direction, k: int)
    requires SquareTiles(tiles, |tiles|)
  {
    IsValid(c, |tiles|) && k >= 1 && Ray(c, d, k) == me && Heading(tiles[c.x][c.y].objects, d)
  }

  lemma {:induction false} IncomingIsInSegment(tiles: seq<seq<Tile>>, me: Pos, c: Pos, d: Direction, k: nat)
    requires IsValid(me, |tiles|) && SquareTiles(tiles, |tiles|) && Incoming(tiles, me, c, d, k)
    ensures exists seg, i :: (Seg(tiles, me, seg) && Qualifies(tiles, me, seg, i) &&
      SegCell(me, seg, i) == c && SegDist(me, seg, i) == k)
  {
    match d {
      case Down => assert Qualifies(tiles, me, 0, c.x) && SegCell(me, 0, c.x) == c;
      case Up => assert Qualifies(tiles, me, 1, c.x) && SegCell(me, 1, c.x) == c;
      case Right => assert Qualifies(tiles, me, 2, c.y) && SegCell(me, 2, c.y) == c;
      case Left => assert Qualifies(tiles, me, 3, c.y) && SegCell(me, 3, c.y) == c;
    }
  }

  /** `closestBullet` answers (1e9, 1e9) at distance 1e9 when no bullet
      flies straight at the tank from nearer than 1e9 cells; otherwise it
      answers such a bullet's cell and distance, and no incoming bullet is
      nearer. Healing bullets are ignored. */
  lemma {:induction false} ClosestIsNearest(tiles: seq<seq<Tile>>, me: Pos)
    requires IsValid(me, |tiles|) && SquareTiles(tiles, |tiles|)
    ensures var r := ClosestBullet(tiles, me);
      (r == Best(Pos(Far, Far), Far) ||
       (r.dist < Far && exists d :: Incoming(tiles, me, r.pos, d, r.dist))) &&
      forall c, d, k :: Incoming(tiles, me, c, d, k) ==> r.dist <= k
  {
    ClosestPicks(tiles, me);
    ClosestIsMin(tiles, me);
  }

  lemma {:induction false} ClosestPicks(tiles: seq<seq<Tile>>, me: Pos)
    requires IsValid(me, |tiles|) && SquareTiles(tiles, |tiles|)
    ensures var r := ClosestBullet(tiles, me);
      r == Best(Pos(Far, Far), Far) ||
      (r.dist < Far && exists d :: Incoming(tiles, me, r.pos, d, r.dist))
  {
    var init := Best(Pos(Far, Far), Far);
    var b0 := SweepAll(tiles, me, 0, init);
    var b1 := SweepAll(tiles, me, 1, b0);
    var b2 := SweepAll(tiles, me, 2, b1);
    var r := SweepAll(tiles, me, 3, b2);
    SweepFindsMin(tiles, me, 0, SegTo(me, 0, |tiles|), init);
    SweepFindsMin(tiles, me, 1, SegTo(me, 1, |tiles|), b0);
    SweepFindsMin(tiles, me, 2, SegTo(me, 2, |tiles|), b1);
    SweepFindsMin(tiles, me, 3, SegTo(me, 3, |tiles|), b2);
    if r != init {
      var seg: nat, j: int;
      if r != b2 {
        seg := 3;
        j :| Qualifies(tiles, me, 3, j) && r == Best(SegCell(me, 3, j), SegDist(me, 3, j));
      } else if b2 != b1 {
        seg := 2;
        j :| Qualifies(tiles, me, 2, j) && r == Best(SegCell(me, 2, j), SegDist(me, 2, j));
      } else if b1 != b0 {
        seg := 1;
        j :| Qualifies(tiles, me, 1, j) && r == Best(SegCell(me, 1, j), SegDist(me, 1, j));
      } else {
        seg := 0;
        j :| Qualifies(tiles, me, 0, j) && r == Best(SegCell(me, 0, j), SegDist(me, 0, j));
      }
      SegInside(tiles, me, seg, j);
      assert Incoming(tiles, me, r.pos, SegWant(seg), r.dist);
    }
  }

  lemma {:induction false} ClosestIsMin(tiles: seq<seq<Tile>>, me: Pos)
    requires IsValid(me, |tiles|) && SquareTiles(tiles, |tiles|)
    ensures forall c, d, k :: Incoming(tiles, me, c, d, k) ==> ClosestBullet(tiles, me).dist <= k
  {
    var init := Best(Pos(Far, Far), Far);
    var b0 := SweepAll(tiles, me, 0, init);
    var b1 := SweepAll(tiles, me, 1, b0);
    var b2 := SweepAll(tiles, me, 2, b1);
    SweepFindsMin(tiles, me, 0, SegTo(me, 0, |tiles|), init);
    SweepFindsMin(tiles, me, 1, SegTo(me, 1, |tiles|), b0);
    SweepFindsMin(tiles, me, 2, SegTo(me, 2, |tiles|), b1);
    SweepFindsMin(tiles, me, 3, SegTo(me, 3, |tiles|), b2);
    forall c, d, k | Incoming(tiles, me, c, d, k)
      ensures ClosestBullet(tiles, me).dist <= k
    {
      IncomingIsInSegment(tiles, me, c, d, k);
    }
  }

  // ---------------------------------------------------------------------
  // `getHealingBullets` and `findTeammate`

  /** The healing bullets among `objs[..k]`, each paired with cell `p`. */
  function HealTile(objs: seq<TileObject>, p: Pos, k: nat): seq<(Bullet, Pos)>
    requires k <= |objs|
  {
    if k == 0 then []
    else
      var o := objs[k - 1];
      HealTile(objs, p, k - 1) + if o.BulletObj? && o.bullet.kind == Healing then [(o.bullet, p)] else []
  }

  /** Row `i`, columns below `j`. */
  function HealRow(tiles: seq<seq<Tile>>, i: nat, j: nat): seq<(Bullet, Pos)>
    requires i < |tiles| && j <= |tiles[i]|
  {
    if j == 0 then []
    else HealRow(tiles, i, j - 1) + HealTile(tiles[i][j - 1].objects, Pos(i, j - 1), |tiles[i][j - 1].objects|)
  }

  /** Rows below `i`, in row-major order as the source scans them. */
  function HealRows(tiles: seq<seq<Tile>>, i: nat): seq<(Bullet, Pos)>
    requires i <= |tiles|
  {
    if i == 0 then [] else HealRows(tiles, i - 1) + HealRow(tiles, i - 1, |tiles[i - 1]|)
  }

  function HealingBullets(tiles: seq<seq<Tile>>): seq<(Bullet, Pos)> {
    HealRows(tiles, |tiles|)
  }

  /** A healing bullet at a cell of the snapshot. */
  ghost predicate HealingAt(tiles: seq<seq<Tile>>, b: Bullet, p: Pos) {
    0 <= p.x < |tiles| && 0 <= p.y < |tiles[p.x]| && b.kind == Healing &&
    BulletObj(b) in tiles[p.x][p.y].objects
  }

  lemma {:induction false} HealTileMembers(objs: seq<TileObject>, p: Pos, k: nat, b: Bullet, q: Pos)
    requires k <= |objs|
    ensures (b, q) in HealTile(objs, p, k) <==> q == p && b.kind == Healing && BulletObj(b) in objs[..k]
  {
    if k > 0 {
      HealTileMembers(objs, p, k - 1, b, q);
      assert objs[..k] == objs[..k - 1] + [objs[k - 1]];
    }
  }

  lemma {:induction false} HealRowMembers(tiles: seq<seq<Tile>>, i: nat, j: nat, b: Bullet, q: Pos)
    requires i < |tiles| && j <= |tiles[i]|
    ensures (b, q) in HealRow(tiles, i, j) <==> q.x == i && 0 <= q.y < j && HealingAt(tiles, b, q)
  {
    if j > 0 {
      HealRowMembers(tiles, i, j - 1, b, q);
      var objs := tiles[i][j - 1].objects;
      HealTileMembers(objs, Pos(i, j - 1), |objs|, b, q);
      assert objs[..|objs|] == objs;
    }
  }

  /** The collected list holds exactly the healing bullets of the snapshot,
      each with its cell. */
  lemma {:induction false} HealingBulletsMembers(tiles: seq<seq<Tile>>, i: nat, b: Bullet, q: Pos)
    requires i <= |tiles|
    ensures (b, q) in HealRows(tiles, i) <==> q.x < i && HealingAt(tiles, b, q)
  {
    if i > 0 {
      HealingBulletsMembers(tiles, i - 1, b, q);
      HealRowMembers(tiles, i - 1, |tiles[i - 1]|, b, q);
    }
  }

  /** `findTeammate`'s target: a friendly tank that is not ours. */
  predicate Teammate(t: Tank, myId: string) {
    !IsEnemy(t) && t.ownerId != myId
  }

  // ---------------------------------------------------------------------
  // The healing-bullet goal of the decision cascade

  /** How many single-cell steps `for (j = 0; j < speed; j++)` makes for a
      floating-point speed: the number of naturals below it. */
  function StepsPerTick(speed: real): (n: nat) {
    if speed <= 0.0 then 0 else -((-speed).Floor)
  }

  lemma {:induction false} StepsPerTickCounts(speed: real, j: nat)
    ensures j < StepsPerTick(speed) <==> (j as real) < speed
  {
  }

  /** A bullet's flight of `n` single steps along `d`; none as soon as a
      step leaves the grid or enters a solid wall. */
  function Flight(wallType: seq<seq<int>>, dim: nat, p: Pos, d: Direction, n: nat): (r: Option<Pos>)
    requires IsGrid(wallType, dim)
    ensures r.Some? && (n > 0 || IsValid(p, dim)) ==> IsValid(r.value, dim)
    decreases n
  {
    if n == 0 then Some(p)
    else
      var q := Step(p, d);
      if !IsValid(q, dim) || wallType[q.x][q.y] == 2 then None
      else Flight(wallType, dim, q, d, n - 1)
  }

  lemma {:induction false} FlightLands(wallType: seq<seq<int>>, dim: nat, p: Pos, d: Direction, n: nat)
    requires IsGrid(wallType, dim)
    ensures Flight(wallType, dim, p, d, n).Some? ==>
      Flight(wallType, dim, p, d, n).value == Ray(p, d, n) &&
      forall m :: 1 <= m <= n ==> IsValid(Ray(p, d, m), dim) && wallType[Ray(p, d, m).x][Ray(p, d, m).y] != 2
    decreases n
  {
    if n > 0 && Flight(wallType, dim, p, d, n).Some? {
      var q := Step(p, d);
      FlightLands(wallType, dim, q, d, n - 1);
      RayShift(p, d, n - 1);
      RayShift(p, d, 0);
      forall m | 1 <= m <= n
        ensures IsValid(Ray(p, d, m), dim) && wallType[Ray(p, d, m).x][Ray(p, d, m).y] != 2
      {
        RayShift(p, d, m - 1);
      }
    }
  }

  /** The number of single steps a bullet makes in `timer` ticks. */
  function FlightLength(b: Bullet, timer: int): nat {
    if timer <= 0 then 0 else timer * StepsPerTick(b.speed)
  }

  /** The listed bullets sit on cells of the grid. */
  ghost predicate InGrid(bullets: seq<(Bullet, Pos)>, dim: nat) {
    forall i :: 0 <= i < |bullets| ==> IsValid(bullets[i].1, dim)
  }

  /** The lambda `isHealingBullet` as written: no later than tick 10, walk the
      listed bullets in order; a bullet whose flight leaves the grid or meets
      a solid wall ends the whole test with false, and the first bullet that
      lands on the state's cell, with no wall there, accepts it. */
  function HealingGoal(bullets: seq<(Bullet, Pos)>, wallType: seq<seq<int>>, dim: nat, o: OPos, timer: int): bool
    requires IsGrid(wallType, dim) && InGrid(bullets, dim)
    decreases |bullets|
  {
    if timer > 10 || bullets == [] then false
    else
      var (b, p) := bullets[0];
      match Flight(wallType, dim, p, b.direction, FlightLength(b, timer))
      case None => false
      case Some(q) =>
        if q == o.pos && wallType[q.x][q.y] == 0 then true
        else HealingGoal(bullets[1..], wallType, dim, o, timer)
  }

  /** Bullet `i` lands on the state's cell at `timer`, no wall there. */
  predicate LandsOn(bullets: seq<(Bullet, Pos)>, wallType: seq<seq<int>>, dim: nat, o: OPos, timer: int, i: nat)
    requires IsGrid(wallType, dim) && InGrid(bullets, dim) && i < |bullets|
  {
    var f := Flight(wallType, dim, bullets[i].1, bullets[i].0.direction, FlightLength(bullets[i].0, timer));
    f == Some(o.pos) && wallType[o.pos.x][o.pos.y] == 0
  }

  /** The goal accepts a state iff it is no later than tick 10 and some
      bullet lands there while every bullet listed before it stays inside
      the grid and clear of solid walls. */
  lemma {:induction false} HealingGoalAccepts(bullets: seq<(Bullet, Pos)>, wallType: seq<seq<int>>, dim: nat, o: OPos, timer: int)
    requires IsGrid(wallType, dim) && InGrid(bullets, dim)
    ensures HealingGoal(bullets, wallType, dim, o, timer) <==>
      timer <= 10 &&
      exists i ::
        0 <= i < |bullets| && LandsOn(bullets, wallType, dim, o, timer, i) &&
        forall i' :: 0 <= i' < i ==>
          Flight(wallType, dim, bullets[i'].1, bullets[i'].0.direction, FlightLength(bullets[i'].0, timer)).Some?
    decreases |bullets|
  {
    if timer <= 10 && bullets != [] {
      var f := Flight(wallType, dim, bullets[0].1, bullets[0].0.direction, FlightLength(bullets[0].0, timer));
      if f.Some? && !LandsOn(bullets, wallType, dim, o, timer, 0) {
        var rest := bullets[1..];
        HealingGoalAccepts(rest, wallType, dim, o, timer);
        if HealingGoal(bullets, wallType, dim, o, timer) {
          var i :| 0 <= i < |rest| && LandsOn(rest, wallType, dim, o, timer, i) &&
            forall i' :: 0 <= i' < i ==>
              Flight(wallType, dim, rest[i'].1, rest[i'].0.direction, FlightLength(rest[i'].0, timer)).Some?;
          assert LandsOn(bullets, wallType, dim, o, timer, i + 1);
          forall i' | 0 <= i' < i + 1
            ensures Flight(wallType, dim, bullets[i'].1, bullets[i'].0.direction, FlightLength(bullets[i'].0, timer)).Some?
          {
            if i' > 0 { assert bullets[i'] == rest[i' - 1]; }
          }
        } else {
          forall i | 0 <= i < |bullets| && LandsOn(bullets, wallType, dim, o, timer, i)
            ensures exists i' ::
              0 <= i' < i &&
              Flight(wallType, dim, bullets[i'].1, bullets[i'].0.direction, FlightLength(bullets[i'].0, timer)).None?
          {
            assert i > 0;
            assert bullets[i] == rest[i - 1];
            assert LandsOn(rest, wallType, dim, o, timer, i - 1);
            var i0 :| 0 <= i0 < i - 1 &&
              Flight(wallType, dim, rest[i0].1, rest[i0].0.direction, FlightLength(rest[i0].0, timer)).None?;
            assert bullets[i0 + 1] == rest[i0];
          }
        }
      }
    }
  }
}
