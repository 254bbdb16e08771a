/** The bot's decision rules as values: the per-tile wall codes of the map
    cache, the board a tank decides on, the goals its searches use, the
    shooting and dodging rules, the random fallback and the capture
    probability. */
module BotRules {
  import opened Wrappers
  import opened BotPackets
  import opened BotGeometry
  import opened BotKnowledge
  import opened BotSearch
  import opened BotPerception

  // ---------------------------------------------------------------------
  // The static map cache

  predicate HasWall(objs: seq<TileObject>) {
    exists k :: 0 <= k < |objs| && objs[k].WallObj?
  }

  /** `initWallType` on one tile: every wall object overwrites the code, 2
      for solid and 1 for penetrable; the last wall decides. */
  function WallCode(objs: seq<TileObject>): int
    decreases |objs|
  {
    if objs == [] then 0
    else
      var o := objs[|objs| - 1];
      if o.WallObj? then (if o.wallType == Solid then 2 else 1)
      else WallCode(objs[..|objs| - 1])
  }

  /** The last wall object of the tile sits at index `k`. */
  predicate LastWall(objs: seq<TileObject>, k: int) {
    0 <= k < |objs| && objs[k].WallObj? && forall k' :: k < k' < |objs| ==> !objs[k'].WallObj?
  }

  lemma {:induction false} WallCodeZero(objs: seq<TileObject>)
    ensures WallCode(objs) == 0 <==> !HasWall(objs)
    ensures 0 <= WallCode(objs) <= 2
    decreases |objs|
  {
    if objs != [] {
      var n := |objs| - 1;
      var init := objs[..n];
      WallCodeZero(init);
      if !objs[n].WallObj? {
        if HasWall(init) {
          var k :| 0 <= k < |init| && init[k].WallObj?;
          assert objs[k].WallObj?;
        }
        if HasWall(objs) {
          var k :| 0 <= k < |objs| && objs[k].WallObj?;
          assert init[k].WallObj?;
        }
      }
    }
  }

  lemma {:induction false} WallCodeOfLast(objs: seq<TileObject>, k: int)
    requires LastWall(objs, k)
    ensures WallCode(objs) == if objs[k].wallType == Solid then 2 else 1
    decreases |objs|
  {
    var n := |objs| - 1;
    if k < n {
      assert LastWall(objs[..n], k);
      WallCodeOfLast(objs[..n], k);
    }
  }

  lemma {:induction false} LastWallExists(objs: seq<TileObject>) returns (k: int)
    requires HasWall(objs)
    ensures LastWall(objs, k)
    decreases |objs|
  {
    var n := |objs| - 1;
    if objs[n].WallObj? {
      k := n;
    } else {
      var j :| 0 <= j < |objs| && objs[j].WallObj?;
      assert objs[..n][j].WallObj?;
      k := LastWallExists(objs[..n]);
      assert objs[..n][k] == objs[k];
    }
  }

  /** The code is 0 exactly for a tile without walls, and otherwise 2 or 1
      as the last wall is solid or penetrable; so `isWall` and a positive
      `wallType` agree on every tile. */
  lemma {:induction false} WallCodeMeaning(objs: seq<TileObject>)
    ensures WallCode(objs) == 0 <==> !HasWall(objs)
    ensures WallCode(objs) == 2 <==> exists k :: LastWall(objs, k) && objs[k].wallType == Solid
    ensures WallCode(objs) == 1 <==> exists k :: LastWall(objs, k) && objs[k].wallType == Penetrable
    ensures HasWall(objs) <==> WallCode(objs) > 0
  {
    WallCodeZero(objs);
    forall k | LastWall(objs, k) ensures WallCode(objs) == if objs[k].wallType == Solid then 2 else 1 {
      WallCodeOfLast(objs, k);
    }
    if HasWall(objs) {
      var k := LastWallExists(objs);
    }
  }

  // ---------------------------------------------------------------------
  // The board a tank decides on

  /** Everything a tank's decision reads: the cached wall grids and zone
      names, the knowledge map's remembered tiles, mine counters and
      visibility, and the snapshot's tiles. */
  datatype Board = Board(
    dim: nat,
    isWall: seq<seq<bool>>,
    wallType: seq<seq<int>>,
    zoneName: seq<seq<char>>,
    known: seq<seq<seq<Entry>>>,
    mines: seq<seq<int>>,
    visible: seq<seq<bool>>,
    tiles: seq<seq<Tile>>)

  ghost predicate BoardOk(b: Board) {
    IsGrid(b.isWall, b.dim) && IsGrid(b.wallType, b.dim) && IsGrid(b.zoneName, b.dim) &&
    IsGrid(b.known, b.dim) && IsGrid(b.mines, b.dim) && IsGrid(b.visible, b.dim) &&
    SquareTiles(b.tiles, b.dim)
  }

  function SightOf(b: Board): (s: Sight)
    requires BoardOk(b)
    ensures SightOk(s)
  {
    Sight(b.dim, b.wallType, b.visible, b.tiles)
  }

  /** The search enters a cell with no wall, no remembered live mine and no
      bullet trajectory over the next 10 ticks (`isOnBulletTraj`'s default). */
  predicate Admissible(b: Board, p: Pos)
    requires BoardOk(b)
  {
    IsValid(p, b.dim) && b.wallType[p.x][p.y] <= 0 && b.mines[p.x][p.y] <= 0 &&
    !OnBulletTraj(b.known, p.x, p.y, 10)
  }

  /** The arena `Bot::bfs` searches. */
  function ArenaOf(b: Board): (ar: Arena)
    requires BoardOk(b)
    ensures ar.dim == b.dim
    ensures forall p :: IsValid(p, b.dim) ==> (ar.open(p) <==> Admissible(b, p))
  {
    Arena(b.dim, p => Admissible(b, p))
  }

  /** `willBeHitByBullet` as written, which passes any cell to
      `isOnBulletTraj`: inside the grid it is the one-tick trajectory test;
      for a cell next to the grid the scan finds its first step inside and
      then reads the queried tile, which lies outside the knowledge grid
      and has no defined content (no answer here); for a cell further away
      every scan stops at once and the answer is no. */
  ghost function HitAsWritten(b: Board, p: Pos): (r: Option<bool>)
    requires BoardOk(b)
    ensures r.None? ==> !IsValid(p, b.dim)
    ensures r.None? <==> !IsValid(p, b.dim) && exists i :: 0 <= i < 4 && IsValid(RayCell(p.x, p.y, i, 1), b.dim)
  {
    if IsValid(p, b.dim) then Some(OnBulletTraj(b.known, p.x, p.y, 1))
    else if exists i :: 0 <= i < 4 && IsValid(RayCell(p.x, p.y, i, 1), b.dim) then None
    else Some(false)
  }

  /** `willBeHitByBullet` corrected: the one-tick trajectory test at a cell
      of the grid; a cell outside it is never hit. */
  predicate Hit(b: Board, p: Pos)
    requires BoardOk(b)
  {
    IsValid(p, b.dim) && OnBulletTraj(b.known, p.x, p.y, 1)
  }

  /** The corrected test answers as the written one wherever the written
      one reads inside the grid. */
  lemma {:induction false} HitAgreesWhereDefined(b: Board, p: Pos)
    requires BoardOk(b)
    ensures HitAsWritten(b, p).Some? ==> (HitAsWritten(b, p).value <==> Hit(b, p))
  {
  }

  /** A state the search can enter is never predicted hit next tick. */
  lemma {:induction false} AdmissibleNotHit(b: Board, p: Pos)
    requires BoardOk(b) && Admissible(b, p)
    ensures !Hit(b, p)
  {
    TrajectoryIsLocal(b.known, p.x, p.y, 10);
  }

  /** `bfsStrategy` as written probes `willBeHitByBullet` at the state
      after the result's move. When the search accepts its start, that move
      is the reversal of a default `forward` entry, so a tank in the top-left
      corner facing down probes the cell above the grid, and the written
      test reads outside the knowledge grid there. */
  lemma {:induction false} StrategyProbeLeavesGrid(b: Board)
    requires BoardOk(b) && b.dim >= 1
    ensures IsValid(Pos(0, 0), b.dim)
    ensures AfterMove(OPos(Pos(0, 0), Down), Reversed(MoveAct(Forward))).pos == Pos(-1, 0)
    ensures HitAsWritten(b, AfterMove(OPos(Pos(0, 0), Down), Reversed(MoveAct(Forward))).pos).None?
  {
    HitAsWrittenAboveCorner(b);
  }

  /** The written test reads outside the grid for the cell above the
      top-left corner. */
  lemma {:induction false} HitAsWrittenAboveCorner(b: Board)
    requires BoardOk(b) && b.dim >= 1
    ensures HitAsWritten(b, Pos(-1, 0)).None?
  {
    assert IsValid(RayCell(-1, 0, 2, 1), b.dim);
  }

  // ---------------------------------------------------------------------
  // Goals of the searches

  /** `targetZone`: a tile of zone 'A'. */
  function ZoneGoal(b: Board): (OPos, int) -> bool
    requires BoardOk(b)
  {
    (o: OPos, t: int) => IsValid(o.pos, b.dim) && InTargetZone(b.zoneName, o)
  }

  /** `isOnBulletLine` of the cascade: off both the row and the column of
      the closest bullet. */
  function OffBulletLines(bullet: Pos): (OPos, int) -> bool {
    (o: OPos, t: int) => o.pos.x != bullet.x && o.pos.y != bullet.y
  }

  function HealGoal(b: Board, bullets: seq<(Bullet, Pos)>): (OPos, int) -> bool
    requires BoardOk(b) && BotPerception.InGrid(bullets, b.dim)
  {
    (o: OPos, t: int) => HealingGoal(bullets, b.wallType, b.dim, o, t)
  }

  predicate EnemyIn(objs: seq<TileObject>) {
    exists k :: 0 <= k < |objs| && objs[k].TankObj? && IsEnemy(objs[k].tank)
  }

  predicate EnemyRemembered(t: seq<Entry>) {
    exists k :: 0 <= k < |t| && t[k].obj.TankObj? && IsEnemy(t[k].obj.tank)
  }

  /** `isVisibleEnemy`: a visible cell holding an enemy in the snapshot. */
  function VisibleEnemyGoal(b: Board): (OPos, int) -> bool
    requires BoardOk(b)
  {
    (o: OPos, t: int) => IsValid(o.pos, b.dim) && b.visible[o.pos.x][o.pos.y] &&
      EnemyIn(b.tiles[o.pos.x][o.pos.y].objects)
  }

  /** `isPotentialEnemy`: a cell out of sight where an enemy is remembered. */
  function PotentialEnemyGoal(b: Board): (OPos, int) -> bool
    requires BoardOk(b)
  {
    (o: OPos, t: int) => IsValid(o.pos, b.dim) && !b.visible[o.pos.x][o.pos.y] &&
      EnemyRemembered(b.known[o.pos.x][o.pos.y])
  }

  // ---------------------------------------------------------------------
  // Shooting

  /** `shootIf`, with the condition already evaluated: the laser and double
      bullet count only when the tank can use them, and without them an
      empty magazine forbids shooting. */
  function ShootIf(t: Tank, bulletCount: int, cond: bool, useLaser: bool, useDouble: bool): (r: Option<Response>)
    requires IsOneOfMyTanks(t)
    ensures r.None? <==>
      !cond || (bulletCount == 0 && !(useLaser && CanShootLaser(t)) && !(useDouble && CanShootDouble(t)))
    ensures r == Some(AbilityUse(UseLaser)) <==> cond && useLaser && CanShootLaser(t)
    ensures r == Some(AbilityUse(FireDoubleBullet)) <==>
      cond && useDouble && CanShootDouble(t) && !(useLaser && CanShootLaser(t))
    ensures r == Some(AbilityUse(FireBullet)) <==>
      cond && bulletCount != 0 && !(useLaser && CanShootLaser(t)) && !(useDouble && CanShootDouble(t))
  {
    var laser := useLaser && CanShootLaser(t);
    var double := useDouble && CanShootDouble(t);
    if bulletCount == 0 && !(double || laser) then None
    else if !cond then None
    else if laser then Some(AbilityUse(UseLaser))
    else if double then Some(AbilityUse(FireDoubleBullet))
    else Some(AbilityUse(FireBullet))
  }

  /** A heavy tank never fires a double bullet and a light one never uses
      the laser. */
  lemma {:induction false} ShootIfByTankType(t: Tank, bulletCount: int, cond: bool, useLaser: bool, useDouble: bool)
    requires IsOneOfMyTanks(t)
    ensures t.tankType == Heavy ==> ShootIf(t, bulletCount, cond, useLaser, useDouble) != Some(AbilityUse(FireDoubleBullet))
    ensures t.tankType == Light ==> ShootIf(t, bulletCount, cond, useLaser, useDouble) != Some(AbilityUse(UseLaser))
  {
  }

  /** `healIfSeeingAlly`. */
  function HealIfSeeingAlly(t: Tank, seesLowAlly: bool): (r: Option<Response>)
    requires IsOneOfMyTanks(t)
    ensures r.Some? <==> CanShootHealing(t) && seesLowAlly
    ensures r.Some? ==> r.value == AbilityUse(FireHealingBullet)
  {
    if CanShootHealing(t) && seesLowAlly then Some(AbilityUse(FireHealingBullet)) else None
  }

  /** `useRadarIfPossible`. */
  function UseRadarIfPossible(t: Tank): (r: Option<Response>)
    requires IsOneOfMyTanks(t)
    ensures r.Some? <==> CanUseRadar(t)
    ensures r.Some? ==> r.value == AbilityUse(UseRadar) && t.tankType == Light
  {
    if CanUseRadar(t) then Some(AbilityUse(UseRadar)) else None
  }

  // ---------------------------------------------------------------------
  // Moving at random inside the zone

  /** `canMoveForwardInsideZone` / `canMoveBackwardInsideZone`: the cell one
      step along (or against) the body is in the grid, not a wall and in
      some zone. */
  predicate CanMoveInsideZone(b: Board, p: OPos, forward: bool)
    requires BoardOk(b)
  {
    var d := Delta(p.dir);
    var n := if forward then Pos(p.pos.x + d.x, p.pos.y + d.y) else Pos(p.pos.x - d.x, p.pos.y - d.y);
    IsValid(n, b.dim) && !b.isWall[n.x][n.y] && b.zoneName[n.x][n.y] != '?'
  }

  /** A cell a random move may enter: in the grid, no wall, inside a zone. */
  predicate ZoneFloor(b: Board, n: Pos)
    requires BoardOk(b)
  {
    IsValid(n, b.dim) && !b.isWall[n.x][n.y] && b.zoneName[n.x][n.y] != '?'
  }

  /** The two cells checked are the ones the forward and backward moves
      lead to. */
  lemma {:induction false} InsideZoneCells(b: Board, p: OPos)
    requires BoardOk(b)
    ensures CanMoveInsideZone(b, p, true) <==> ZoneFloor(b, AfterMove(p, MoveAct(Forward)).pos)
    ensures CanMoveInsideZone(b, p, false) <==> ZoneFloor(b, AfterMove(p, MoveAct(Backward)).pos)
  {
    match p.dir {
      case Up => case Right => case Down => case Left =>
    }
  }

  /** `static_cast` of a draw modulo 2. */
  function MoveOf(k: nat): MoveDirection {
    if k % 2 == 0 then Forward else Backward
  }

  function RotOf(k: nat): RotationDirection {
    if k % 2 == 0 then RotLeft else RotRight
  }

  /** `BeDrunkInsideZone` with `gen(i)` the i-th draw of its fresh
      generator: on an even first draw, move (at random when both ways are
      open); otherwise, or when neither way is open, rotate body and turret
      at random using the next two draws. */
  function BeDrunk(canF: bool, canB: bool, gen: nat -> nat): (r: Response)
    ensures r.Move? ==> (r.direction == Forward ==> canF) && (r.direction == Backward ==> canB)
    ensures r.Move? <==> gen(0) % 2 == 0 && (canF || canB)
    ensures r.Rotate? <==> !r.Move?
    ensures r.Rotate? ==> r.tankRotation != RotNone && r.turretRotation != RotNone
  {
    if gen(0) % 2 == 0 && canF && canB then Move(MoveOf(gen(1)))
    else if gen(0) % 2 == 0 && canF then Move(Forward)
    else if gen(0) % 2 == 0 && canB then Move(Backward)
    else Rotate(RotOf(gen(1)), RotOf(gen(2)))
  }

  /** `BeDrunkInsideZone` at the tank's state: a random move only ever
      enters a zone cell of the grid that is not a wall. */
  function Wander(b: Board, me: OPos, gen: nat -> nat): (r: Response)
    requires BoardOk(b)
    ensures r.Move? ==> ZoneFloor(b, AfterMove(me, MoveAct(r.direction)).pos)
  {
    InsideZoneCells(b, me);
    BeDrunk(CanMoveInsideZone(b, me, true), CanMoveInsideZone(b, me, false), gen)
  }

  // ---------------------------------------------------------------------
  // Turning towards an enemy

  function Abs(x: int): int {
    if x < 0 then -x else x
  }

  /** The offset (dx, dy) lies within 45 degrees of direction `d`. */
  predicate Toward(d: Direction, dx: int, dy: int) {
    var e := Delta(d);
    e.x * dx + e.y * dy >= Abs(e.y * dx - e.x * dy)
  }

  /** The offset has no component against direction `d`. */
  predicate NotAgainst(d: Direction, dx: int, dy: int) {
    Delta(d).x * dx + Delta(d).y * dy >= 0
  }

  /** `rotateToEnemy`'s choice of (body, turret) directions for an enemy at
      offset (dx, dy); the source's four tests always leave one branch
      taken, the last one being the remaining case. */
  function DesiredDirs(dx: int, dy: int): (r: (Direction, Direction))
    ensures Toward(r.1, dx, dy)
    ensures NotAgainst(r.0, dx, dy)
    ensures !IsParallel(r.0, r.1)
  {
    if dx >= Abs(dy) then ((if dy >= 0 then Right else Left), Down)
    else if dx <= -Abs(dy) then ((if dy >= 0 then Right else Left), Up)
    else if dy >= Abs(dx) then ((if dx >= 0 then Down else Up), Right)
    else ((if dx >= 0 then Down else Up), Left)
  }

  /** The four tests of the source cover every offset. */
  lemma {:induction false} DesiredDirsExhaustive(dx: int, dy: int)
    ensures dx >= Abs(dy) || dx <= -Abs(dy) || dy >= Abs(dx) || dy <= -Abs(dx)
  {
  }

  /** `rotateToEnemy` once body and turret already face the wanted ways,
      with `turn` the draws of its own generator: on three draws in four
      drive forward, otherwise back up, wait or wander with one third each;
      a move into a wall or off the grid falls back to wandering. */
  function AlignedMove(b: Board, me: OPos, turn: nat -> nat, drunk: nat -> nat): (r: Response)
    requires BoardOk(b)
    ensures r.Move? ==>
      var n := AfterMove(me, MoveAct(r.direction)).pos;
      IsValid(n, b.dim) && !b.isWall[n.x][n.y]
    ensures r == Wait <==> turn(0) % 4 == 0 && turn(1) % 3 == 1
    ensures r.Rotate? ==> r == Wander(b, me, drunk)
  {
    var fwd := AfterMove(me, MoveAct(Forward)).pos;
    var back := AfterMove(me, MoveAct(Backward)).pos;
    if turn(0) % 4 != 0 then
      (if IsValid(fwd, b.dim) && !b.isWall[fwd.x][fwd.y] then Move(Forward) else Wander(b, me, drunk))
    else if turn(1) % 3 == 0 then
      (if IsValid(back, b.dim) && !b.isWall[back.x][back.y] then Move(Backward) else Wander(b, me, drunk))
    else if turn(1) % 3 == 1 then Wait
    else Wander(b, me, drunk)
  }

  /** Once aligned, the turret points within 45 degrees of the enemy and
      the body does not face away from it. */
  lemma {:induction false} AlignedAims(myDir: Direction, turretDir: Direction, dx: int, dy: int)
    requires GetRotationTo(myDir, DesiredDirs(dx, dy).0) == RotNone
    requires GetRotationTo(turretDir, DesiredDirs(dx, dy).1) == RotNone
    ensures Toward(turretDir, dx, dy) && NotAgainst(myDir, dx, dy)
  {
    RotationToReaches(myDir, DesiredDirs(dx, dy).0);
    RotationToReaches(turretDir, DesiredDirs(dx, dy).1);
  }

  // ---------------------------------------------------------------------
  // Dropping a mine

  /** The cell behind the tank, where a dropped mine lands. */
  function MineCell(me: OPos): (c: Pos)
    ensures c == AfterMove(me, MoveAct(Backward)).pos
  {
    var d := Delta(me.dir);
    Pos(me.pos.x - d.x, me.pos.y - d.y)
  }

  /** The mine countdowns once a mine dropped behind `me` is noted: that
      cell is tracked from then on and no other cell changes. */
  function MineNoted(g: seq<seq<int>>, me: OPos): (r: seq<seq<int>>)
    ensures |r| == |g| && forall i :: 0 <= i < |g| ==> |r[i]| == |g[i]|
    ensures var c := MineCell(me); 0 <= c.x < |g| && 0 <= c.y < |g[c.x]| ==> r[c.x][c.y] > 0
    ensures forall i, j :: 0 <= i < |g| && 0 <= j < |g[i]| && Pos(i, j) != MineCell(me) ==> r[i][j] == g[i][j]
  {
    var c := MineCell(me);
    if 0 <= c.x < |g| && 0 <= c.y < |g[c.x]| then SetCell(g, c, Notified(g[c.x][c.y])) else g
  }

  /** `dropMineIfReasonable`'s test: the mine is ready, the tank is boxed
      in along an axis or stands in a zone, and the cell behind it is in
      the grid and not a wall. */
  predicate DropsMine(b: Board, t: Tank, me: OPos)
    requires BoardOk(b) && IsOneOfMyTanks(t) && IsValid(me.pos, b.dim)
  {
    CanDropMine(t) && (IsBetweenWalls(me.pos, b.isWall, b.dim) || b.zoneName[me.pos.x][me.pos.y] != '?') &&
    var c := MineCell(me);
    IsValid(c, b.dim) && !b.isWall[c.x][c.y]
  }

  /** Once a mine is noted at a cell, the searches no longer enter it. */
  lemma {:induction false} NotedMineIsAvoided(b: Board, c: Pos)
    requires BoardOk(b) && IsValid(c, b.dim)
    ensures var b' := b.(mines := SetCell(b.mines, c, Notified(b.mines[c.x][c.y])));
      BoardOk(b') && !Admissible(b', c)
  {
  }

  // ---------------------------------------------------------------------
  // Dodging

  /** The dodge's test of a move: the destination is in the grid, not a
      wall, not predicted hit next tick and free of remembered mines. */
  predicate SafeMove(b: Board, me: OPos, m: MoveDirection)
    requires BoardOk(b)
  {
    var n := AfterMove(me, MoveAct(m)).pos;
    IsValid(n, b.dim) && !b.isWall[n.x][n.y] && !OnBulletTraj(b.known, n.x, n.y, 1) && b.mines[n.x][n.y] <= 0
  }

  /** Forward first, then backward. */
  function FirstSafe(b: Board, me: OPos): (r: Option<Response>)
    requires BoardOk(b)
    ensures r.Some? ==> r.value.Move? && SafeMove(b, me, r.value.direction)
    ensures r.None? <==> !SafeMove(b, me, Forward) && !SafeMove(b, me, Backward)
  {
    if SafeMove(b, me, Forward) then Some(Move(Forward))
    else if SafeMove(b, me, Backward) then Some(Move(Backward))
    else None
  }

  /** A cell the dodge scan passes: in the grid and not a solid wall (it
      does not look at visibility). */
  predicate Open(b: Board, c: Pos)
    requires BoardOk(b)
  {
    IsValid(c, b.dim) && b.wallType[c.x][c.y] != 2
  }

  /** An enemy tank whose turret points back along direction `d` while
      our body is not on the turret's axis. */
  predicate AimsBackAt(o: TileObject, d: Direction, myDir: Direction) {
    o.TankObj? && IsEnemy(o.tank) &&
    o.tank.turret.direction == BackwardDir(d) && !IsParallel(myDir, o.tank.turret.direction)
  }

  predicate AimsBack(objs: seq<TileObject>, d: Direction, myDir: Direction) {
    exists k :: 0 <= k < |objs| && AimsBackAt(objs[k], d, myDir)
  }

  /** Direction `i` is skipped when it is the turret's and we can still
      shoot. */
  predicate Skipped(i: nat, turretDir: Direction, armed: bool)
    requires i < 4
  {
    DirOf(i) == turretDir && armed
  }

  /** Cell `j` along direction `i` holds an enemy aiming back at us. */
  predicate AimsBackFrom(b: Board, me: OPos, i: nat, j: nat)
    requires BoardOk(b) && i < 4
  {
    var c := Ray(me.pos, DirOf(i), j);
    IsValid(c, b.dim) && AimsBack(b.tiles[c.x][c.y].objects, DirOf(i), me.dir)
  }

  /** A threat along direction `i`: the scan passes open cells only, and
      within two of them an enemy aims back at us. */
  predicate ThreatAlong(b: Board, me: OPos, i: nat)
    requires BoardOk(b) && i < 4
  {
    Open(b, Ray(me.pos, DirOf(i), 1)) &&
    (AimsBackFrom(b, me, i, 1) || (Open(b, Ray(me.pos, DirOf(i), 2)) && AimsBackFrom(b, me, i, 2)))
  }

  predicate Threatened(b: Board, me: OPos, turretDir: Direction, armed: bool)
    requires BoardOk(b)
  {
    exists i :: 0 <= i < 4 && !Skipped(i, turretDir, armed) && ThreatAlong(b, me, i)
  }

  /** `dodgeIfNoAmmoAndWillBeHit`: the safe move is the same whichever
      enemy triggered the dodge, so the answer is the first safe move when
      some unskipped direction is threatened, and nothing otherwise. */
  function Dodge(b: Board, me: OPos, turretDir: Direction, armed: bool): (r: Option<Response>)
    requires BoardOk(b)
    ensures r.Some? ==> r.value.Move? && SafeMove(b, me, r.value.direction)
    ensures r.None? <==> !Threatened(b, me, turretDir, armed) || (!SafeMove(b, me, Forward) && !SafeMove(b, me, Backward))
  {
    if Threatened(b, me, turretDir, armed) then FirstSafe(b, me) else None
  }

  /** Whatever the dodge answers, the destination is in the grid, not a
      wall, not predicted hit and not mined. */
  lemma {:induction false} DodgeIsSafe(b: Board, me: OPos, turretDir: Direction, armed: bool)
    requires BoardOk(b)
    ensures var r := Dodge(b, me, turretDir, armed);
      r.Some? ==>
        var n := AfterMove(me, MoveAct(r.value.direction)).pos;
        IsValid(n, b.dim) && !b.isWall[n.x][n.y] && !Hit(b, n) && b.mines[n.x][n.y] <= 0
  {
  }

  // ---------------------------------------------------------------------
  // The capture probability

  /** `captureProb` over reals: the share not held by us among all shares
      (plus 0.01), clamped to [0.1, 0.9]. */
  function CaptureProb(my: real, opp: real, neutral: real): (r: real)
    requires my + opp + neutral + 0.01 != 0.0
    ensures 0.1 <= r <= 0.9
  {
    var all := my + opp + neutral + 0.01;
    var x := (all - my) / all;
    var y := if x < 0.9 then x else 0.9;
    if y > 0.1 then y else 0.1
  }

  /** Holding nothing gives the maximum. */
  lemma {:induction false} CaptureProbWithoutShares(opp: real, neutral: real)
    requires opp >= 0.0 && neutral >= 0.0
    ensures CaptureProb(0.0, opp, neutral) == 0.9
  {
    var all := 0.0 + opp + neutral + 0.01;
    SelfQuotient(all);
    assert (all - 0.0) / all == 1.0;
  }

  lemma {:induction false} SelfQuotient(a: real)
    requires a != 0.0
    ensures a / a == 1.0
  {
    var q := a / a;
    assert q * a == a;
    assert (q - 1.0) * a == 0.0;
  }

  lemma {:induction false} DivAntitone(a: real, d1: real, d2: real)
    requires 0.0 < a && 0.0 < d1 <= d2
    ensures a / d2 <= a / d1
  {
    var q1, q2 := a / d1, a / d2;
    assert q1 * d1 == a;
    assert q2 * d2 == a;
    assert q2 * d1 <= q2 * d2;
  }

  /** With the other shares fixed and non-negative, more own shares never
      raise the probability. */
  lemma {:induction false} CaptureProbMonotone(my1: real, my2: real, opp: real, neutral: real)
    requires 0.0 <= my1 <= my2 && opp >= 0.0 && neutral >= 0.0
    ensures CaptureProb(my2, opp, neutral) <= CaptureProb(my1, opp, neutral)
  {
    var a := opp + neutral + 0.01;
    assert ((my1 + opp + neutral + 0.01) - my1) / (my1 + opp + neutral + 0.01) == a / (my1 + a);
    assert ((my2 + opp + neutral + 0.01) - my2) / (my2 + opp + neutral + 0.01) == a / (my2 + a);
    DivAntitone(a, my1 + a, my2 + a);
  }
}
