/** Grid geometry of the bot: direction indices, rotations, positions on
    (row, column), oriented positions and the four actions a tank can take
    in one tick, together with the small predicates built on them. */
module BotGeometry {
  import opened Wrappers
  import opened BotPackets

  /** The enum's underlying integer. */
  function DirId(d: Direction): nat {
    match d
    case Up => 0
    case Right => 1
    case Down => 2
    case Left => 3
  }

  /** The direction with a given underlying integer. */
  function DirOf(i: nat): (d: Direction)
    requires i < 4
    ensures DirId(d) == i
  {
    if i == 0 then Up else if i == 1 then Right else if i == 2 then Down else Left
  }

  /** `getBackwardDir`: the direction facing the other way, tabulated. */
  function BackwardDir(d: Direction): Direction {
    match d
    case Up => Down
    case Right => Left
    case Down => Up
    case Left => Right
  }

  /** `rotated`: a quarter turn anticlockwise (left) or clockwise (right),
      tabulated. The source asserts that the rotation is not `none`. */
  function Rotated(d: Direction, rot: RotationDirection): (r: Direction)
    requires rot != RotNone
    ensures r != d && r != BackwardDir(d)
    ensures BackwardDir(r) != d
  {
    match d
    case Up => if rot == RotLeft then Left else Right
    case Right => if rot == RotLeft then Up else Down
    case Down => if rot == RotLeft then Right else Left
    case Left => if rot == RotLeft then Down else Up
  }

  /** The tables agree with the source's arithmetic on the enum's integers:
      backward adds 2, left adds 3 and right adds 1, modulo 4; a direction
      is its integer's direction. */
  lemma {:induction false} TurnsAreModular(d: Direction)
    ensures DirOf(DirId(d)) == d
    ensures BackwardDir(d) == DirOf((DirId(d) + 2) % 4)
    ensures Rotated(d, RotLeft) == DirOf((DirId(d) + 3) % 4)
    ensures Rotated(d, RotRight) == DirOf((DirId(d) + 1) % 4)
  {
    match d {
      case Up => case Right => case Down => case Left =>
    }
  }

  lemma {:induction false} BackwardTwice(d: Direction)
    ensures BackwardDir(BackwardDir(d)) == d
    ensures BackwardDir(d) != d
  {
  }

  lemma {:induction false} RotateLeftRight(d: Direction)
    ensures Rotated(Rotated(d, RotLeft), RotRight) == d
    ensures Rotated(Rotated(d, RotRight), RotLeft) == d
    ensures Rotated(Rotated(d, RotRight), RotRight) == BackwardDir(d)
  {
  }

  datatype Pos = Pos(x: int, y: int)

  /** `Position::DIRECTIONS`: up (-1,0), right (0,1), down (1,0), left (0,-1). */
  function Delta(d: Direction): Pos {
    match d
    case Up => Pos(-1, 0)
    case Right => Pos(0, 1)
    case Down => Pos(1, 0)
    case Left => Pos(0, -1)
  }

  function Step(p: Pos, d: Direction): Pos {
    Pos(p.x + Delta(d).x, p.y + Delta(d).y)
  }

  lemma {:induction false} StepBack(p: Pos, d: Direction)
    ensures Step(Step(p, d), BackwardDir(d)) == p
    ensures Step(p, d) != p
  {
  }

  function IsValid(p: Pos, dim: int): bool {
    0 <= p.x < dim && 0 <= p.y < dim
  }

  datatype OPos = OPos(pos: Pos, dir: Direction)

  /** `MoveOrRotation`: a move along the body or a body rotation. */
  datatype Action = MoveAct(move: MoveDirection) | RotAct(rot: RotationDirection)

  /** `ALL_ACTIONS`, in the order the search tries them. */
  const AllActions: seq<Action> := [MoveAct(Forward), MoveAct(Backward), RotAct(RotLeft), RotAct(RotRight)]

  /** The actions a tank can perform: every action except a `none` rotation. */
  predicate Performable(a: Action) {
    a != RotAct(RotNone)
  }

  /** `reversed`: forward and backward swap, a left rotation becomes right,
      and any other rotation (right or none) becomes left. */
  function Reversed(a: Action): (r: Action)
    ensures Performable(r)
  {
    match a
    case MoveAct(m) => if m == Forward then MoveAct(Backward) else MoveAct(Forward)
    case RotAct(r) => if r == RotLeft then RotAct(RotRight) else RotAct(RotLeft)
  }

  /** `afterMove` on an oriented position. */
  function AfterMove(p: OPos, a: Action): (r: OPos)
    requires Performable(a)
  {
    match a
    case MoveAct(m) =>
      if m == Forward then OPos(Step(p.pos, p.dir), p.dir)
      else OPos(Step(p.pos, BackwardDir(p.dir)), p.dir)
    case RotAct(rot) => OPos(p.pos, Rotated(p.dir, rot))
  }

  /** Reversal is an involution on the performable actions, which are exactly
      the four of `ALL_ACTIONS`; the `none` rotation is not restored. */
  lemma {:induction false} ReversedInvolutive(a: Action)
    ensures Performable(a) <==> a in AllActions
    ensures Performable(a) ==> Reversed(Reversed(a)) == a
    ensures Reversed(Reversed(RotAct(RotNone))) == RotAct(RotRight)
  {
    assert AllActions[0] == MoveAct(Forward) && AllActions[1] == MoveAct(Backward);
    assert AllActions[2] == RotAct(RotLeft) && AllActions[3] == RotAct(RotRight);
    match a
    case MoveAct(m) =>
      assert m == Forward || m == Backward;
    case RotAct(r) =>
      assert r == RotLeft || r == RotRight || r == RotNone;
  }

  /** Undoing an action with its reverse returns to the starting state. */
  lemma {:induction false} AfterMoveReversed(p: OPos, a: Action)
    requires Performable(a)
    ensures AfterMove(AfterMove(p, a), Reversed(a)) == p
  {
    match a
    case MoveAct(m) =>
      StepBack(p.pos, p.dir);
      StepBack(p.pos, BackwardDir(p.dir));
      BackwardTwice(p.dir);
    case RotAct(rot) =>
      RotateLeftRight(p.dir);
  }

  /** Moves change the cell and keep the facing; rotations keep the cell and
      change the facing. */
  lemma {:induction false} AfterMoveShape(p: OPos, a: Action)
    requires Performable(a)
    ensures a.MoveAct? ==> AfterMove(p, a).dir == p.dir && AfterMove(p, a).pos != p.pos
    ensures a.RotAct? ==> AfterMove(p, a).pos == p.pos && AfterMove(p, a).dir != p.dir
    ensures AfterMove(p, a) != p
  {
  }

  /** `getMoveFollowing`: the action that heads towards `moveDir`. */
  function GetMoveFollowing(p: OPos, moveDir: Direction): (a: Action)
    ensures Performable(a)
  {
    if moveDir == p.dir then MoveAct(Forward)
    else if moveDir == BackwardDir(p.dir) then MoveAct(Backward)
    else if (DirId(p.dir) + 1) % 4 == DirId(moveDir) then RotAct(RotRight)
    else RotAct(RotLeft)
  }

  /** The chosen action either moves one cell towards `moveDir` or turns the
      body to face it. */
  lemma {:induction false} MoveFollowingHeadsThere(p: OPos, moveDir: Direction)
    ensures var a := GetMoveFollowing(p, moveDir);
      (a.MoveAct? && AfterMove(p, a).pos == Step(p.pos, moveDir)) ||
      (a.RotAct? && AfterMove(p, a).dir == moveDir)
  {
    match p.dir {
      case Up => match moveDir { case Up => case Right => case Down => case Left => }
      case Right => match moveDir { case Up => case Right => case Down => case Left => }
      case Down => match moveDir { case Up => case Right => case Down => case Left => }
      case Left => match moveDir { case Up => case Right => case Down => case Left => }
    }
  }

  /** Same or opposite direction. */
  predicate IsParallel(d1: Direction, d2: Direction) {
    DirId(d1) == DirId(d2) || DirId(d1) == (DirId(d2) + 2) % 4
  }

  lemma {:induction false} ParallelMeansSameAxis(d1: Direction, d2: Direction)
    ensures IsParallel(d1, d2) <==> (d1 == d2 || d1 == BackwardDir(d2))
    ensures IsParallel(d1, d2) == IsParallel(d2, d1)
  {
    match d1 {
      case Up => match d2 { case Up => case Right => case Down => case Left => }
      case Right => match d2 { case Up => case Right => case Down => case Left => }
      case Down => match d2 { case Up => case Right => case Down => case Left => }
      case Left => match d2 { case Up => case Right => case Down => case Left => }
    }
  }

  /** `getRotationTo`: none when already facing `to`, right when one right
      turn reaches it, left otherwise (including the opposite direction). */
  function GetRotationTo(from: Direction, to: Direction): RotationDirection {
    if from == to then RotNone
    else if Rotated(from, RotRight) == to then RotRight
    else RotLeft
  }

  lemma {:induction false} RotationToReaches(from: Direction, to: Direction)
    ensures GetRotationTo(from, to) == RotNone <==> from == to
    ensures GetRotationTo(from, to) == RotRight ==> Rotated(from, RotRight) == to
    ensures GetRotationTo(from, to) == RotLeft ==>
      Rotated(from, RotLeft) == to || to == BackwardDir(from)
  {
  }

  /** Out of the grid, or a wall. */
  predicate Blocked(isWall: seq<seq<bool>>, dim: nat, p: Pos)
    requires |isWall| == dim && forall i :: 0 <= i < dim ==> |isWall[i]| == dim
  {
    !IsValid(p, dim) || isWall[p.x][p.y]
  }

  /** `isBetweenWalls`, written with explicit coordinates as in the source. */
  function IsBetweenWalls(myPos: Pos, isWall: seq<seq<bool>>, dim: nat): bool
    requires |isWall| == dim && forall i :: 0 <= i < dim ==> |isWall[i]| == dim
  {
    var x, y := myPos.x, myPos.y;
    if (!IsValid(Pos(x - 1, y), dim) || isWall[x - 1][y])
      && (!IsValid(Pos(x + 1, y), dim) || isWall[x + 1][y])
    then true
    else if (!IsValid(Pos(x, y - 1), dim) || isWall[x][y - 1])
      && (!IsValid(Pos(x, y + 1), dim) || isWall[x][y + 1])
    then true
    else false
  }

  /** The tank is boxed in on both sides along one axis of travel. */
  lemma {:induction false} BetweenWallsByAxis(myPos: Pos, isWall: seq<seq<bool>>, dim: nat)
    requires |isWall| == dim && forall i :: 0 <= i < dim ==> |isWall[i]| == dim
    ensures IsBetweenWalls(myPos, isWall, dim) <==>
      (Blocked(isWall, dim, Step(myPos, Up)) && Blocked(isWall, dim, Step(myPos, Down))) ||
      (Blocked(isWall, dim, Step(myPos, Left)) && Blocked(isWall, dim, Step(myPos, Right)))
  {
    var x, y := myPos.x, myPos.y;
    assert Step(myPos, Up) == Pos(x - 1, y) && Step(myPos, Down) == Pos(x + 1, y);
    assert Step(myPos, Left) == Pos(x, y - 1) && Step(myPos, Right) == Pos(x, y + 1);
  }

  /** `isOneOfMyTanks`: only own tanks carry a bullet count. */
  predicate IsOneOfMyTanks(t: Tank) {
    t.turret.bulletCount.Some?
  }

  predicate IsEnemy(t: Tank) {
    !IsOneOfMyTanks(t)
  }

  /** A cooldown counter that is absent or zero is ready. */
  predicate Ready(ticks: Option<int>) {
    ticks.None? || ticks.value == 0
  }

  predicate CanShootLaser(t: Tank)
    requires IsOneOfMyTanks(t)
  {
    t.tankType == Heavy && Ready(t.turret.ticksToLaser)
  }

  predicate CanShootDouble(t: Tank)
    requires IsOneOfMyTanks(t)
  {
    t.tankType == Light && Ready(t.turret.ticksToDoubleBullet)
  }

  predicate CanShootHealing(t: Tank)
    requires IsOneOfMyTanks(t)
  {
    Ready(t.turret.ticksToHealingBullet)
  }

  predicate CanShootStun(t: Tank)
    requires IsOneOfMyTanks(t)
  {
    Ready(t.turret.ticksToStunBullet)
  }

  predicate CanDropMine(t: Tank)
    requires IsOneOfMyTanks(t)
  {
    t.tankType == Heavy && Ready(t.ticksToMine)
  }

  predicate CanUseRadar(t: Tank)
    requires IsOneOfMyTanks(t)
  {
    t.tankType == Light && Ready(t.ticksToRadar)
  }

  /** Laser and mine belong to heavy tanks, double bullet and radar to light
      ones, so no tank has both abilities of a pair ready. */
  lemma {:induction false} AbilitiesByTankType(t: Tank)
    requires IsOneOfMyTanks(t)
    ensures !(CanShootLaser(t) && CanShootDouble(t))
    ensures !(CanDropMine(t) && CanUseRadar(t))
    ensures CanShootLaser(t) || CanDropMine(t) ==> t.tankType == Heavy
    ensures CanShootDouble(t) || CanUseRadar(t) ==> t.tankType == Light
  {
  }

  /** `targetZone`: the goal of reaching a tile of zone 'A'. */
  predicate InTargetZone(zoneName: seq<seq<char>>, p: OPos)
    requires 0 <= p.pos.x < |zoneName| && 0 <= p.pos.y < |zoneName[p.pos.x]|
  {
    zoneName[p.pos.x][p.pos.y] == 'A'
  }
}
