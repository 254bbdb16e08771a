/** Bullets: their identity, their position (kept as reals, read as the
    truncated cell), and the cells a bullet sweeps through in one tick,
    which the server computes with Bresenham's line algorithm from the cell
    it was in to the cell it is in now. */
module LogicBullets {
  import opened Wrappers
  import opened LogicDirections
  import opened LogicFractions
  import opened LogicTanks

  /** `BulletType`. */
  datatype BulletType = Basic | Double | Healing | Stun

  /** The static `idCounter` shared by every bullet made by a shooter. */
  class BulletIds {
    var next: int

    constructor ()
      ensures next == 0
    {
      next := 0;
    }
  }

  /** A bullet as a game state payload carries it. */
  datatype BulletSnapshot = BulletSnapshot(id: int, x: int, y: int, direction: Direction, speed: real,
                                           damage: Option<int>, shooterId: Option<string>)

  class Bullet {
    const id: int
    var x: real
    var y: real
    const direction: Direction
    const speed: real
    const kind: BulletType
    const damage: Option<int>
    const shooterId: Option<string>
    var shooter: Player?

    /** A bullet fired by `shooter`: the next id of the counter, and the
        shooter's id recorded beside the shooter. */
    constructor Fired(ids: BulletIds, x: int, y: int, direction: Direction, kind: BulletType,
                      speed: real, damage: int, shooter: Player)
      modifies ids
      ensures id == old(ids.next) && ids.next == old(ids.next) + 1
      ensures X() == x && Y() == y && this.direction == direction && this.kind == kind
      ensures this.speed == speed && this.damage == Some(damage)
      ensures this.shooter == shooter && shooterId == Some(shooter.id)
    {
      id := ids.next;
      this.x := x as real;
      this.y := y as real;
      this.direction := direction;
      this.kind := kind;
      this.speed := speed;
      this.damage := Some(damage);
      this.shooter := shooter;
      shooterId := Some(shooter.id);
      new;
      ids.next := ids.next + 1;
    }

    /** A bullet rebuilt from a payload snapshot: its id, cell, direction,
        speed, damage and shooter id, and no shooter object. */
    constructor Snapshot(snapshot: BulletSnapshot)
      ensures id == snapshot.id && X() == snapshot.x && Y() == snapshot.y && direction == snapshot.direction
      ensures speed == snapshot.speed && damage == snapshot.damage && shooterId == snapshot.shooterId
      ensures kind == Basic && shooter == null
    {
      id := snapshot.id;
      x := snapshot.x as real;
      y := snapshot.y as real;
      direction := snapshot.direction;
      speed := snapshot.speed;
      kind := Basic;
      damage := snapshot.damage;
      shooterId := snapshot.shooterId;
      shooter := null;
    }

    /** `X`: the cell column, the position truncated toward zero. */
    function X(): int
      reads this`x
    {
      Trunc(x)
    }

    /** `Y`: the cell row, the position truncated toward zero. */
    function Y(): int
      reads this`y
    {
      Trunc(y)
    }

    /** `Equals`: bullets are the same bullet when their ids are. */
    predicate Equals(other: Bullet?) {
      other != null && other.id == id
    }

    /** `UpdatePosition`: the bullet moves `speed * deltaTime` along its
        direction, y growing downwards. */
    method UpdatePosition(deltaTime: real)
      modifies this`x, this`y
      ensures var (nx, ny) := Normal(direction);
        x == old(x) + nx as real * speed * deltaTime && y == old(y) + ny as real * speed * deltaTime
    {
      var delta := speed * deltaTime;
      match direction
      case Up => y := y - delta;
      case Down => y := y + delta;
      case Left => x := x - delta;
      case Right => x := x + delta;
    }

    /** `CalculateTrajectory`: the cells from `(startX, startY)` to the
        bullet's current cell. */
    method CalculateTrajectory(startX: int, startY: int) returns (coords: seq<(int, int)>)
      ensures coords == Trajectory(startX, startY, X(), Y())
    {
      coords := LineCells(startX, startY, X(), Y());
    }
  }

  /** `Bullet.Equals` is an equivalence on bullets. */
  lemma {:induction false} BulletEqualsIsEquivalence(a: Bullet, b: Bullet, c: Bullet)
    ensures a.Equals(a)
    ensures a.Equals(b) <==> b.Equals(a)
    ensures a.Equals(b) && b.Equals(c) ==> a.Equals(c)
  {
  }

  // ---------------------------------------------------------------------
  // The line through the cells

  /** The error term after `i` steps along x and `j` steps along y of a
      line from (0, 0) to (dx, dy): it starts at `dx - dy`, loses `dy` for
      each x step and gains `dx` for each y step. */
  function Err(dx: int, dy: int, i: nat, j: nat): int
    decreases i + j
  {
    if i > 0 then Err(dx, dy, i - 1, j) - dy
    else if j > 0 then Err(dx, dy, 0, j - 1) + dx
    else dx - dy
  }

  /** Whether the step from (i, j) advances along x, and along y. */
  predicate StepsX(dx: int, dy: int, i: nat, j: nat) {
    2 * Err(dx, dy, i, j) > -dy
  }

  predicate StepsY(dx: int, dy: int, i: nat, j: nat) {
    2 * Err(dx, dy, i, j) < dx
  }

  lemma {:induction false} MulMono(a: int, b: int, c: int)
    requires a <= b && c >= 0
    ensures a * c <= b * c
  {
  }

  /** The error in closed form. */
  lemma {:induction false} ErrClosed(dx: int, dy: int, i: nat, j: nat)
    ensures Err(dx, dy, i, j) == (1 + j) * dx - (1 + i) * dy
    decreases i + j
  {
    if i > 0 {
      ErrClosed(dx, dy, i - 1, j);
    } else if j > 0 {
      ErrClosed(dx, dy, 0, j - 1);
    }
  }

  /** A step along x lowers the error by `dy`, one along y raises it by
      `dx`. */
  lemma {:induction false} ErrStep(dx: int, dy: int, i: nat, j: nat)
    ensures Err(dx, dy, i + 1, j) == Err(dx, dy, i, j) - dy
    ensures Err(dx, dy, i, j + 1) == Err(dx, dy, i, j) + dx
    ensures Err(dx, dy, i + 1, j + 1) == Err(dx, dy, i, j) + dx - dy
  {
    ErrClosed(dx, dy, i, j);
    ErrClosed(dx, dy, i + 1, j);
    ErrClosed(dx, dy, i, j + 1);
    ErrClosed(dx, dy, i + 1, j + 1);
  }

  /** Short of the target, a step advances along at least one axis and
      never beyond the target on either. */
  lemma {:induction false} StepInBox(dx: nat, dy: nat, i: nat, j: nat)
    requires i <= dx && j <= dy && (i, j) != (dx, dy)
    ensures StepsX(dx, dy, i, j) ==> i < dx
    ensures StepsY(dx, dy, i, j) ==> j < dy
    ensures StepsX(dx, dy, i, j) || StepsY(dx, dy, i, j)
  {
    ErrClosed(dx, dy, i, j);
    if i == dx && j < dy {
      MulMono(1 + j, dy, dx);
      assert Err(dx, dy, i, j) <= dy * dx - (1 + dx) * dy;
    }
    if j == dy && i < dx {
      MulMono(1 + i, dx, dy);
      assert Err(dx, dy, i, j) >= (1 + dy) * dx - dx * dy;
    }
  }

  /** The offsets a line from (0, 0) to (dx, dy) visits after (i, j), in
      order: each step advances x when twice the error exceeds `-dy` and y
      when it is below `dx`. */
  function Steps(dx: nat, dy: nat, i: nat, j: nat): seq<(int, int)>
    requires i <= dx && j <= dy
    decreases (dx - i) + (dy - j)
  {
    if i == dx && j == dy then []
    else
      var (i', j') := Next(dx, dy, i, j);
      [(i', j')] + Steps(dx, dy, i', j')
  }

  /** The offset after (i, j), short of the target: one further along x
      when the step advances x, and along y when it advances y; always
      somewhere new, and never past the target. */
  function Next(dx: nat, dy: nat, i: nat, j: nat): (r: (nat, nat))
    requires i <= dx && j <= dy && (i, j) != (dx, dy)
    ensures i <= r.0 <= dx && j <= r.1 <= dy && r != (i, j)
    ensures r.0 <= i + 1 && r.1 <= j + 1
  {
    StepInBox(dx, dy, i, j);
    (if StepsX(dx, dy, i, j) then i + 1 else i, if StepsY(dx, dy, i, j) then j + 1 else j)
  }

  /** One step of a line: at most one cell along each axis, in the
      direction of travel, and not standing still. */
  predicate Advance(a: (int, int), b: (int, int)) {
    0 <= b.0 - a.0 <= 1 && 0 <= b.1 - a.1 <= 1 && a != b
  }

  /** `s` is a line of steps out of `from`. */
  ghost predicate Advances(from: (int, int), s: seq<(int, int)>) {
    (|s| > 0 ==> Advance(from, s[0])) &&
    forall k, m :: 0 <= k < m < |s| && m == k + 1 ==> Advance(s[k], s[m])
  }

  /** The offsets after (i, j) end at (dx, dy); there are between
      max(dx - i, dy - j) and (dx - i) + (dy - j) of them; and each lies in
      the box between (i, j) and (dx, dy). */
  lemma {:induction false} StepsShape(dx: nat, dy: nat, i: nat, j: nat)
    requires i <= dx && j <= dy
    ensures var s := Steps(dx, dy, i, j);
      ((i, j) == (dx, dy) <==> s == []) &&
      (s != [] ==> s[|s| - 1] == (dx, dy)) &&
      dx - i <= |s| && dy - j <= |s| && |s| <= (dx - i) + (dy - j) &&
      forall k :: 0 <= k < |s| ==> i <= s[k].0 <= dx && j <= s[k].1 <= dy && s[k] != (i, j)
    decreases (dx - i) + (dy - j)
  {
    if (i, j) != (dx, dy) {
      var (i', j') := Next(dx, dy, i, j);
      StepsShape(dx, dy, i', j');
      assert Steps(dx, dy, i, j) == [(i', j')] + Steps(dx, dy, i', j');
    }
  }

  /** The offsets after (i, j) form a line of steps out of (i, j). */
  lemma {:induction false} StepsAdvance(dx: nat, dy: nat, i: nat, j: nat)
    requires i <= dx && j <= dy
    ensures Advances((i, j), Steps(dx, dy, i, j))
    decreases (dx - i) + (dy - j)
  {
    if (i, j) != (dx, dy) {
      var (i', j') := Next(dx, dy, i, j);
      StepsAdvance(dx, dy, i', j');
      var s := Steps(dx, dy, i, j);
      var rest := Steps(dx, dy, i', j');
      assert s == [(i', j')] + rest;
      assert s[0] == (i', j');
      forall k, m | 0 <= k < m < |s| && m == k + 1
        ensures Advance(s[k], s[m])
      {
        assert s[m] == rest[k];
        if k > 0 {
          assert s[k] == rest[k - 1];
        }
      }
      assert Advances((i, j), s);
    }
  }

  /** Along the x axis (dy = 0) the line lists every column in turn. */
  lemma {:induction false} StepsAlongX(dx: nat, i: nat)
    requires i <= dx
    ensures Steps(dx, 0, i, 0) == seq(dx - i, k => (i + k + 1, 0))
    decreases dx - i
  {
    if i < dx {
      ErrClosed(dx, 0, i, 0);
      assert StepsX(dx, 0, i, 0) && !StepsY(dx, 0, i, 0);
      StepsAlongX(dx, i + 1);
    }
  }

  /** Along the y axis (dx = 0) the line lists every row in turn. */
  lemma {:induction false} StepsAlongY(dy: nat, j: nat)
    requires j <= dy
    ensures Steps(0, dy, 0, j) == seq(dy - j, k => (0, j + k + 1))
    decreases dy - j
  {
    if j < dy {
      assert !StepsX(0, dy, 0, j) && StepsY(0, dy, 0, j) by {
        ErrClosed(0, dy, 0, j);
      }
      StepsAlongY(dy, j + 1);
    }
  }

  /** `s0 + i` when travelling forwards, `s0 - i` otherwise. */
  function Along(s0: int, forward: bool, i: int): int {
    if forward then s0 + i else s0 - i
  }

  /** The cells of a sequence of offsets from `(x0, y0)`. */
  function Cells(x0: int, y0: int, fx: bool, fy: bool, s: seq<(int, int)>): (r: seq<(int, int)>)
    ensures |r| == |s|
  {
    if |s| == 0 then [] else [(Along(x0, fx, s[0].0), Along(y0, fy, s[0].1))] + Cells(x0, y0, fx, fy, s[1..])
  }

  function Abs(n: int): nat {
    if n < 0 then -n else n
  }

  /** The trajectory from `(startX, startY)` to `(endX, endY)`: the start
      alone when the two coincide, otherwise the cells of the line after
      the start, up to and including the end. */
  function Trajectory(startX: int, startY: int, endX: int, endY: int): seq<(int, int)> {
    if startX == endX && startY == endY then [(startX, startY)]
    else Cells(startX, startY, startX < endX, startY < endY, Steps(Abs(endX - startX), Abs(endY - startY), 0, 0))
  }

  /** The computation both `Bullet.CalculateTrajectory` and the static
      `BulletSystem.CalculateTrajectory` perform. */
  method LineCells(startX: int, startY: int, endX: int, endY: int) returns (coords: seq<(int, int)>)
    ensures coords == Trajectory(startX, startY, endX, endY)
  {
    if startX == endX && startY == endY {
      coords := [(startX, startY)];
    } else {
      coords := Walk(startX, startY, endX, endY);
    }
  }

  /** The loop of `LineCells` for a bullet that left its cell. */
  method Walk(startX: int, startY: int, endX: int, endY: int) returns (coords: seq<(int, int)>)
    requires !(startX == endX && startY == endY)
    ensures coords == Cells(startX, startY, startX < endX, startY < endY,
                            Steps(Abs(endX - startX), Abs(endY - startY), 0, 0))
  {
    coords := [];
    var dx := Abs(endX - startX);
    var dy := Abs(endY - startY);
    var sx := if startX < endX then 1 else -1;
    var sy := if startY < endY then 1 else -1;
    var err := dx - dy;
    var cx, cy := startX, startY;
    ghost var fx, fy := startX < endX, startY < endY;
    ghost var i: nat, j: nat := 0, 0;
    ghost var line := Cells(startX, startY, fx, fy, Steps(dx, dy, 0, 0));
    while cx != endX || cy != endY
      invariant i <= dx && j <= dy
      invariant Along(startX, fx, dx) == endX && Along(startY, fy, dy) == endY
      invariant sx == (if fx then 1 else -1) && sy == (if fy then 1 else -1)
      invariant cx == Along(startX, fx, i) && cy == Along(startY, fy, j)
      invariant err == Err(dx, dy, i, j)
      invariant coords + Cells(startX, startY, fx, fy, Steps(dx, dy, i, j)) == line
      decreases (dx - i) + (dy - j)
    {
      StepInBox(dx, dy, i, j);
      ErrStep(dx, dy, i, j);
      LineStep(startX, startY, fx, fy, dx, dy, i, j, coords, line);
      ghost var next := Next(dx, dy, i, j);
      err, cx, cy := StepOnce(dx, dy, sx, sy, err, cx, cy);
      i, j := next.0, next.1;
      coords := coords + [(cx, cy)];
    }
    assert Steps(dx, dy, i, j) == [];
  }

  /** The body of the loop of `Walk`: a step along x when twice the error
      exceeds `-dy`, and one along y when it is below `dx`. */
  method StepOnce(dx: int, dy: int, sx: int, sy: int, err: int, cx: int, cy: int)
    returns (err': int, cx': int, cy': int)
    ensures 2 * err > -dy ==> cx' == cx + sx
    ensures 2 * err <= -dy ==> cx' == cx
    ensures 2 * err < dx ==> cy' == cy + sy
    ensures 2 * err >= dx ==> cy' == cy
    ensures err' == err - (if 2 * err > -dy then dy else 0) + (if 2 * err < dx then dx else 0)
  {
    err', cx', cy' := err, cx, cy;
    var e2 := 2 * err;
    if e2 > -dy {
      err' := err' - dy;
      cx' := cx' + sx;
    }
    if e2 < dx {
      err' := err' + dx;
      cy' := cy' + sy;
    }
  }

  /** One turn of the loop of `Walk`: the next offset's cell moves
      from the cells still to come to the cells listed. */
  lemma {:induction false} LineStep(x0: int, y0: int, fx: bool, fy: bool, dx: nat, dy: nat, i: nat, j: nat,
                 coords: seq<(int, int)>, line: seq<(int, int)>)
    requires i <= dx && j <= dy && (i, j) != (dx, dy)
    requires coords + Cells(x0, y0, fx, fy, Steps(dx, dy, i, j)) == line
    ensures var (i', j') := Next(dx, dy, i, j);
      (coords + [(Along(x0, fx, i'), Along(y0, fy, j'))]) + Cells(x0, y0, fx, fy, Steps(dx, dy, i', j')) == line
  {
    var (i', j') := Next(dx, dy, i, j);
    var c := (Along(x0, fx, i'), Along(y0, fy, j'));
    var rest := Steps(dx, dy, i', j');
    assert Steps(dx, dy, i, j) == [(i', j')] + rest;
    CellsCons(x0, y0, fx, fy, (i', j'), rest);
    assert coords + ([c] + Cells(x0, y0, fx, fy, rest)) == (coords + [c]) + Cells(x0, y0, fx, fy, rest);
  }

  lemma {:induction false} CellsAt(x0: int, y0: int, fx: bool, fy: bool, s: seq<(int, int)>)
    ensures var r := Cells(x0, y0, fx, fy, s);
      |r| == |s| && forall k :: 0 <= k < |s| ==> r[k] == (Along(x0, fx, s[k].0), Along(y0, fy, s[k].1))
  {
    if |s| > 0 {
      CellsAt(x0, y0, fx, fy, s[1..]);
    }
  }

  lemma {:induction false} CellsCons(x0: int, y0: int, fx: bool, fy: bool, a: (int, int), rest: seq<(int, int)>)
    ensures Cells(x0, y0, fx, fy, [a] + rest) == [(Along(x0, fx, a.0), Along(y0, fy, a.1))] + Cells(x0, y0, fx, fy, rest)
  {
    assert ([a] + rest)[1..] == rest;
  }

  /** A bullet that stays in its cell sweeps that cell alone. */
  lemma {:induction false} TrajectoryInPlace(x: int, y: int)
    ensures Trajectory(x, y, x, y) == [(x, y)]
  {
  }

  /** A bullet that moved sweeps at least one cell and ends at its current
      cell; it sweeps between the larger and the sum of the two distances,
      and never its starting cell. */
  lemma {:induction false} TrajectoryEnds(startX: int, startY: int, endX: int, endY: int)
    requires !(startX == endX && startY == endY)
    ensures var t := Trajectory(startX, startY, endX, endY);
      |t| > 0 && t[|t| - 1] == (endX, endY) &&
      Abs(endX - startX) <= |t| && Abs(endY - startY) <= |t| &&
      |t| <= Abs(endX - startX) + Abs(endY - startY) &&
      forall k :: 0 <= k < |t| ==> t[k] != (startX, startY)
  {
    StepsShape(Abs(endX - startX), Abs(endY - startY), 0, 0);
    CellsEnds(startX, startY, endX, endY, Steps(Abs(endX - startX), Abs(endY - startY), 0, 0));
  }

  /** `TrajectoryEnds` for any offsets shaped like those of a line from
      the start to the end. */
  lemma {:induction false} CellsEnds(startX: int, startY: int, endX: int, endY: int, s: seq<(int, int)>)
    requires s != [] && s[|s| - 1] == (Abs(endX - startX), Abs(endY - startY))
    requires Abs(endX - startX) <= |s| && Abs(endY - startY) <= |s| && |s| <= Abs(endX - startX) + Abs(endY - startY)
    requires forall k :: 0 <= k < |s| ==> 0 <= s[k].0 && 0 <= s[k].1 && s[k] != (0, 0)
    ensures var t := Cells(startX, startY, startX < endX, startY < endY, s);
      |t| > 0 && t[|t| - 1] == (endX, endY) &&
      Abs(endX - startX) <= |t| && Abs(endY - startY) <= |t| &&
      |t| <= Abs(endX - startX) + Abs(endY - startY) &&
      forall k :: 0 <= k < |t| ==> t[k] != (startX, startY)
  {
    var fx, fy := startX < endX, startY < endY;
    assert Along(startX, fx, Abs(endX - startX)) == endX && Along(startY, fy, Abs(endY - startY)) == endY;
    CellAt(startX, startY, fx, fy, s, |s| - 1);
    CellsAvoidStart(startX, startY, fx, fy, s);
  }

  /** Offsets that are all non-negative and none (0, 0) give no cell at
      the start. */
  lemma {:induction false} CellsAvoidStart(x0: int, y0: int, fx: bool, fy: bool, s: seq<(int, int)>)
    requires forall k :: 0 <= k < |s| ==> 0 <= s[k].0 && 0 <= s[k].1 && s[k] != (0, 0)
    ensures forall k :: 0 <= k < |s| ==> Cells(x0, y0, fx, fy, s)[k] != (x0, y0)
  {
    forall k | 0 <= k < |s|
      ensures Cells(x0, y0, fx, fy, s)[k] != (x0, y0)
    {
      CellAt(x0, y0, fx, fy, s, k);
    }
  }

  /** Each cell of a trajectory is at most one column and one row away
      from the one before it (the start, for the first), and no further
      from the end along either axis. */
  lemma {:induction false} TrajectoryAdjacent(startX: int, startY: int, endX: int, endY: int, k: int)
    requires !(startX == endX && startY == endY)
    requires 0 <= k < |Trajectory(startX, startY, endX, endY)|
    ensures var t := Trajectory(startX, startY, endX, endY);
      var prev := if k == 0 then (startX, startY) else t[k - 1];
      Abs(t[k].0 - prev.0) <= 1 && Abs(t[k].1 - prev.1) <= 1 &&
      Abs(endX - t[k].0) <= Abs(endX - prev.0) && Abs(endY - t[k].1) <= Abs(endY - prev.1)
  {
    var dx, dy := Abs(endX - startX), Abs(endY - startY);
    StepsInBox(dx, dy);
    CellsAdjacent(startX, startY, startX < endX, startY < endY, dx, dy, endX, endY, Steps(dx, dy, 0, 0), k);
  }

  /** The offsets from (0, 0) to (dx, dy) are a line of steps inside the
      box between the two. */
  lemma {:induction false} StepsInBox(dx: nat, dy: nat)
    ensures var s := Steps(dx, dy, 0, 0);
      Advances((0, 0), s) && forall n :: 0 <= n < |s| ==> 0 <= s[n].0 <= dx && 0 <= s[n].1 <= dy
  {
    StepsShape(dx, dy, 0, 0);
    StepsAdvance(dx, dy, 0, 0);
  }

  /** The cells of any line of offsets in the box from (0, 0) to (dx, dy)
      step as `TrajectoryAdjacent` says. */
  lemma {:induction false} CellsAdjacent(x0: int, y0: int, fx: bool, fy: bool, dx: int, dy: int, endX: int, endY: int,
                      s: seq<(int, int)>, k: int)
    requires Along(x0, fx, dx) == endX && Along(y0, fy, dy) == endY
    requires Advances((0, 0), s) && 0 <= k < |s|
    requires forall n :: 0 <= n < |s| ==> 0 <= s[n].0 <= dx && 0 <= s[n].1 <= dy
    ensures var t := Cells(x0, y0, fx, fy, s);
      var prev := if k == 0 then (x0, y0) else t[k - 1];
      Abs(t[k].0 - prev.0) <= 1 && Abs(t[k].1 - prev.1) <= 1 &&
      Abs(endX - t[k].0) <= Abs(endX - prev.0) && Abs(endY - t[k].1) <= Abs(endY - prev.1)
  {
    var p := if k == 0 then (0, 0) else s[k - 1];
    assert Advance(p, s[k]);
    CellAt(x0, y0, fx, fy, s, k);
    if k > 0 {
      CellAt(x0, y0, fx, fy, s, k - 1);
    }
    AlongDistance(x0, fx, dx, endX, p.0, s[k].0);
    AlongDistance(y0, fy, dy, endY, p.1, s[k].1);
  }

  lemma {:induction false} CellAt(x0: int, y0: int, fx: bool, fy: bool, s: seq<(int, int)>, k: int)
    requires 0 <= k < |s|
    ensures Cells(x0, y0, fx, fy, s)[k] == (Along(x0, fx, s[k].0), Along(y0, fy, s[k].1))
  {
    if k > 0 {
      CellAt(x0, y0, fx, fy, s[1..], k - 1);
    }
  }

  /** Distances between cells of one axis of a line are differences of
      offsets. */
  lemma {:induction false} AlongDistance(s0: int, forward: bool, d: int, end: int, a: int, b: int)
    requires Along(s0, forward, d) == end && 0 <= a <= b <= d
    ensures Abs(Along(s0, forward, b) - Along(s0, forward, a)) == b - a
    ensures Abs(end - Along(s0, forward, a)) == d - a && Abs(end - Along(s0, forward, b)) == d - b
  {
  }

  /** A bullet moving along a row or a column sweeps every cell after the
      start, in order, up to the end. */
  lemma {:induction false} TrajectoryAlongAxis(startX: int, startY: int, endX: int, endY: int)
    requires startX == endX || startY == endY
    requires !(startX == endX && startY == endY)
    ensures var t := Trajectory(startX, startY, endX, endY);
      var d := Abs(endX - startX) + Abs(endY - startY);
      |t| == d &&
      forall k :: 0 <= k < d ==>
        t[k] == (Along(startX, startX < endX, if startY == endY then k + 1 else 0),
                 Along(startY, startY < endY, if startX == endX then k + 1 else 0))
  {
    var dx, dy := Abs(endX - startX), Abs(endY - startY);
    if startY == endY {
      StepsAlongX(dx, 0);
    } else {
      StepsAlongY(dy, 0);
    }
    CellsAt(startX, startY, startX < endX, startY < endY, Steps(dx, dy, 0, 0));
  }
}
