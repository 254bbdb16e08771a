/** `CollisionDetector.CheckBulletCollision`: what a bullet runs into along
    the cells it swept this tick. The trajectories dictionary is a sequence
    of entries in insertion order, looked up by bullet id as the
    dictionary's key equality does. */
module LogicCollision {
  import opened Wrappers
  import opened LogicDirections
  import opened LogicTanks
  import opened LogicBullets
  import opened LogicGrid

  /** A collision: the three plain kinds, or the bullet or tank hit. */
  datatype Collision =
    | BorderHit
    | WallHit
    | LaserHit
    | BulletHit(other: Bullet)
    | TankHit(tank: Tank)

  /** An entry of the trajectories dictionary. */
  datatype Entry = Entry(bullet: Bullet, cells: seq<(int, int)>)

  /** `TryGetValue`: the cells stored under a bullet id (bullets hash and
      compare by id). */
  function Lookup(trs: seq<Entry>, id: int): (r: Option<seq<(int, int)>>)
    ensures r.Some? <==> exists k :: 0 <= k < |trs| && trs[k].bullet.id == id
    ensures r.Some? ==> exists k :: 0 <= k < |trs| && trs[k].bullet.id == id && trs[k].cells == r.value
  {
    if |trs| == 0 then None
    else if trs[0].bullet.id == id then Some(trs[0].cells)
    else Lookup(trs[1..], id)
  }

  /** The dictionary after `trajectories[bullet] = cells`: an entry under
      the same id keeps its key and takes the new cells; otherwise a new
      entry goes last. */
  function Put(trs: seq<Entry>, bullet: Bullet, cells: seq<(int, int)>): (r: seq<Entry>)
    ensures |r| == |trs| || |r| == |trs| + 1
    ensures NonEmptyCells(trs) && |cells| > 0 ==> NonEmptyCells(r)
  {
    if |trs| == 0 then [Entry(bullet, cells)]
    else if trs[0].bullet.id == bullet.id then [Entry(trs[0].bullet, cells)] + trs[1..]
    else [trs[0]] + Put(trs[1..], bullet, cells)
  }

  /** `Put` stores the cells under the bullet's id and leaves every other
      id's cells alone. */
  lemma {:induction false} PutLookup(trs: seq<Entry>, bullet: Bullet, cells: seq<(int, int)>, id: int)
    ensures Lookup(Put(trs, bullet, cells), id) == if id == bullet.id then Some(cells) else Lookup(trs, id)
  {
    if |trs| > 0 && trs[0].bullet.id != bullet.id {
      PutLookup(trs[1..], bullet, cells, id);
      var r := Put(trs, bullet, cells);
      assert r[1..] == Put(trs[1..], bullet, cells);
    }
  }

  /** Every stored trajectory has a first cell, as every trajectory the
      bullet system stores does. */
  predicate NonEmptyCells(trs: seq<Entry>) {
    forall k :: 0 <= k < |trs| ==> |trs[k].cells| > 0
  }

  /** A bullet that swept `traj` and one that swept `other` at index `i`:
      perpendicular bullets meet on the same cell at the same index,
      parallel ones when the cell is anywhere on the other's trajectory,
      and directly opposite ones also when each started on the other's
      trajectory. */
  predicate BulletsMeet(a: Bullet, traj: seq<(int, int)>, b: Bullet, other: seq<(int, int)>, i: int)
    requires 0 <= i < |traj| && |other| > 0
  {
    var cell := traj[i];
    var perpendicular := ArePerpendicular(a.direction, b.direction);
    (perpendicular && i < |other| && other[i] == cell) ||
    (!perpendicular && cell in other) ||
    Crossing(a, traj, b, other)
  }

  /** The check for directly opposite bullets that swapped cells. */
  predicate Crossing(a: Bullet, traj: seq<(int, int)>, b: Bullet, other: seq<(int, int)>)
    requires |traj| > 0 && |other| > 0
  {
    var (anx, any) := Normal(a.direction);
    var (bnx, bny) := Normal(b.direction);
    Abs(Value(a.direction) - Value(b.direction)) == 2 &&
    (other[0].0 - bnx, other[0].1 - bny) in traj && (traj[0].0 - anx, traj[0].1 - any) in other
  }

  /** A bullet at index `i` meets the bullet of entry `k`: any other key of
      the dictionary, compared by reference. */
  predicate MeetsEntry(bullet: Bullet, trs: seq<Entry>, traj: seq<(int, int)>, i: int, k: int)
    requires NonEmptyCells(trs) && 0 <= i < |traj| && 0 <= k < |trs|
  {
    var other := trs[k].bullet;
    other != bullet && Lookup(trs, other.id).Some? && BulletsMeet(bullet, traj, other, Lookup(trs, other.id).value, i)
  }

  /** The loop over the other bullets, from entry `k` on. */
  function OtherBulletHit(bullet: Bullet, trs: seq<Entry>, traj: seq<(int, int)>, i: int, k: nat): (r: Option<Bullet>)
    requires NonEmptyCells(trs) && 0 <= i < |traj|
    ensures r.Some? ==> exists m :: k <= m < |trs| && trs[m].bullet == r.value && MeetsEntry(bullet, trs, traj, i, m)
    ensures r.None? <==> forall m :: k <= m < |trs| ==> !MeetsEntry(bullet, trs, traj, i, m)
    decreases |trs| - k
  {
    if k >= |trs| then None
    else if MeetsEntry(bullet, trs, traj, i, k) then Some(trs[k].bullet)
    else OtherBulletHit(bullet, trs, traj, i, k + 1)
  }

  /** A live tank that moved onto the cell the bullet left, from the cell
      the bullet entered, head-on. */
  predicate Swapped(bullet: Bullet, traj: seq<(int, int)>, t: Tank)
    requires |traj| > 0
    reads t
  {
    t.previousX.Some? && t.previousY.Some? &&
    var (bnx, bny) := Normal(bullet.direction);
    var (tnx, tny) := (t.x - t.previousX.value, t.y - t.previousY.value);
    bnx == -tnx && bny == -tny &&
    (traj[0].0 - bnx, traj[0].1 - bny) == (t.x, t.y) && traj[0] == (t.previousX.value, t.previousY.value)
  }

  /** Whether the bullet at `cell` runs into tank `t`: never a dead one;
      a live one on the cell; or one that swapped cells with it, when the
      bullet swept at least two cells. */
  predicate HitsTank(bullet: Bullet, traj: seq<(int, int)>, cell: (int, int), t: Tank)
    requires |traj| > 0
    reads t
  {
    !t.IsDead() && ((t.x, t.y) == cell || (|traj| >= 2 && Swapped(bullet, traj, t)))
  }

  /** The loop over the tanks, from index `k` on. */
  function TankHitAt(bullet: Bullet, tanks: seq<Tank>, traj: seq<(int, int)>, cell: (int, int), k: nat): (r: Option<Tank>)
    requires |traj| > 0
    reads tanks
    ensures r.Some? ==> exists m :: k <= m < |tanks| && tanks[m] == r.value && HitsTank(bullet, traj, cell, tanks[m])
    ensures r.None? <==> forall m :: k <= m < |tanks| ==> !HitsTank(bullet, traj, cell, tanks[m])
    decreases |tanks| - k
  {
    if k >= |tanks| then None
    else if HitsTank(bullet, traj, cell, tanks[k]) then Some(tanks[k])
    else TankHitAt(bullet, tanks, traj, cell, k + 1)
  }

  /** The checks at index `i` of the trajectory, in the source's order. */
  function CellVerdict(bullet: Bullet, grid: Grid, trs: seq<Entry>, traj: seq<(int, int)>, i: int): (r: Option<Collision>)
    requires grid.Valid() && NonEmptyCells(trs) && 0 <= i < |traj|
    reads grid, grid.tanks
    ensures r == Some(BorderHit) <==> !grid.IsCellWithinBounds(traj[i].0, traj[i].1)
    ensures r == Some(WallHit) <==>
      grid.IsCellWithinBounds(traj[i].0, traj[i].1) && grid.WallAt(traj[i].0, traj[i].1).Some?
    ensures r == Some(LaserHit) <==>
      grid.IsCellWithinBounds(traj[i].0, traj[i].1) && grid.WallAt(traj[i].0, traj[i].1).None? &&
      FirstLaserAt(grid.lasers, traj[i].0, traj[i].1).Some?
    ensures r.Some? && r.value.TankHit? ==> r.value.tank in grid.tanks && !r.value.tank.IsDead()
    ensures r.Some? && r.value.BulletHit? ==>
      r.value.other != bullet && exists m :: 0 <= m < |trs| && trs[m].bullet == r.value.other
  {
    var (x, y) := traj[i];
    if !grid.IsCellWithinBounds(x, y) then Some(BorderHit)
    else if grid.WallAt(x, y).Some? then Some(WallHit)
    else if FirstLaserAt(grid.lasers, x, y).Some? then Some(LaserHit)
    else match OtherBulletHit(bullet, trs, traj, i, 0)
      case Some(b) => Some(BulletHit(b))
      case None =>
        match TankHitAt(bullet, grid.tanks, traj, (x, y), 0)
        case Some(t) => Some(TankHit(t))
        case None => None
  }

  /** The loop over the indices from `i` below `bound`: the first
      collision. */
  function Scan(bullet: Bullet, grid: Grid, trs: seq<Entry>, traj: seq<(int, int)>, i: nat, bound: nat): (r: Option<Collision>)
    requires grid.Valid() && NonEmptyCells(trs) && bound <= |traj|
    reads grid, grid.tanks
    ensures r.None? <==> forall j :: i <= j < bound ==> CellVerdict(bullet, grid, trs, traj, j).None?
    ensures r.Some? ==> exists j :: i <= j < bound && CellVerdict(bullet, grid, trs, traj, j) == r &&
                                    (forall j' :: i <= j' < j ==> CellVerdict(bullet, grid, trs, traj, j').None?)
    ensures r.Some? && r.value.TankHit? ==> r.value.tank in grid.tanks && !r.value.tank.IsDead()
    ensures r.Some? && r.value.BulletHit? ==>
      r.value.other != bullet && exists m :: 0 <= m < |trs| && trs[m].bullet == r.value.other
    decreases bound - i
  {
    if i >= bound then None
    else
      var v := CellVerdict(bullet, grid, trs, traj, i);
      if v.Some? then v else Scan(bullet, grid, trs, traj, i + 1, bound)
  }

  /** The indices `CheckBulletCollision` examines: those below both the
      first entry's length and the bullet's own. */
  function Bound(trs: seq<Entry>, traj: seq<(int, int)>): (n: nat)
    requires |trs| > 0
    ensures n <= |traj| && n <= |trs[0].cells| && (n == |traj| || n == |trs[0].cells|)
  {
    if |trs[0].cells| < |traj| then |trs[0].cells| else |traj|
  }

  /** `CheckBulletCollision`: nothing for a bullet without a trajectory;
      otherwise the first collision at the indices `Bound` allows (see
      `FirstCollision`). A tank hit is a live tank of the grid, and a
      bullet hit another key of the dictionary. */
  function CheckBulletCollision(bullet: Bullet, grid: Grid, trs: seq<Entry>): (r: Option<Collision>)
    requires grid.Valid() && NonEmptyCells(trs)
    reads grid, grid.tanks
    ensures Lookup(trs, bullet.id).None? ==> r.None?
    ensures r.Some? && r.value.TankHit? ==> r.value.tank in grid.tanks && !r.value.tank.IsDead()
    ensures r.Some? && r.value.BulletHit? ==>
      r.value.other != bullet && exists m :: 0 <= m < |trs| && trs[m].bullet == r.value.other
  {
    match Lookup(trs, bullet.id)
    case None => None
    case Some(traj) => Scan(bullet, grid, trs, traj, 0, Bound(trs, traj))
  }

  /** The indices are examined in increasing order and the first
      collision found is the result: nothing when no index gives one. */
  lemma {:induction false} FirstCollision(bullet: Bullet, grid: Grid, trs: seq<Entry>)
    requires grid.Valid() && NonEmptyCells(trs) && Lookup(trs, bullet.id).Some?
    ensures var traj := Lookup(trs, bullet.id).value;
      var r := CheckBulletCollision(bullet, grid, trs);
      (r.None? <==> forall j :: 0 <= j < Bound(trs, traj) ==> CellVerdict(bullet, grid, trs, traj, j).None?) &&
      (r.Some? ==> exists j :: 0 <= j < Bound(trs, traj) && CellVerdict(bullet, grid, trs, traj, j) == r &&
                               (forall j' :: 0 <= j' < j ==> CellVerdict(bullet, grid, trs, traj, j').None?))
  {
  }

  /** A live tank standing on a swept cell is always found at that index
      unless an earlier check there wins; a dead tank never is. */
  lemma {:induction false} LiveTankOnCellIsHit(bullet: Bullet, grid: Grid, trs: seq<Entry>, traj: seq<(int, int)>, i: int, m: int)
    requires grid.Valid() && NonEmptyCells(trs) && 0 <= i < |traj| && 0 <= m < |grid.tanks|
    requires !grid.tanks[m].IsDead() && (grid.tanks[m].x, grid.tanks[m].y) == traj[i]
    ensures CellVerdict(bullet, grid, trs, traj, i).Some?
  {
    assert HitsTank(bullet, traj, traj[i], grid.tanks[m]);
  }

  /** Two perpendicular bullets on the same cell at the same index collide
      there unless an earlier check wins; so do two parallel bullets when
      the cell is anywhere on the other's trajectory. */
  lemma {:induction false} MeetingBulletsCollide(bullet: Bullet, grid: Grid, trs: seq<Entry>, traj: seq<(int, int)>, i: int, k: int)
    requires grid.Valid() && NonEmptyCells(trs) && 0 <= i < |traj| && 0 <= k < |trs|
    requires trs[k].bullet != bullet && Lookup(trs, trs[k].bullet.id) == Some(trs[k].cells)
    requires var other := trs[k].cells;
      if ArePerpendicular(bullet.direction, trs[k].bullet.direction) then i < |other| && other[i] == traj[i]
      else traj[i] in other
    ensures CellVerdict(bullet, grid, trs, traj, i).Some?
  {
    assert MeetsEntry(bullet, trs, traj, i, k);
  }
}
