/** The server's grid: its dimension, the wall of each cell, and the lists
    of the entities on it. The wall grid is indexed `[x][y]`, as the C#
    two-dimensional array is. */
module LogicGrid {
  import opened Wrappers
  import opened LogicTanks
  import opened LogicBullets
  import opened LogicLasers
  import opened LogicMines
  import opened LogicZones

  /** A wall on a cell. */
  datatype Wall = Wall(x: int, y: int)

  /** A secondary item lying on a cell (non-STEREO builds). */
  datatype SecondaryItem = SecondaryItem(x: int, y: int, kind: SecondaryItemType)

  /** The objects `GetCellObjects` yields. */
  datatype CellObject =
    | WallObject(wall: Wall)
    | TankObject(tank: Tank)
    | BulletObject(bullet: Bullet)
    | LaserObject(laser: Laser)
    | MineObject(mine: Mine)
    | ItemObject(item: SecondaryItem)

  /** The position of a kind of object in the order `GetCellObjects`
      yields them. */
  function Rank(o: CellObject): nat {
    match o
    case WallObject(_) => 0
    case TankObject(_) => 1
    case BulletObject(_) => 2
    case LaserObject(_) => 3
    case MineObject(_) => 4
    case ItemObject(_) => 5
  }

  /** A `dim` by `dim` wall grid with no walls. */
  function EmptyWalls(dim: nat): (g: seq<seq<Option<Wall>>>)
    ensures |g| == dim && forall x :: 0 <= x < dim ==> |g[x]| == dim
    ensures forall x, y :: 0 <= x < dim && 0 <= y < dim ==> g[x][y].None?
  {
    seq(dim, _ => seq(dim, _ => None))
  }

  /** A wall grid of `dim` by `dim` cells. */
  predicate Square(g: seq<seq<Option<Wall>>>, dim: int) {
    |g| == dim && forall x :: 0 <= x < dim ==> |g[x]| == dim
  }

  // ---------------------------------------------------------------------
  // The first entity on a cell (`FirstOrDefault`)

  /** The index of the first tank on (x, y), if any. */
  function FirstTankAt(tanks: seq<Tank>, x: int, y: int): (r: Option<nat>)
    reads tanks`x, tanks`y
    ensures r.Some? ==> r.value < |tanks| && tanks[r.value].x == x && tanks[r.value].y == y
    ensures r.Some? ==> forall k :: 0 <= k < r.value ==> !(tanks[k].x == x && tanks[k].y == y)
    ensures r.None? ==> forall k :: 0 <= k < |tanks| ==> !(tanks[k].x == x && tanks[k].y == y)
  {
    if |tanks| == 0 then None
    else if tanks[0].x == x && tanks[0].y == y then Some(0)
    else match FirstTankAt(tanks[1..], x, y)
      case None => None
      case Some(k) => Some(k + 1)
  }

  /** The index of the first bullet whose cell is (x, y), if any. */
  function FirstBulletAt(bullets: seq<Bullet>, x: int, y: int): (r: Option<nat>)
    reads bullets
    ensures r.Some? ==> r.value < |bullets| && bullets[r.value].X() == x && bullets[r.value].Y() == y
    ensures r.Some? ==> forall k :: 0 <= k < r.value ==> !(bullets[k].X() == x && bullets[k].Y() == y)
    ensures r.None? ==> forall k :: 0 <= k < |bullets| ==> !(bullets[k].X() == x && bullets[k].Y() == y)
  {
    if |bullets| == 0 then None
    else if bullets[0].X() == x && bullets[0].Y() == y then Some(0)
    else match FirstBulletAt(bullets[1..], x, y)
      case None => None
      case Some(k) => Some(k + 1)
  }

  /** The index of the first laser on (x, y), if any. */
  function FirstLaserAt(lasers: seq<Laser>, x: int, y: int): (r: Option<nat>)
    ensures r.Some? ==> r.value < |lasers| && lasers[r.value].x == x && lasers[r.value].y == y
    ensures r.Some? ==> forall k :: 0 <= k < r.value ==> !(lasers[k].x == x && lasers[k].y == y)
    ensures r.None? ==> forall k :: 0 <= k < |lasers| ==> !(lasers[k].x == x && lasers[k].y == y)
  {
    if |lasers| == 0 then None
    else if lasers[0].x == x && lasers[0].y == y then Some(0)
    else match FirstLaserAt(lasers[1..], x, y)
      case None => None
      case Some(k) => Some(k + 1)
  }

  /** The index of the first mine on (x, y), if any. */
  function FirstMineAt(mines: seq<Mine>, x: int, y: int): (r: Option<nat>)
    reads mines`x, mines`y
    ensures r.Some? ==> r.value < |mines| && mines[r.value].x == x && mines[r.value].y == y
    ensures r.Some? ==> forall k :: 0 <= k < r.value ==> !(mines[k].x == x && mines[k].y == y)
    ensures r.None? ==> forall k :: 0 <= k < |mines| ==> !(mines[k].x == x && mines[k].y == y)
  {
    if |mines| == 0 then None
    else if mines[0].x == x && mines[0].y == y then Some(0)
    else match FirstMineAt(mines[1..], x, y)
      case None => None
      case Some(k) => Some(k + 1)
  }

  /** The items on (x, y), in list order. */
  function ItemsAt(items: seq<SecondaryItem>, x: int, y: int): (r: seq<SecondaryItem>)
    ensures forall i :: i in r <==> i in items && i.x == x && i.y == y
    ensures |r| <= |items|
  {
    if |items| == 0 then []
    else (if items[0].x == x && items[0].y == y then [items[0]] else []) + ItemsAt(items[1..], x, y)
  }

  class Grid {
    var dim: int
    const seed: int
    /** `WallGrid[x, y]`. */
    var wallGrid: seq<seq<Option<Wall>>>
    var tanks: seq<Tank>
    var bullets: seq<Bullet>
    var zones: seq<Zone>
    var lasers: seq<Laser>
    var mines: seq<Mine>
    /** Non-STEREO only. */
    var items: seq<SecondaryItem>

    /** The wall grid is `dim` by `dim`. */
    ghost predicate Valid()
      reads this`dim, this`wallGrid
    {
      dim >= 0 && Square(wallGrid, dim)
    }

    /** A fresh grid: `dimension` by `dimension` cells without walls, and
        no entities. */
    constructor (dimension: nat, seed: int)
      ensures Valid() && dim == dimension && this.seed == seed
      ensures forall x, y :: 0 <= x < dim && 0 <= y < dim ==> wallGrid[x][y].None?
      ensures tanks == [] && bullets == [] && zones == [] && lasers == [] && mines == [] && items == []
    {
      dim := dimension;
      this.seed := seed;
      wallGrid := EmptyWalls(dimension);
      tanks, bullets, zones, lasers, mines, items := [], [], [], [], [], [];
    }

    /** `IsCellWithinBounds`. */
    predicate IsCellWithinBounds(x: int, y: int)
      reads this`dim
    {
      0 <= x < dim && 0 <= y < dim
    }

    /** `WallGrid[x, y]` on a cell within bounds. */
    function WallAt(x: int, y: int): Option<Wall>
      requires Valid() && IsCellWithinBounds(x, y)
      reads this`dim, this`wallGrid
    {
      wallGrid[x][y]
    }

    /** `GetCellObjects`: the wall, then the first tank, bullet, laser and
        mine on the cell, then every item on it; a cell out of bounds makes
        the wall lookup throw. */
    function GetCellObjects(x: int, y: int): (r: Result<seq<CellObject>>)
      requires Valid()
      reads this, tanks, bullets, mines
      ensures r.Fail? <==> !IsCellWithinBounds(x, y)
      ensures r.Fail? ==> r.error == IndexOutOfRange
    {
      if !IsCellWithinBounds(x, y) then Fail(IndexOutOfRange)
      else Ok(WallPart(x, y) + TankPart(x, y) + BulletPart(x, y) + LaserPart(x, y) + MinePart(x, y) +
              ItemObjects(ItemsAt(items, x, y)))
    }

    function WallPart(x: int, y: int): (r: seq<CellObject>)
      requires Valid() && IsCellWithinBounds(x, y)
      reads this`dim, this`wallGrid
      ensures |r| <= 1 && forall o :: o in r ==> o.WallObject?
    {
      if WallAt(x, y).Some? then [WallObject(WallAt(x, y).value)] else []
    }

    function TankPart(x: int, y: int): (r: seq<CellObject>)
      reads this`tanks, tanks
      ensures |r| <= 1
      ensures forall o :: o in r ==> o.TankObject?
    {
      match FirstTankAt(tanks, x, y)
      case Some(k) => [TankObject(tanks[k])]
      case None => []
    }

    function BulletPart(x: int, y: int): (r: seq<CellObject>)
      reads this`bullets, bullets
      ensures |r| <= 1
      ensures forall o :: o in r ==> o.BulletObject?
    {
      match FirstBulletAt(bullets, x, y)
      case Some(k) => [BulletObject(bullets[k])]
      case None => []
    }

    function LaserPart(x: int, y: int): (r: seq<CellObject>)
      reads this`lasers
      ensures |r| <= 1
      ensures forall o :: o in r ==> o.LaserObject?
    {
      match FirstLaserAt(lasers, x, y)
      case Some(k) => [LaserObject(lasers[k])]
      case None => []
    }

    function MinePart(x: int, y: int): (r: seq<CellObject>)
      reads this`mines, mines
      ensures |r| <= 1
      ensures forall o :: o in r ==> o.MineObject?
    {
      match FirstMineAt(mines, x, y)
      case Some(k) => [MineObject(mines[k])]
      case None => []
    }
  }

  /** Objects listed in `GetCellObjects`' order: by kind, items last. */
  predicate InCellOrder(r: seq<CellObject>) {
    forall i, j :: 0 <= i < j < |r| ==> Rank(r[i]) < Rank(r[j]) || (r[i].ItemObject? && r[j].ItemObject?)
  }

  predicate RanksBelow(a: seq<CellObject>, k: nat) {
    forall o :: o in a ==> Rank(o) < k
  }

  predicate RanksFrom(a: seq<CellObject>, k: nat) {
    forall o :: o in a ==> k <= Rank(o)
  }

  /** Objects of lower kinds followed by objects of higher kinds stay in
      order. */
  lemma {:induction false} AppendInCellOrder(a: seq<CellObject>, b: seq<CellObject>, k: nat, k': nat)
    requires InCellOrder(a) && InCellOrder(b)
    requires RanksBelow(a, k) && RanksFrom(b, k) && RanksBelow(b, k') && k <= k'
    ensures InCellOrder(a + b) && RanksBelow(a + b, k')
  {
    assert forall o :: o in a + b ==> o in a || o in b;
    forall i, j | 0 <= i < j < |a + b|
      ensures Rank((a + b)[i]) < Rank((a + b)[j]) || ((a + b)[i].ItemObject? && (a + b)[j].ItemObject?)
    {
      if j < |a| {
      } else if i >= |a| {
        assert (a + b)[i] == b[i - |a|] && (a + b)[j] == b[j - |a|];
      } else {
        assert (a + b)[i] in a && (a + b)[j] in b;
      }
    }
  }

  /** A part of at most one object, all of kind `n`. */
  lemma {:induction false} SingleInCellOrder(a: seq<CellObject>, n: nat)
    requires |a| <= 1 && forall o :: o in a ==> Rank(o) == n
    ensures InCellOrder(a) && RanksFrom(a, n) && RanksBelow(a, n + 1)
  {
  }

  /** `GetCellObjects` yields the objects in its order: a wall, a tank, a
      bullet, a laser, a mine, at most one of each, then the items. */
  lemma {:induction false} CellObjectsInOrder(g: Grid, x: int, y: int)
    requires g.Valid() && g.IsCellWithinBounds(x, y)
    ensures g.GetCellObjects(x, y).Ok? && InCellOrder(g.GetCellObjects(x, y).value)
  {
    var w, t, b := g.WallPart(x, y), g.TankPart(x, y), g.BulletPart(x, y);
    var l, m, i := g.LaserPart(x, y), g.MinePart(x, y), ItemObjects(ItemsAt(g.items, x, y));
    SingleInCellOrder(w, 0);
    SingleInCellOrder(t, 1);
    SingleInCellOrder(b, 2);
    SingleInCellOrder(l, 3);
    SingleInCellOrder(m, 4);
    AppendInCellOrder(w, t, 1, 2);
    AppendInCellOrder(w + t, b, 2, 3);
    AppendInCellOrder(w + t + b, l, 3, 4);
    AppendInCellOrder(w + t + b + l, m, 4, 5);
    AppendInCellOrder(w + t + b + l + m, i, 5, 6);
  }

  /** `GetCellObjects` yields the cell's wall when there is one, and the
      first tank, bullet, laser and mine on the cell when there are any. */
  lemma {:induction false} CellObjectsEntities(g: Grid, x: int, y: int)
    requires g.Valid() && g.IsCellWithinBounds(x, y)
    ensures var r := g.GetCellObjects(x, y).value;
      (forall w :: WallObject(w) in r <==> g.WallAt(x, y) == Some(w)) &&
      (forall t :: TankObject(t) in r <==> FirstTankAt(g.tanks, x, y).Some? && t == g.tanks[FirstTankAt(g.tanks, x, y).value]) &&
      (forall b :: BulletObject(b) in r <==> FirstBulletAt(g.bullets, x, y).Some? && b == g.bullets[FirstBulletAt(g.bullets, x, y).value]) &&
      (forall l :: LaserObject(l) in r <==> FirstLaserAt(g.lasers, x, y).Some? && l == g.lasers[FirstLaserAt(g.lasers, x, y).value]) &&
      (forall m :: MineObject(m) in r <==> FirstMineAt(g.mines, x, y).Some? && m == g.mines[FirstMineAt(g.mines, x, y).value])
  {
    var w, t, b := g.WallPart(x, y), g.TankPart(x, y), g.BulletPart(x, y);
    var l, m, i := g.LaserPart(x, y), g.MinePart(x, y), ItemObjects(ItemsAt(g.items, x, y));
    assert g.GetCellObjects(x, y).value == w + t + b + l + m + i;
  }

  /** `GetCellObjects` yields every item on the cell and no other. */
  lemma {:induction false} CellObjectsItems(g: Grid, x: int, y: int)
    requires g.Valid() && g.IsCellWithinBounds(x, y)
    ensures forall it :: ItemObject(it) in g.GetCellObjects(x, y).value <==> it in g.items && it.x == x && it.y == y
  {
    var w, t, b := g.WallPart(x, y), g.TankPart(x, y), g.BulletPart(x, y);
    var l, m, i := g.LaserPart(x, y), g.MinePart(x, y), ItemObjects(ItemsAt(g.items, x, y));
    assert g.GetCellObjects(x, y).value == w + t + b + l + m + i;
  }

  /** Items as cell objects. */
  function ItemObjects(items: seq<SecondaryItem>): (r: seq<CellObject>)
    ensures |r| == |items| && forall k :: 0 <= k < |items| ==> r[k] == ItemObject(items[k])
    ensures forall o :: o in r ==> o.ItemObject? && o.item in items
    ensures forall i :: i in items ==> ItemObject(i) in r
  {
    seq(|items|, k requires 0 <= k < |items| => ItemObject(items[k]))
  }

  /** `Grid.Empty`: a grid of no cells. */
  method Empty() returns (g: Grid)
    ensures fresh(g) && g.Valid() && g.dim == 0 && g.wallGrid == []
    ensures g.tanks == [] && g.bullets == [] && g.zones == [] && g.lasers == [] && g.mines == [] && g.items == []
  {
    g := new Grid(0, 0);
  }

  /** A cell is within bounds exactly when both coordinates lie in
      `[0, Dim)`, so a fresh grid's wall grid has an entry for exactly the
      cells within bounds. */
  lemma {:induction false} WithinBoundsIsWallGridDomain(g: Grid, x: int, y: int)
    requires g.Valid()
    ensures g.IsCellWithinBounds(x, y) <==> 0 <= x < |g.wallGrid| && 0 <= y < |g.wallGrid[x]|
  {
  }
}
