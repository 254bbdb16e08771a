/** `ItemDropSystem` (non-STEREO builds): a tank that leaves the game drops
    its secondary item on the nearest cell, by a breadth-first search from
    the tank, that is within bounds, not a wall and holds no item yet. */
module LogicItemDrop {
  import opened Wrappers
  import opened LogicCells
  import opened LogicFlood
  import opened LogicTanks
  import opened LogicGrid

  /** The cells of a `dim` by `dim` wall grid that are not walls. */
  ghost function FreeCells(dim: int, walls: seq<seq<Option<Wall>>>): (r: set<Cell>)
    requires Square(walls, dim)
    ensures forall c :: c in r <==> InBounds(c, dim) && walls[c.x][c.y].None?
  {
    set x, y | 0 <= x < dim && 0 <= y < dim && walls[x][y].None? :: Cell(x, y)
  }

  /** The cells of the grid within bounds that are not walls. */
  ghost function Free(g: Grid): (r: set<Cell>)
    requires g.Valid()
    reads g
  {
    FreeCells(g.dim, g.wallGrid)
  }

  /** Some item lies on the cell: `GetCellObjects` yields an item there
      exactly when the item list holds one on it (`CellObjectsItems`). */
  predicate HasItem(items: seq<SecondaryItem>, c: Cell) {
    ItemsAt(items, c.x, c.y) != []
  }

  /** `HasItem` is the search's test: some object `GetCellObjects` yields
      on the cell is an item. */
  lemma {:induction false} HasItemIsCellObject(g: Grid, c: Cell)
    requires g.Valid() && g.IsCellWithinBounds(c.x, c.y)
    ensures HasItem(g.items, c) <==> exists o :: o in g.GetCellObjects(c.x, c.y).value && o.ItemObject?
  {
    CellObjectsItems(g, c.x, c.y);
    if HasItem(g.items, c) {
      var it := ItemsAt(g.items, c.x, c.y)[0];
      assert ItemObject(it) in g.GetCellObjects(c.x, c.y).value;
    }
    if o :| o in g.GetCellObjects(c.x, c.y).value && o.ItemObject? {
      assert o.item in ItemsAt(g.items, c.x, c.y);
    }
  }

  /** A cell an item may be dropped on. */
  ghost predicate DropTile(g: Grid, c: Cell)
    requires g.Valid()
    reads g
  {
    c in Free(g) && !HasItem(g.items, c)
  }

  /** One round of `FindDropTileNear`'s loop, on the grid's dimension,
      walls and items: the head is dequeued; a free cell not yet visited is
      marked, and is the tile when it holds no item, or else has its four
      neighbours queued. */
  method DropStep(dim: int, walls: seq<seq<Option<Wall>>>, items: seq<SecondaryItem>, visited: array2<bool>,
                  ghost open: set<Cell>, origin: Cell, ghost area: seq<Cell>, ghost seen: set<Cell>,
                  queue: seq<Cell>, ghost parents: seq<Cell>)
    returns (found: Option<Cell>, ghost area': seq<Cell>, ghost seen': set<Cell>, queue': seq<Cell>,
             ghost parents': seq<Cell>)
    requires Square(walls, dim) && open == FreeCells(dim, walls) && |queue| > 0
    requires visited.Length0 == dim && visited.Length1 == dim
    requires AreaOk(open, origin, area, seen) && QueueOk(origin, seen, queue, parents)
    requires ClosureOk(open, origin, seen, queue) && Tracks(visited, {}, seen)
    requires StartFirst(open, origin, area, queue) && forall c :: c in seen ==> HasItem(items, c)
    modifies visited
    ensures found.Some? ==> found.value == queue[0] && found.value in open && !HasItem(items, found.value)
    ensures found.Some? ==> Connected(open, origin, found.value)
    ensures found.None? ==> AreaOk(open, origin, area', seen') && QueueOk(origin, seen', queue', parents')
    ensures found.None? ==> ClosureOk(open, origin, seen', queue') && Tracks(visited, {}, seen')
    ensures found.None? ==> StartFirst(open, origin, area', queue') && forall c :: c in seen' ==> HasItem(items, c)
    ensures origin in open && !HasItem(items, origin) ==> found == Some(origin)
    ensures found.None? ==> |open - seen'| < |open - seen| || (seen' == seen && area' == area && |queue'| < |queue|)
  {
    var p := queue[0];
    if origin in open && area == [] {
      // nothing is added yet, so the origin is the only queued cell and unvisited
      assert seen == {} && p == origin && !visited[p.x, p.y];
    }
    if origin in open && !HasItem(items, origin) {
      // the origin holds no item, so it is not added yet
      assert origin !in seen && area == [];
    }
    if p.x < 0 || p.y < 0 || p.x >= dim || p.y >= dim || visited[p.x, p.y] || walls[p.x][p.y].Some? {
      DequeueKeepsParents(origin, seen, queue, parents);
      SkipKeepsClosure(open, origin, seen, queue);
      return None, area, seen, queue[1..], parents[1..];
    }
    assert p in open && p !in seen;
    HeadReached(open, origin, area, seen, queue, parents);
    Mark(visited, {}, seen, p);
    if !HasItem(items, p) {
      return Some(p), area, seen, queue, parents;
    }
    AddKeepsArea(open, origin, area, seen, p);
    AddKeepsParents(origin, seen, queue, parents);
    AddKeepsClosure(open, origin, seen, queue);
    found, area', seen' := None, area + [p], seen + {p};
    queue', parents' := queue[1..] + Neighbours(p), parents[1..] + [p, p, p, p];
    assert area'[0] == if area == [] then p else area[0];
  }

  class ItemDropSystem {
    const grid: Grid

    constructor (grid: Grid)
      ensures this.grid == grid
    {
      this.grid := grid;
    }

    /** `FindDropTileNear`: the search from the origin visits free cells
        in breadth-first order and stops at the first without an item. A
        tile found is a drop tile reached from the origin through free
        cells, and is the origin itself when that is a drop tile; none is
        found exactly when every free cell reached from the origin holds
        an item. */
    method FindDropTileNear(originX: int, originY: int) returns (r: Option<Cell>)
      requires grid.Valid()
      ensures r.Some? ==> DropTile(grid, r.value) && Connected(Free(grid), Cell(originX, originY), r.value)
      ensures r.None? ==> forall c :: Connected(Free(grid), Cell(originX, originY), c) ==> HasItem(grid.items, c)
      ensures DropTile(grid, Cell(originX, originY)) ==> r == Some(Cell(originX, originY))
    {
      var origin := Cell(originX, originY);
      var visited := new bool[grid.dim, grid.dim]((_, _) => false);
      ghost var open := Free(grid);
      ghost var area: seq<Cell> := [];
      ghost var seen: set<Cell> := {};
      var queue := [origin];
      ghost var parents: seq<Cell> := [origin];
      while |queue| > 0
        invariant AreaOk(open, origin, area, seen) && QueueOk(origin, seen, queue, parents)
        invariant ClosureOk(open, origin, seen, queue) && Tracks(visited, {}, seen)
        invariant StartFirst(open, origin, area, queue)
        invariant forall c :: c in seen ==> HasItem(grid.items, c)
        decreases |open - seen|, |queue|
      {
        var found;
        found, area, seen, queue, parents :=
          DropStep(grid.dim, grid.wallGrid, grid.items, visited, open, origin, area, seen, queue, parents);
        if found.Some? {
          return found;
        }
      }
      forall c | Connected(open, origin, c) ensures HasItem(grid.items, c) {
        ConnectedEndsOpen(open, origin, c);
        ClosedHoldsConnected(open, seen, origin, c);
      }
      return None;
    }

    /** `TryDropItem`: a tank without an item changes nothing. Otherwise
        the tank loses its item, which lands on the drop tile found from
        the tank's cell, or is lost when there is none. */
    method TryDropItem(tank: Tank) returns (tile: Option<Cell>)
      requires grid.Valid()
      modifies tank`item, grid`items
      ensures old(tank.item).None? ==> tile.None? && tank.item == old(tank.item) && grid.items == old(grid.items)
      ensures old(tank.item).Some? ==> tank.item.None?
      ensures tile.Some? ==> old(tank.item).Some? && old(DropTile(grid, tile.value))
      ensures tile.Some? ==> old(Connected(Free(grid), Cell(tank.x, tank.y), tile.value))
      ensures tile.Some? ==> grid.items == old(grid.items) + [SecondaryItem(tile.value.x, tile.value.y, old(tank.item).value)]
      ensures tile.None? ==> grid.items == old(grid.items)
      ensures tile.None? && old(tank.item).Some? ==>
        forall c :: old(Connected(Free(grid), Cell(tank.x, tank.y), c)) ==> HasItem(grid.items, c)
    {
      if tank.item.None? {
        return None;
      }
      var kind := tank.item.value;
      tile := FindDropTileNear(tank.x, tank.y);
      tank.item := None;
      if tile.None? {
        return;
      }
      grid.items := grid.items + [SecondaryItem(tile.value.x, tile.value.y, kind)];
    }
  }
}
