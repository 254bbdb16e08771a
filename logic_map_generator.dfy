/** The deterministic parts of `MapGenerator`: the flood fill that finds
    the enclosed areas of a wall grid, the breadth-first search for a path
    out of an area, the wall edits that only look at a cell's neighbours,
    and the placement of the zones. The wall grid is a `bool[,]` indexed
    `[x, y]` in which `true` is a wall; it is an `array2<bool>` here. The
    random draws are nondeterministic choices within the range the draw
    promises. */
module LogicMapGenerator {
  import opened Wrappers
  import opened LogicCells
  import opened LogicFlood
  import opened LogicZones

  /** An enclosed area of the `free` cells: non-empty, each cell listed
      once, every cell free and connected to the first through free cells,
      and no free neighbour left out. */
  ghost predicate EnclosedArea(free: set<Cell>, a: seq<Cell>) {
    |a| > 0 && (forall i, j :: 0 <= i < j < |a| ==> a[i] != a[j]) &&
    (forall c :: c in a ==> c in free && Connected(free, a[0], c)) &&
    Closed(free, Cells(a))
  }

  /** `owner` maps each cell of each area to that area's index. */
  ghost predicate Owned(areas: seq<seq<Cell>>, owner: map<Cell, nat>) {
    (forall c :: c in owner ==> owner[c] < |areas| && c in areas[owner[c]]) &&
    (forall k, c :: 0 <= k < |areas| && c in areas[k] ==> c in owner && owner[c] == k)
  }

  /** `owner` with every cell of `area` mapped to `k`. */
  ghost function AddOwner(owner: map<Cell, nat>, area: seq<Cell>, k: nat): (r: map<Cell, nat>)
    ensures forall c :: c in r <==> c in owner || c in area
    ensures forall c :: c in r ==> r[c] == if c in area then k else owner[c]
  {
    map c | c in owner.Keys + Cells(area) :: if c in area then k else owner[c]
  }

  /** Adding an area of unowned cells keeps the ownership. */
  lemma {:induction false} AddAreaOwned(areas: seq<seq<Cell>>, owner: map<Cell, nat>, area: seq<Cell>)
    requires Owned(areas, owner) && forall c :: c in area ==> c !in owner
    ensures Owned(areas + [area], AddOwner(owner, area, |areas|))
  {
    var areas', owner' := areas + [area], AddOwner(owner, area, |areas|);
    forall k, c | 0 <= k < |areas'| && c in areas'[k] ensures c in owner' && owner'[c] == k {
      if k < |areas| {
        assert areas'[k] == areas[k];
      }
    }
  }

  /** A flood fill of the free cells outside the earlier enclosed areas is
      itself an enclosed area of the free cells: an earlier area, being
      closed, has no free neighbour outside it. */
  lemma {:induction false} NewAreaEnclosed(free: set<Cell>, open: set<Cell>, areas: seq<seq<Cell>>,
                                           owner: map<Cell, nat>, area: seq<Cell>)
    requires forall c :: c in open <==> c in free && c !in owner
    requires Owned(areas, owner) && forall k :: 0 <= k < |areas| ==> Closed(free, Cells(areas[k]))
    requires |area| > 0 && forall i, j :: 0 <= i < j < |area| ==> area[i] != area[j]
    requires forall c :: c in area ==> c in open && Connected(open, area[0], c)
    requires forall c, n :: c in area && n in Neighbours(c) && n in open ==> n in area
    ensures EnclosedArea(free, area) && forall c :: c in area ==> c !in owner
  {
    forall c | c in area ensures Connected(free, area[0], c) {
      ConnectedGrows(open, free, area[0], c);
    }
    NewAreaClosed(free, open, areas, owner, area);
  }

  /** The same, for the closure: no free cell next to the new area lies in
      an earlier one. */
  lemma {:induction false} NewAreaClosed(free: set<Cell>, open: set<Cell>, areas: seq<seq<Cell>>,
                                         owner: map<Cell, nat>, area: seq<Cell>)
    requires forall c :: c in open <==> c in free && c !in owner
    requires Owned(areas, owner) && forall k :: 0 <= k < |areas| ==> Closed(free, Cells(areas[k]))
    requires forall c :: c in area ==> c in open
    requires forall c, n :: c in area && n in Neighbours(c) && n in open ==> n in area
    ensures Closed(free, Cells(area))
  {
    forall c, n | c in Cells(area) && n in Neighbours(c) && n in free ensures n in open {
      if n in owner {
        var k := owner[n];
        assert n in Cells(areas[k]);
        ClosedHoldsNeighbour(free, Cells(areas[k]), n, c);
        assert false;
      }
    }
  }

  /** A free neighbour of a cell of a closed set is in the set. */
  lemma {:induction false} ClosedHoldsNeighbour(free: set<Cell>, s: set<Cell>, n: Cell, c: Cell)
    requires Closed(free, s) && n in s && n in Neighbours(c) && c in free
    ensures c in s
  {
    NeighboursSymmetric(c, n);
  }

  /** The areas found so far are enclosed areas of the free cells, and
      `owner` names the area of each of their cells. */
  ghost predicate AreasOk(free: set<Cell>, areas: seq<seq<Cell>>, owner: map<Cell, nat>) {
    owner.Keys <= free && Owned(areas, owner) &&
    forall k :: 0 <= k < |areas| ==> EnclosedArea(free, areas[k])
  }

  /** Every free cell before `(i, j)` in the scan order (`x` outer, `y`
      inner) belongs to an area. */
  ghost predicate Covers(free: set<Cell>, owner: map<Cell, nat>, i: int, j: int) {
    forall c :: c in free && (c.x < i || (c.x == i && c.y < j)) ==> c in owner
  }

  /** `area` is the flood fill from `start` of the free cells outside the
      owned ones: it starts at `start`, lists each cell once, and holds
      exactly the cells connected to `start` through such cells. */
  ghost predicate FillOf(free: set<Cell>, owner: map<Cell, nat>, start: Cell, area: seq<Cell>) {
    |area| > 0 && area[0] == start && (forall i, j :: 0 <= i < j < |area| ==> area[i] != area[j]) &&
    (forall c :: c in area ==> c in free && c !in owner && Connected(free - owner.Keys, start, c)) &&
    (forall c, n :: c in area && n in Neighbours(c) && n in free && n !in owner ==> n in area)
  }

  /** Adding the flood fill of the free cells outside the earlier areas
      keeps them all enclosed areas, with their owners. */
  lemma {:induction false} AddArea(free: set<Cell>, areas: seq<seq<Cell>>, owner: map<Cell, nat>,
                                   start: Cell, area: seq<Cell>)
    requires AreasOk(free, areas, owner) && FillOf(free, owner, start, area)
    ensures AreasOk(free, areas + [area], AddOwner(owner, area, |areas|))
    ensures start in AddOwner(owner, area, |areas|)
  {
    var open := free - owner.Keys;
    assert forall k :: 0 <= k < |areas| ==> Closed(free, Cells(areas[k]));
    NewAreaEnclosed(free, open, areas, owner, area);
    AddAreaOwned(areas, owner, area);
    var areas' := areas + [area];
    forall k | 0 <= k < |areas'| ensures EnclosedArea(free, areas'[k]) {
      if k < |areas| { assert areas'[k] == areas[k]; }
    }
  }

  /** One more cell of the scan is covered. */
  lemma {:induction false} CoversNext(free: set<Cell>, owner: map<Cell, nat>, owner': map<Cell, nat>, i: int, j: int)
    requires Covers(free, owner, i, j) && owner.Keys <= owner'.Keys && (Cell(i, j) in free ==> Cell(i, j) in owner')
    ensures Covers(free, owner', i, j + 1)
  {
    forall c | c in free && (c.x < i || (c.x == i && c.y < j + 1)) ensures c in owner' {
      if c.x == i && c.y == j { assert c == Cell(i, j); }
    }
  }

  /** The end of a row of the scan is the start of the next. */
  lemma {:induction false} NextRowCovered(free: set<Cell>, owner: map<Cell, nat>, i: int, dim: int)
    requires Covers(free, owner, i, dim) && forall c :: c in free ==> 0 <= c.y < dim
    ensures Covers(free, owner, i + 1, 0)
  {
    forall c | c in free && (c.x < i + 1 || (c.x == i + 1 && c.y < 0)) ensures c in owner {
      assert c.x < i || (c.x == i && c.y < dim);
    }
  }

  /** A finished scan puts every free cell in exactly one area. */
  lemma {:induction false} AllCovered(free: set<Cell>, areas: seq<seq<Cell>>, owner: map<Cell, nat>, dim: int)
    requires AreasOk(free, areas, owner) && Covers(free, owner, dim, 0) && forall c :: c in free ==> c.x < dim
    ensures forall k, l, c :: 0 <= k < l < |areas| && c in areas[k] ==> c !in areas[l]
    ensures forall c :: c in free ==> exists k :: 0 <= k < |areas| && c in areas[k]
  {
    forall c | c in free ensures exists k :: 0 <= k < |areas| && c in areas[k] {
      assert c in owner && c in areas[owner[c]];
    }
  }

  // ---------------------------------------------------------------------
  // The search state of FindShortestPathToOpenArea. `parent` maps each
  // reached cell other than the start to the cell it was reached from;
  // `rank` records each reached cell's depth, the `distance` the queue
  // carries beside it: 0 for the start, one more than its parent's.

  /** Following parents from any reached cell steps to a neighbour each
      time, one depth down, and ends at the start. */
  ghost predicate ParentOk(start: Cell, parent: map<Cell, Cell>, rank: map<Cell, nat>) {
    start !in parent && start in rank && rank[start] == 0 &&
    (forall k :: k in rank ==> k == start || k in parent) &&
    forall k {:trigger parent[k]} :: k in parent ==>
      k in rank && parent[k] in rank && rank[k] == rank[parent[k]] + 1 &&
      Step(parent[k], k) && (parent[k] == start || parent[k] in parent)
  }

  /** The cells the search has reached: the start and every cell given a
      parent. */
  ghost function Reached(start: Cell, parent: map<Cell, Cell>): (r: set<Cell>)
    ensures forall c :: c in r <==> c == start || c in parent
  {
    parent.Keys + {start}
  }

  /** Every reached cell is on the map, and every one but the start was
      unvisited (not in `before`) when reached. */
  ghost predicate ReachedOk(dim: int, before: set<Cell>, start: Cell, parent: map<Cell, Cell>) {
    InBounds(start, dim) && forall k :: k in parent ==> InBounds(k, dim) && k !in before
  }

  /** Every reached cell is dequeued (`done`) or still queued, and every
      dequeued cell is a wall or in the area. */
  ghost predicate QueueDone(free: set<Cell>, area: seq<Cell>, start: Cell, parent: map<Cell, Cell>,
                            done: set<Cell>, queue: seq<Cell>) {
    done <= Reached(start, parent) &&
    (forall i :: 0 <= i < |queue| ==> queue[i] in Reached(start, parent)) &&
    (forall c :: c in Reached(start, parent) ==> c in done || c in queue) &&
    (forall c :: c in done ==> c !in free || c in area)
  }

  /** Every neighbour on the map of a dequeued cell was visited before or
      has been reached. */
  ghost predicate DoneClosed(dim: int, before: set<Cell>, start: Cell, parent: map<Cell, Cell>, done: set<Cell>) {
    forall c, n :: c in done && n in Neighbours(c) && InBounds(n, dim) ==> n in before || n in Reached(start, parent)
  }

  /** The cells of a `dim` by `dim` map. */
  ghost function AllCells(dim: int): (r: set<Cell>)
    ensures forall c :: c in r <==> InBounds(c, dim)
  {
    set x, y | 0 <= x < dim && 0 <= y < dim :: Cell(x, y)
  }

  /** A walk from `start` to `end` through reached cells, following
      parents backwards from `end`. The source appends to a list and
      reverses it; the walk is built here by prepending, which gives the
      same list. */
  method PathBack(parent: map<Cell, Cell>, ghost rank: map<Cell, nat>, start: Cell, end: Cell) returns (path: seq<Cell>)
    requires ParentOk(start, parent, rank) && end in Reached(start, parent)
    ensures |path| > 0 && path[0] == start && path[|path| - 1] == end
    ensures Walk(path) && forall i :: 1 <= i < |path| ==> path[i] in parent
    ensures |path| == rank[end] + 1
  {
    path := [];
    var current := end;
    while current != start
      invariant current in Reached(start, parent) && |path| + rank[current] == rank[end]
      invariant path == [] ==> current == end
      invariant path != [] ==> path[|path| - 1] == end && Step(current, path[0])
      invariant Walk(path) && forall c :: c in path ==> c in parent
      decreases rank[current]
    {
      if path != [] { PrependWalk(current, path); }
      path := [current] + path;
      current := parent[current];
    }
    if path != [] { PrependWalk(start, path); }
    path := [start] + path;
  }

  /** Reaching an unvisited cell from a reached one keeps the parents
      leading back to the start. */
  lemma {:induction false} AddReached(dim: int, before: set<Cell>, start: Cell, parent: map<Cell, Cell>,
                                      rank: map<Cell, nat>, point: Cell, next: Cell)
    requires ParentOk(start, parent, rank) && ReachedOk(dim, before, start, parent)
    requires point in Reached(start, parent) && Step(point, next)
    requires next !in Reached(start, parent) && next !in before && InBounds(next, dim)
    ensures point in rank
    ensures ParentOk(start, parent[next := point], rank[next := rank[point] + 1])
    ensures ReachedOk(dim, before, start, parent[next := point])
    ensures Reached(start, parent[next := point]) == Reached(start, parent) + {next}
  {
    var parent', rank' := parent[next := point], rank[next := rank[point] + 1];
    forall k | k in parent'
      ensures k in rank' && parent'[k] in rank' && rank'[parent'[k]] < rank'[k]
      ensures Step(parent'[k], k) && (parent'[k] == start || parent'[k] in parent')
    {
      if k != next {
        assert parent'[k] == parent[k] && parent[k] != next;
      }
    }
  }

  /** `parent'` and `queue'` extend `parent` and `queue`: every cell given
      a parent since is queued after the old queue, and a longer queue
      means fewer cells of the map left to reach. */
  ghost predicate Grown(dim: int, start: Cell, parent: map<Cell, Cell>, parent': map<Cell, Cell>,
                        queue: seq<Cell>, queue': seq<Cell>) {
    parent.Keys <= parent'.Keys && (forall c :: c in parent' ==> c in parent || c in queue') &&
    |queue'| >= |queue| && queue'[..|queue|] == queue &&
    (forall i :: |queue| <= i < |queue'| ==> queue'[i] in parent') &&
    (|queue'| == |queue| ==> parent' == parent) &&
    (|queue'| > |queue| ==> |AllCells(dim) - Reached(start, parent')| < |AllCells(dim) - Reached(start, parent)|)
  }

  /** Queueing one more newly reached cell keeps the extension. */
  lemma {:induction false} GrowOne(dim: int, start: Cell, parent: map<Cell, Cell>, parent': map<Cell, Cell>,
                                   queue: seq<Cell>, queue': seq<Cell>, point: Cell, next: Cell)
    requires Grown(dim, start, parent, parent', queue, queue')
    requires next !in Reached(start, parent') && InBounds(next, dim)
    requires Reached(start, parent'[next := point]) == Reached(start, parent') + {next}
    ensures Grown(dim, start, parent, parent'[next := point], queue, queue' + [next])
  {
    GrowParts(dim, start, parent, parent', queue, queue', point, next);
  }

  /** The parts of `GrowOne`, one by one. */
  lemma {:induction false} GrowParts(dim: int, start: Cell, parent: map<Cell, Cell>, parent': map<Cell, Cell>,
                                   queue: seq<Cell>, queue': seq<Cell>, point: Cell, next: Cell)
    requires Grown(dim, start, parent, parent', queue, queue')
    requires next !in Reached(start, parent') && InBounds(next, dim)
    requires Reached(start, parent'[next := point]) == Reached(start, parent') + {next}
    ensures parent.Keys <= parent'[next := point].Keys
    ensures (forall c :: c in parent'[next := point] ==> c in parent || c in queue' + [next])
    ensures |queue' + [next]| >= |queue| && (queue' + [next])[..|queue|] == queue
    ensures (forall i :: |queue| <= i < |queue' + [next]| ==> (queue' + [next])[i] in parent'[next := point])
    ensures |AllCells(dim) - Reached(start, parent'[next := point])| < |AllCells(dim) - Reached(start, parent)|
  {
    var q := queue' + [next];
    assert q[..|queue|] == queue' [..|queue|];
    FewerLeft(AllCells(dim), Reached(start, parent'), next);
    forall i | |queue| <= i < |q| ensures q[i] in parent'[next := point] {
      if i < |queue'| { assert q[i] == queue'[i]; }
    }
  }

  /** The first `k` of `cells` that are on the map were visited before or
      have been reached. */
  ghost predicate CoveredUpTo(dim: int, before: set<Cell>, reached: set<Cell>, cells: seq<Cell>, k: int) {
    forall m :: 0 <= m < k && m < |cells| && InBounds(cells[m], dim) ==> cells[m] in before || cells[m] in reached
  }

  /** One more of `cells` covered, as the reached cells grow. */
  lemma {:induction false} CoverNext(dim: int, before: set<Cell>, reached: set<Cell>, reached': set<Cell>,
                                     cells: seq<Cell>, k: int)
    requires CoveredUpTo(dim, before, reached, cells, k) && reached <= reached' && 0 <= k < |cells|
    requires InBounds(cells[k], dim) ==> cells[k] in before || cells[k] in reached'
    ensures CoveredUpTo(dim, before, reached', cells, k + 1)
  {
  }

  /** All of `cells` on the map were visited before or have been reached. */
  lemma {:induction false} CoveredAll(dim: int, before: set<Cell>, reached: set<Cell>, cells: seq<Cell>)
    requires CoveredUpTo(dim, before, reached, cells, |cells|)
    ensures forall n :: n in cells && InBounds(n, dim) ==> n in before || n in reached
  {
    forall n | n in cells && InBounds(n, dim) ensures n in before || n in reached {
      var m :| 0 <= m < |cells| && cells[m] == n;
    }
  }

  /** The head of the queue is a reached cell, on the map. */
  lemma {:induction false} HeadOnMap(dim: int, free: set<Cell>, area: seq<Cell>, before: set<Cell>, start: Cell,
                                     parent: map<Cell, Cell>, done: set<Cell>, queue: seq<Cell>)
    requires QueueDone(free, area, start, parent, done, queue) && ReachedOk(dim, before, start, parent) && |queue| > 0
    ensures queue[0] in Reached(start, parent) && InBounds(queue[0], dim)
  {
  }

  /** `path` leads from `start` over neighbouring cells of the map, all but
      the first unvisited before, to a free cell outside `area`. */
  ghost predicate PathOut(dim: int, free: set<Cell>, area: seq<Cell>, before: set<Cell>, start: Cell, path: seq<Cell>) {
    |path| > 0 && path[0] == start && path[|path| - 1] in free && path[|path| - 1] !in area && Walk(path) &&
    (forall i :: 0 <= i < |path| ==> InBounds(path[i], dim)) &&
    (forall i :: 1 <= i < |path| ==> path[i] !in before)
  }

  /** Dequeuing a wall or area cell whose neighbours have all been reached
      or visited before keeps the queue and the closure. */
  lemma {:induction false} DequeueExplored(dim: int, free: set<Cell>, area: seq<Cell>, before: set<Cell>, start: Cell,
                                           parent: map<Cell, Cell>, parent': map<Cell, Cell>, done: set<Cell>,
                                           queue: seq<Cell>, queue': seq<Cell>)
    requires QueueDone(free, area, start, parent, done, queue) && DoneClosed(dim, before, start, parent, done)
    requires |queue| > 0 && (queue[0] !in free || queue[0] in area)
    requires Grown(dim, start, parent, parent', queue[1..], queue')
    requires forall n :: n in Neighbours(queue[0]) && InBounds(n, dim) ==> n in before || n in Reached(start, parent')
    ensures QueueDone(free, area, start, parent', done + {queue[0]}, queue')
    ensures DoneClosed(dim, before, start, parent', done + {queue[0]})
  {
    var point, done' := queue[0], done + {queue[0]};
    forall i | 0 <= i < |queue'| ensures queue'[i] in Reached(start, parent') {
      if i < |queue| - 1 { assert queue'[i] == queue[i + 1]; }
    }
    forall c | c in Reached(start, parent') ensures c in done' || c in queue' {
      if c in Reached(start, parent) && c !in done' {
        var i :| 0 <= i < |queue| && queue[i] == c;
        assert i > 0 && queue'[i - 1] == c;
      }
    }
  }

  /** When the queue runs dry, every cell connected to the start through
      cells unvisited before is a wall or in the area. */
  lemma {:induction false} SearchExhausted(dim: int, free: set<Cell>, area: seq<Cell>, before: set<Cell>, start: Cell,
                                           parent: map<Cell, Cell>, done: set<Cell>)
    requires QueueDone(free, area, start, parent, done, []) && DoneClosed(dim, before, start, parent, done)
    ensures forall c :: Connected(AllCells(dim) - before + {start}, start, c) ==> c !in free || c in area
  {
    var through := AllCells(dim) - before + {start};
    assert Reached(start, parent) == done;
    forall c, n | c in done && n in Neighbours(c) && n in through ensures n in done {
    }
    forall c | Connected(through, start, c) ensures c !in free || c in area {
      ClosedHoldsConnected(through, done, start, c);
    }
  }

  // ---------------------------------------------------------------------
  // The breadth-first order of FindShortestPathToOpenArea. The walks that
  // count are those from `start` through `AllCells(dim) - before + {start}`,
  // the cells the search may enter.

  /** No walk reaches a cell with a recorded depth in fewer steps. */
  ghost predicate NoShortcut(dim: int, before: set<Cell>, start: Cell, rank: map<Cell, nat>) {
    forall w :: IsPath(AllCells(dim) - before + {start}, w) && w[0] == start && w[|w| - 1] in rank ==>
      rank[w[|w| - 1]] <= |w| - 1
  }

  /** Every walk of fewer than `lvl` steps ends at a dequeued cell. */
  ghost predicate Below(dim: int, before: set<Cell>, start: Cell, done: set<Cell>, lvl: nat) {
    forall w :: IsPath(AllCells(dim) - before + {start}, w) && w[0] == start && |w| <= lvl ==> w[|w| - 1] in done
  }

  /** The queue's depths are sorted and are `lvl` or `lvl + 1`. */
  ghost predicate LevelQueue(rank: map<Cell, nat>, queue: seq<Cell>, lvl: nat) {
    (forall i :: 0 <= i < |queue| ==> queue[i] in rank && lvl <= rank[queue[i]] <= lvl + 1) &&
    (forall i, j :: 0 <= i < j < |queue| ==> queue[i] in rank && queue[j] in rank && rank[queue[i]] <= rank[queue[j]])
  }

  /** The breadth-first order: the queue is level, every depth is a
      distance, and everything nearer than `lvl` is dequeued. */
  ghost predicate Levels(dim: int, before: set<Cell>, start: Cell, rank: map<Cell, nat>, done: set<Cell>,
                         queue: seq<Cell>, lvl: nat) {
    LevelQueue(rank, queue, lvl) && NoShortcut(dim, before, start, rank) && Below(dim, before, start, done, lvl)
  }

  /** The whole search state between rounds: parents and depths, the
      queue and the dequeued cells, and the breadth-first order. */
  ghost predicate Searching(dim: int, free: set<Cell>, area: seq<Cell>, before: set<Cell>, start: Cell,
                            parent: map<Cell, Cell>, rank: map<Cell, nat>, done: set<Cell>, queue: seq<Cell>, lvl: nat) {
    ParentOk(start, parent, rank) && ReachedOk(dim, before, start, parent) &&
    QueueDone(free, area, start, parent, done, queue) && DoneClosed(dim, before, start, parent, done) &&
    Levels(dim, before, start, rank, done, queue, lvl)
  }

  /** `rank'` keeps the depths of `rank`, gives every cell it adds the depth
      below `point`'s, and holds every cell queued after `queue` as one it
      adds. */
  ghost predicate Deeper(rank: map<Cell, nat>, rank': map<Cell, nat>, point: Cell, queue: seq<Cell>, queue': seq<Cell>) {
    point in rank &&
    (forall c :: c in rank ==> c in rank' && rank'[c] == rank[c]) &&
    (forall c :: c in rank' && c !in rank ==> rank'[c] == rank[point] + 1) &&
    (forall i :: |queue| <= i < |queue'| ==> queue'[i] in rank' && queue'[i] !in rank)
  }

  /** Queueing a cell without a depth at the depth below `point`'s keeps
      the extension. */
  lemma {:induction false} DeeperOne(rank: map<Cell, nat>, rank': map<Cell, nat>, point: Cell, queue: seq<Cell>,
                                     queue': seq<Cell>, next: Cell)
    requires Deeper(rank, rank', point, queue, queue') && |queue| <= |queue'| && next !in rank'
    ensures Deeper(rank, rank'[next := rank'[point] + 1], point, queue, queue' + [next])
  {
    var q := queue' + [next];
    forall i | |queue| <= i < |q| ensures q[i] in rank'[next := rank'[point] + 1] && q[i] !in rank {
      if i < |queue'| { assert q[i] == queue'[i]; }
    }
  }

  /** No walk reaches a free cell outside `area` with fewer than `n` cells. */
  ghost predicate Shortest(dim: int, free: set<Cell>, area: seq<Cell>, before: set<Cell>, start: Cell, n: int) {
    forall w :: IsPath(AllCells(dim) - before + {start}, w) && w[0] == start && w[|w| - 1] in free && w[|w| - 1] !in area ==>
      n <= |w|
  }

  /** The search begins at level 0 with only the start reached, queued at
      depth 0. */
  lemma {:induction false} StartSearching(dim: int, free: set<Cell>, area: seq<Cell>, before: set<Cell>, start: Cell)
    requires InBounds(start, dim)
    ensures Searching(dim, free, area, before, start, map[], map[start := 0], {}, [start], 0)
  {
    assert Reached(start, map[]) == {start};
  }

  /** The last step of a walk of more than one cell, from a dequeued cell,
      lands on a reached cell. */
  lemma {:induction false} StepFromDone(dim: int, before: set<Cell>, start: Cell, parent: map<Cell, Cell>,
                                        done: set<Cell>, w: seq<Cell>)
    requires ReachedOk(dim, before, start, parent) && DoneClosed(dim, before, start, parent, done)
    requires IsPath(AllCells(dim) - before + {start}, w) && |w| > 1 && w[|w| - 2] in done
    ensures w[|w| - 1] in Reached(start, parent)
  {
    var c := w[|w| - 1];
    assert Step(w[|w| - 2], c) && c in AllCells(dim) - before + {start};
    assert c in Neighbours(w[|w| - 2]);
  }

  /** A walk of more than one cell without its last cell. */
  lemma {:induction false} PathPrefix(through: set<Cell>, w: seq<Cell>)
    requires IsPath(through, w) && |w| > 1
    ensures IsPath(through, w[..|w| - 1]) && w[..|w| - 1][0] == w[0] && w[..|w| - 1][|w| - 2] == w[|w| - 2]
  {
  }

  /** A reached cell no deeper than `lvl`, while every queued cell is
      deeper, has been dequeued. */
  lemma {:induction false} NearIsDone(free: set<Cell>, area: seq<Cell>, start: Cell, parent: map<Cell, Cell>,
                                      rank: map<Cell, nat>, done: set<Cell>, queue: seq<Cell>, lvl: nat, c: Cell)
    requires QueueDone(free, area, start, parent, done, queue)
    requires forall i :: 0 <= i < |queue| ==> queue[i] in rank && lvl < rank[queue[i]]
    requires c in Reached(start, parent) && c in rank && rank[c] <= lvl
    ensures c in done
  {
  }

  /** A walk of at most `lvl + 1` cells ends at a reached cell: its
      cell before last, if any, is dequeued. */
  lemma {:induction false} NearIsReached(dim: int, before: set<Cell>, start: Cell, parent: map<Cell, Cell>,
                                         done: set<Cell>, lvl: nat, w: seq<Cell>)
    requires ReachedOk(dim, before, start, parent) && DoneClosed(dim, before, start, parent, done)
    requires Below(dim, before, start, done, lvl)
    requires IsPath(AllCells(dim) - before + {start}, w) && w[0] == start && |w| <= lvl + 1
    ensures w[|w| - 1] in Reached(start, parent)
  {
    if |w| > 1 {
      PathPrefix(AllCells(dim) - before + {start}, w);
      StepFromDone(dim, before, start, parent, done, w);
    }
  }

  /** When the head of the queue is one level deeper than `lvl`, every walk
      of `lvl` steps ends at a dequeued cell too. */
  lemma {:induction false} LevelUp(dim: int, free: set<Cell>, area: seq<Cell>, before: set<Cell>, start: Cell,
                                   parent: map<Cell, Cell>, rank: map<Cell, nat>, done: set<Cell>, queue: seq<Cell>, lvl: nat)
    requires ParentOk(start, parent, rank) && ReachedOk(dim, before, start, parent)
    requires QueueDone(free, area, start, parent, done, queue) && DoneClosed(dim, before, start, parent, done)
    requires Levels(dim, before, start, rank, done, queue, lvl)
    requires |queue| > 0 && rank[queue[0]] == lvl + 1
    ensures Levels(dim, before, start, rank, done, queue, lvl + 1)
  {
    var through := AllCells(dim) - before + {start};
    assert forall i :: 0 <= i < |queue| ==> queue[i] in rank && lvl < rank[queue[i]] by {
      forall i | 0 <= i < |queue| ensures queue[i] in rank && lvl < rank[queue[i]] {
        if i > 0 { assert rank[queue[0]] <= rank[queue[i]]; }
      }
    }
    forall w | IsPath(through, w) && w[0] == start && |w| == lvl + 1 ensures w[|w| - 1] in done {
      NearIsReached(dim, before, start, parent, done, lvl, w);
      NearIsDone(free, area, start, parent, rank, done, queue, lvl, w[|w| - 1]);
    }
  }

  /** The level of the search when the head of the queue is dequeued: the
      head's depth. */
  lemma {:induction false} HeadLevel(dim: int, free: set<Cell>, area: seq<Cell>, before: set<Cell>, start: Cell,
                                     parent: map<Cell, Cell>, rank: map<Cell, nat>, done: set<Cell>, queue: seq<Cell>,
                                     lvl: nat) returns (lvl': nat)
    requires Searching(dim, free, area, before, start, parent, rank, done, queue, lvl) && |queue| > 0
    ensures Searching(dim, free, area, before, start, parent, rank, done, queue, lvl')
    ensures queue[0] in rank && rank[queue[0]] == lvl'
  {
    lvl' := lvl;
    if rank[queue[0]] == lvl + 1 {
      LevelUp(dim, free, area, before, start, parent, rank, done, queue, lvl);
      lvl' := lvl + 1;
    }
  }

  /** Dequeuing the head, at depth `lvl`, and queueing new cells at depth
      `lvl + 1` keeps the queue level. */
  lemma {:induction false} ExploreQueue(rank: map<Cell, nat>, rank': map<Cell, nat>, queue: seq<Cell>,
                                        queue': seq<Cell>, lvl: nat)
    requires LevelQueue(rank, queue, lvl) && |queue| > 0 && rank[queue[0]] == lvl
    requires |queue'| >= |queue| - 1 && queue'[..|queue| - 1] == queue[1..]
    requires Deeper(rank, rank', queue[0], queue[1..], queue')
    ensures LevelQueue(rank', queue', lvl)
  {
    var n := |queue| - 1;
    assert forall i :: 0 <= i < n ==> queue'[i] == queue[i + 1] by {
      forall i | 0 <= i < n ensures queue'[i] == queue[i + 1] {
        assert queue'[..n][i] == queue[1..][i];
      }
    }
    forall i | 0 <= i < |queue'| ensures queue'[i] in rank' && lvl <= rank'[queue'[i]] <= lvl + 1 {
      if i < n { assert queue[i + 1] in rank; }
    }
    forall i, j | 0 <= i < j < |queue'| ensures rank'[queue'[i]] <= rank'[queue'[j]] {
      if j < n { assert rank[queue[i + 1]] <= rank[queue[j + 1]]; }
      else if i < n { assert queue[i + 1] in rank; }
    }
  }

  /** A cell first reached from a cell at depth `lvl` is `lvl + 1` steps
      away: a shorter walk would end at or pass a dequeued cell, whose
      neighbours were all reached or visited before. */
  lemma {:induction false} NewIsFar(dim: int, before: set<Cell>, start: Cell, parent: map<Cell, Cell>,
                                    parent': map<Cell, Cell>, rank: map<Cell, nat>, rank': map<Cell, nat>,
                                    done: set<Cell>, lvl: nat)
    requires ParentOk(start, parent, rank) && ParentOk(start, parent', rank') && ReachedOk(dim, before, start, parent')
    requires ReachedOk(dim, before, start, parent) && DoneClosed(dim, before, start, parent, done)
    requires NoShortcut(dim, before, start, rank) && Below(dim, before, start, done, lvl)
    requires forall c :: c in rank ==> c in rank' && rank'[c] == rank[c]
    requires forall c :: c in rank' && c !in rank ==> rank'[c] == lvl + 1
    ensures NoShortcut(dim, before, start, rank')
  {
    var through := AllCells(dim) - before + {start};
    forall w | IsPath(through, w) && w[0] == start && w[|w| - 1] in rank' ensures rank'[w[|w| - 1]] <= |w| - 1 {
      if |w| <= lvl + 1 {
        NearIsReached(dim, before, start, parent, done, lvl, w);
      }
    }
  }

  /** Dequeuing the head, at depth `lvl`, and queueing its new neighbours at
      depth `lvl + 1` keeps the breadth-first order. */
  lemma {:induction false} ExploreLevels(dim: int, free: set<Cell>, area: seq<Cell>, before: set<Cell>, start: Cell,
                                         parent: map<Cell, Cell>, parent': map<Cell, Cell>, rank: map<Cell, nat>,
                                         rank': map<Cell, nat>, done: set<Cell>, queue: seq<Cell>, queue': seq<Cell>, lvl: nat)
    requires ParentOk(start, parent, rank) && ParentOk(start, parent', rank') && ReachedOk(dim, before, start, parent')
    requires ReachedOk(dim, before, start, parent) && DoneClosed(dim, before, start, parent, done)
    requires Levels(dim, before, start, rank, done, queue, lvl)
    requires |queue| > 0 && rank[queue[0]] == lvl
    requires Grown(dim, start, parent, parent', queue[1..], queue')
    requires Deeper(rank, rank', queue[0], queue[1..], queue')
    ensures Levels(dim, before, start, rank', done + {queue[0]}, queue', lvl)
  {
    ExploreQueue(rank, rank', queue, queue', lvl);
    NewIsFar(dim, before, start, parent, parent', rank, rank', done, lvl);
  }

  /** The path back from a free cell outside the area dequeued at depth
      `lvl` leads out, and it is as short as any: every walk to such a cell
      has more than `lvl` steps. */
  lemma {:induction false} FoundOut(dim: int, free: set<Cell>, area: seq<Cell>, before: set<Cell>, start: Cell,
                                    parent: map<Cell, Cell>, rank: map<Cell, nat>, done: set<Cell>,
                                    queue: seq<Cell>, lvl: nat, path: seq<Cell>)
    requires Searching(dim, free, area, before, start, parent, rank, done, queue, lvl)
    requires |queue| > 0 && InBounds(queue[0], dim) && queue[0] in free && queue[0] !in area
    requires |path| > 0 && path[0] == start && path[|path| - 1] == queue[0]
    requires Walk(path) && (forall i :: 1 <= i < |path| ==> path[i] in parent)
    requires |path| == lvl + 1
    ensures PathOut(dim, free, area, before, start, path) && Shortest(dim, free, area, before, start, |path|)
  {
  }

  // ---------------------------------------------------------------------
  // Random draws and zones

  /** `Random.Next(lo, hi)`: some value of `[lo, hi)`, `lo` itself when the
      range is empty, and `ArgumentOutOfRange` when `lo > hi`. Which value
      is drawn is left open. */
  method Next(lo: int, hi: int) returns (r: Result<int>)
    ensures lo > hi ==> r == Fail(ArgumentOutOfRange)
    ensures lo == hi ==> r == Ok(lo)
    ensures lo < hi ==> r.Ok? && lo <= r.value < hi
  {
    if lo > hi {
      return Fail(ArgumentOutOfRange);
    }
    if lo == hi {
      return Ok(lo);
    }
    var v :| lo <= v < hi;
    return Ok(v);
  }

  /** The number of `true` values, as `Count(c => c)` counts them. */
  function CountTrue(bs: seq<bool>): (r: nat)
    ensures r <= |bs|
    ensures r == 0 <==> forall i :: 0 <= i < |bs| ==> !bs[i]
  {
    if bs == [] then 0 else (if bs[0] then 1 else 0) + CountTrue(bs[1..])
  }

  /** `IsOverlapping`: a 4 by 4 zone at `(x, y)` shares a cell with `z`. */
  predicate Overlaps(z: Zone, x: int, y: int) {
    x < z.x + z.width && x + 4 > z.x && y < z.y + z.height && y + 4 > z.y
  }

  /** `IsTooClose`: a 4 by 4 zone at `(x, y)` lies within `minDistance` of
      `z` on either side along either axis (the source's four clauses). */
  predicate TooClose(z: Zone, x: int, y: int, minDistance: int) {
    (x + 4 + minDistance > z.x && x < z.x) ||
    (x < z.x + z.width + minDistance && x > z.x) ||
    (y + 4 + minDistance > z.y && y < z.y) ||
    (y < z.y + z.height + minDistance && y > z.y)
  }

  /** A zone of `GenerateZones` number `k`: 4 by 4, inside a `dim` by
      `dim` map and off its border (it can only touch the far border of a
      5 by 5 map), named `'A' + k`, neutral. */
  predicate Generated(z: Zone, k: int, dim: int)
    reads z
  {
    z.width == 4 && z.height == 4 &&
    1 <= z.x && z.x + 4 <= dim && (dim > 5 ==> z.x + 4 < dim) &&
    1 <= z.y && z.y + 4 <= dim && (dim > 5 ==> z.y + 4 < dim) &&
    z.index as int == 65 + k && z.state == Neutral
  }

  /** The zone's rectangle does not fit a `dim` by `dim` map though it has
      cells, so scanning it reads outside the grid. */
  predicate OffMap(z: Zone, dim: int) {
    z.width > 0 && z.height > 0 && (z.x < 0 || z.y < 0 || z.x + z.width > dim || z.y + z.height > dim)
  }

  /** What scanning and thinning `z` on a `dim` by `dim` map throws: an
      index off the grid when its rectangle does not fit, and the list
      indexer's range error when its area is negative, for then no wall is
      found yet the count of walls, 0, exceeds the negative share kept. */
  function ZoneError(z: Zone, dim: int): (r: Option<Error>)
    ensures r.None? <==> !OffMap(z, dim) && z.width * z.height >= 0
  {
    if OffMap(z, dim) then Some(IndexOutOfRange)
    else if z.width * z.height < 0 then Some(ArgumentOutOfRange)
    else None
  }

  /** No cell appears twice. */
  predicate Distinct(cs: seq<Cell>) {
    forall p, q :: 0 <= p < q < |cs| ==> cs[p] != cs[q]
  }

  /** `List.Remove` of the `k`-th cell of a list without repeats. */
  function RemoveAt(cs: seq<Cell>, k: int): (r: seq<Cell>)
    requires Distinct(cs) && 0 <= k < |cs|
    ensures |r| == |cs| - 1 && Distinct(r)
    ensures forall c :: c in r <==> c in cs && c != cs[k]
  {
    assert forall c :: c in cs[..k] + cs[k + 1..] <==> c in cs[..k] || c in cs[k + 1..];
    assert forall p :: 0 <= p < |cs| && p != k ==> cs[p] != cs[k];
    cs[..k] + cs[k + 1..]
  }

  /** The cell lies in the zone's column range and, within the scan of the
      zone column by column, comes before `(i, j)`. */
  predicate ScannedBefore(z: Zone, c: Cell, i: int, j: int) {
    z.x <= c.x && z.y <= c.y < z.y + z.height && (c.x < i || (c.x == i && c.y < j))
  }

  /** A zone placed by `GenerateZones` fits the map and has a positive
      area, so thinning it never throws. */
  lemma {:induction false} GeneratedZoneFits(z: Zone, k: int, dim: int)
    requires Generated(z, k, dim)
    ensures ZoneError(z, dim) == None
  {
  }

  /** A 4 by 4 zone thinned with a draw in `[10, 20)` keeps at most 3 walls. */
  lemma {:induction false} GeneratedZoneKeepsFew(kept: nat, draw: int)
    requires 10 <= draw < 20 && kept as real <= (16 * draw) as real / 100.0
    ensures kept <= 3
  {
  }

  class MapGenerator {
    const dim: int
    /** Whether this is a STEREO build (one zone instead of two). */
    const stereo: bool

    constructor (dimension: int, stereo: bool)
      ensures dim == dimension && this.stereo == stereo
    {
      dim := dimension;
      this.stereo := stereo;
    }

    /** A `dim` by `dim` array. */
    predicate Shaped(a: array2<bool>) {
      a.Length0 == dim && a.Length1 == dim
    }

    /** The cells that are neither walls nor visited. */
    ghost function Open(grid: array2<bool>, visited: array2<bool>): (r: set<Cell>)
      requires Shaped(grid) && Shaped(visited)
      reads grid, visited
      ensures forall c :: c in r <==> InBounds(c, dim) && !grid[c.x, c.y] && !visited[c.x, c.y]
    {
      set x, y | 0 <= x < dim && 0 <= y < dim && !grid[x, y] && !visited[x, y] :: Cell(x, y)
    }

    /** The cells marked in `a`. */
    ghost function Marked(a: array2<bool>): (r: set<Cell>)
      requires Shaped(a)
      reads a
      ensures forall c :: c in r <==> InBounds(c, dim) && a[c.x, c.y]
    {
      set x, y | 0 <= x < dim && 0 <= y < dim && a[x, y] :: Cell(x, y)
    }

    /** The cells that are not walls. */
    ghost function Free(grid: array2<bool>): (r: set<Cell>)
      requires Shaped(grid)
      reads grid
      ensures forall c :: c in r <==> InBounds(c, dim) && !grid[c.x, c.y]
    {
      set x, y | 0 <= x < dim && 0 <= y < dim && !grid[x, y] :: Cell(x, y)
    }

    // -------------------------------------------------------------------
    // FloodFill

    /** One round of `FloodFill`'s loop: dequeue the head, and add it and
        queue its neighbours when it is an open cell. */
    method FillStep(grid: array2<bool>, visited: array2<bool>, ghost open: set<Cell>, ghost before: set<Cell>,
                    start: Cell, area: seq<Cell>, ghost seen: set<Cell>, queue: seq<Cell>, ghost parents: seq<Cell>)
      returns (area': seq<Cell>, ghost seen': set<Cell>, queue': seq<Cell>, ghost parents': seq<Cell>)
      requires Shaped(grid) && Shaped(visited) && grid != visited && |queue| > 0
      requires forall c :: c in open <==> InBounds(c, dim) && !grid[c.x, c.y] && c !in before
      requires AreaOk(open, start, area, seen) && QueueOk(start, seen, queue, parents)
      requires ClosureOk(open, start, seen, queue) && Tracks(visited, before, seen)
      requires StartFirst(open, start, area, queue)
      modifies visited
      ensures AreaOk(open, start, area', seen') && QueueOk(start, seen', queue', parents')
      ensures ClosureOk(open, start, seen', queue') && Tracks(visited, before, seen')
      ensures StartFirst(open, start, area', queue')
      ensures |open - seen'| < |open - seen| || (seen' == seen && |queue'| < |queue|)
    {
      var p := queue[0];
      if p.x < 0 || p.y < 0 || p.x >= dim || p.y >= dim || grid[p.x, p.y] || visited[p.x, p.y] {
        DequeueKeepsParents(start, seen, queue, parents);
        SkipKeepsClosure(open, start, seen, queue);
        return area, seen, queue[1..], parents[1..];
      }
      assert p in open && p !in seen;
      HeadReached(open, start, area, seen, queue, parents);
      AddKeepsArea(open, start, area, seen, p);
      AddKeepsParents(start, seen, queue, parents);
      AddKeepsClosure(open, start, seen, queue);
      Mark(visited, before, seen, p);
      area', seen' := area + [p], seen + {p};
      queue', parents' := queue[1..] + Neighbours(p), parents[1..] + [p, p, p, p];
    }

    /** `FloodFill`: the area is exactly the open cells (neither walls nor
        visited) connected to the start through open cells, each listed
        once, and those cells are now marked visited. */
    method FloodFill(grid: array2<bool>, visited: array2<bool>, startX: int, startY: int) returns (area: seq<Cell>)
      requires Shaped(grid) && Shaped(visited) && grid != visited
      modifies visited
      ensures forall c :: c in area ==> c in old(Open(grid, visited)) && Connected(old(Open(grid, visited)), Cell(startX, startY), c)
      ensures forall c :: Connected(old(Open(grid, visited)), Cell(startX, startY), c) ==> c in area
      ensures forall c, n :: c in area && n in Neighbours(c) && n in old(Open(grid, visited)) ==> n in area
      ensures forall i, j :: 0 <= i < j < |area| ==> area[i] != area[j]
      ensures forall c :: InBounds(c, dim) ==> (visited[c.x, c.y] <==> old(visited[c.x, c.y]) || c in area)
      ensures area != [] <==> Cell(startX, startY) in old(Open(grid, visited))
      ensures area != [] ==> area[0] == Cell(startX, startY)
    {
      ghost var open := Open(grid, visited);
      ghost var before := Marked(visited);
      var start := Cell(startX, startY);
      area := [];
      var queue := [start];
      ghost var seen: set<Cell> := {};
      ghost var parents: seq<Cell> := [start];
      while |queue| > 0
        invariant AreaOk(open, start, area, seen) && QueueOk(start, seen, queue, parents)
        invariant ClosureOk(open, start, seen, queue) && Tracks(visited, before, seen)
        invariant StartFirst(open, start, area, queue)
        decreases |open - seen|, |queue|
      {
        area, seen, queue, parents := FillStep(grid, visited, open, before, start, area, seen, queue, parents);
      }
      forall c | Connected(open, start, c) ensures c in area {
        ClosedHoldsConnected(open, seen, start, c);
      }
      if area != [] {
        ConnectedEndsOpen(open, start, area[0]);
      }
    }

    // -------------------------------------------------------------------
    // IdentifyEnclosedAreas

    /** The flood fill of `IdentifyEnclosedAreas` from a free cell outside
        the earlier areas. */
    method FillFrom(grid: array2<bool>, visited: array2<bool>, ghost free: set<Cell>, ghost owner: map<Cell, nat>,
                    i: int, j: int) returns (area: seq<Cell>)
      requires Shaped(grid) && Shaped(visited) && grid != visited
      requires free == Free(grid) && owner.Keys <= free && Tracks(visited, {}, owner.Keys)
      requires Cell(i, j) in free && Cell(i, j) !in owner
      modifies visited
      ensures Tracks(visited, {}, owner.Keys + Cells(area)) && FillOf(free, owner, Cell(i, j), area)
    {
      ghost var open := Open(grid, visited);
      assert forall c :: c in open <==> c in free && c !in owner;
      area := FloodFill(grid, visited, i, j);
    }

    /** One round of `IdentifyEnclosedAreas`' loops: a free cell not yet
        visited starts a new area, filled from it. */
    method VisitCell(grid: array2<bool>, visited: array2<bool>, ghost free: set<Cell>, i: int, j: int,
                     areas: seq<seq<Cell>>, ghost owner: map<Cell, nat>)
      returns (areas': seq<seq<Cell>>, ghost owner': map<Cell, nat>)
      requires Shaped(grid) && Shaped(visited) && grid != visited && 0 <= i < dim && 0 <= j < dim
      requires free == Free(grid) && Tracks(visited, {}, owner.Keys)
      requires AreasOk(free, areas, owner) && Covers(free, owner, i, j)
      modifies visited
      ensures Tracks(visited, {}, owner'.Keys) && AreasOk(free, areas', owner') && Covers(free, owner', i, j + 1)
    {
      if visited[i, j] || grid[i, j] {
        CoversNext(free, owner, owner, i, j);
        return areas, owner;
      }
      var area := FillFrom(grid, visited, free, owner, i, j);
      AddArea(free, areas, owner, Cell(i, j), area);
      owner' := AddOwner(owner, area, |areas|);
      areas' := areas + [area];
      CoversNext(free, owner, owner', i, j);
    }

    /** `IdentifyEnclosedAreas`: the areas split the free cells (the cells
        that are not walls) into their connected parts: every free cell is
        in exactly one area, and each area is non-empty, lists its cells
        once, and holds every free cell connected to it and no other. */
    method IdentifyEnclosedAreas(grid: array2<bool>) returns (areas: seq<seq<Cell>>)
      requires Shaped(grid)
      ensures forall k :: 0 <= k < |areas| ==> EnclosedArea(Free(grid), areas[k])
      ensures forall k, l, c :: 0 <= k < l < |areas| && c in areas[k] ==> c !in areas[l]
      ensures forall c :: c in Free(grid) ==> exists k :: 0 <= k < |areas| && c in areas[k]
    {
      var visited := new bool[dim, dim]((_, _) => false);
      ghost var free := Free(grid);
      areas := [];
      ghost var owner: map<Cell, nat> := map[];
      for i := 0 to dim
        invariant Tracks(visited, {}, owner.Keys) && AreasOk(free, areas, owner) && Covers(free, owner, i, 0)
      {
        for j := 0 to dim
          invariant Tracks(visited, {}, owner.Keys) && AreasOk(free, areas, owner) && Covers(free, owner, i, j)
        {
          areas, owner := VisitCell(grid, visited, free, i, j, areas, owner);
        }
        NextRowCovered(free, owner, i, dim);
      }
      AllCovered(free, areas, owner, dim);
    }

    // -------------------------------------------------------------------
    // FindShortestPathToOpenArea

    /** The cells of the map not marked in `a`. */
    ghost function Unvisited(a: array2<bool>): (r: set<Cell>)
      requires Shaped(a)
      reads a
      ensures forall c :: c in r <==> InBounds(c, dim) && !a[c.x, c.y]
    {
      AllCells(dim) - Marked(a)
    }

    /** The inner loop of `FindShortestPathToOpenArea`: each neighbour of
        `point` on the map and not yet visited is marked visited, given
        `point` as its parent, and queued, in the order `x + 1`, `x - 1`,
        `y + 1`, `y - 1`. */
    method Explore(visited: array2<bool>, ghost before: set<Cell>, start: Cell, point: Cell,
                   queue: seq<Cell>, parent: map<Cell, Cell>, ghost rank: map<Cell, nat>)
      returns (queue': seq<Cell>, parent': map<Cell, Cell>, ghost rank': map<Cell, nat>)
      requires Shaped(visited) && Tracks(visited, before, Reached(start, parent))
      requires ParentOk(start, parent, rank) && ReachedOk(dim, before, start, parent)
      requires point in Reached(start, parent)
      modifies visited
      ensures Tracks(visited, before, Reached(start, parent'))
      ensures ParentOk(start, parent', rank') && ReachedOk(dim, before, start, parent')
      ensures Grown(dim, start, parent, parent', queue, queue') && Deeper(rank, rank', point, queue, queue')
      ensures forall n :: n in Neighbours(point) && InBounds(n, dim) ==> n in before || n in Reached(start, parent')
    {
      var directions := Neighbours(point);
      queue', parent', rank' := queue, parent, rank;
      for k := 0 to 4
        invariant Tracks(visited, before, Reached(start, parent'))
        invariant ParentOk(start, parent', rank') && ReachedOk(dim, before, start, parent')
        invariant point in Reached(start, parent') && Grown(dim, start, parent, parent', queue, queue')
        invariant Deeper(rank, rank', point, queue, queue')
        invariant CoveredUpTo(dim, before, Reached(start, parent'), directions, k)
      {
        var next := directions[k];
        ghost var r := Reached(start, parent');
        if 0 <= next.x < dim && 0 <= next.y < dim && !visited[next.x, next.y] {
          Mark(visited, before, r, next);
          AddReached(dim, before, start, parent', rank', point, next);
          GrowOne(dim, start, parent, parent', queue, queue', point, next);
          DeeperOne(rank, rank', point, queue, queue', next);
          parent', rank' := parent'[next := point], rank'[next := rank'[point] + 1];
          queue' := queue' + [next];
        }
        CoverNext(dim, before, r, Reached(start, parent'), directions, k);
      }
      CoveredAll(dim, before, Reached(start, parent'), directions);
    }

    /** One round of `FindShortestPathToOpenArea`'s loop: dequeue a cell;
        if it is free and outside the area, return the path to it;
        otherwise explore its neighbours. */
    method SearchStep(grid: array2<bool>, visited: array2<bool>, area: seq<Cell>, ghost free: set<Cell>,
                      ghost before: set<Cell>, start: Cell, queue: seq<Cell>, parent: map<Cell, Cell>,
                      ghost rank: map<Cell, nat>, ghost done: set<Cell>, ghost lvl: nat)
      returns (path: seq<Cell>, queue': seq<Cell>, parent': map<Cell, Cell>, ghost rank': map<Cell, nat>,
               ghost done': set<Cell>, ghost lvl': nat)
      requires Shaped(grid) && Shaped(visited) && grid != visited && free == Free(grid) && |queue| > 0
      requires Tracks(visited, before, Reached(start, parent))
      requires Searching(dim, free, area, before, start, parent, rank, done, queue, lvl)
      modifies visited
      ensures Tracks(visited, before, Reached(start, parent'))
      ensures path != [] ==> PathOut(dim, free, area, before, start, path) && Shortest(dim, free, area, before, start, |path|)
      ensures path == [] ==> Searching(dim, free, area, before, start, parent', rank', done', queue', lvl')
      ensures path == [] ==> |AllCells(dim) - Reached(start, parent')| < |AllCells(dim) - Reached(start, parent)| ||
                             (parent' == parent && |queue'| < |queue|)
    {
      HeadOnMap(dim, free, area, before, start, parent, done, queue);
      var point := queue[0];
      lvl' := HeadLevel(dim, free, area, before, start, parent, rank, done, queue, lvl);
      if !grid[point.x, point.y] && point !in area {
        path := PathBack(parent, rank, start, point);
        FoundOut(dim, free, area, before, start, parent, rank, done, queue, lvl', path);
        return path, queue, parent, rank, done, lvl';
      }
      path := [];
      queue', parent', rank', done' := Dequeue(visited, area, free, before, start, queue, parent, rank, done, lvl');
    }

    /** The rest of a round whose dequeued cell is a wall or in the area:
        explore its neighbours and count it as done. */
    method Dequeue(visited: array2<bool>, area: seq<Cell>, ghost free: set<Cell>, ghost before: set<Cell>, start: Cell,
                   queue: seq<Cell>, parent: map<Cell, Cell>, ghost rank: map<Cell, nat>, ghost done: set<Cell>, ghost lvl: nat)
      returns (queue': seq<Cell>, parent': map<Cell, Cell>, ghost rank': map<Cell, nat>, ghost done': set<Cell>)
      requires Shaped(visited) && |queue| > 0 && (queue[0] !in free || queue[0] in area)
      requires Tracks(visited, before, Reached(start, parent))
      requires Searching(dim, free, area, before, start, parent, rank, done, queue, lvl)
      requires queue[0] in rank && rank[queue[0]] == lvl
      modifies visited
      ensures Tracks(visited, before, Reached(start, parent'))
      ensures Searching(dim, free, area, before, start, parent', rank', done', queue', lvl)
      ensures |AllCells(dim) - Reached(start, parent')| < |AllCells(dim) - Reached(start, parent)| ||
              (parent' == parent && |queue'| < |queue|)
    {
      var point := queue[0];
      queue', parent', rank' := Explore(visited, before, start, point, queue[1..], parent, rank);
      DequeueExplored(dim, free, area, before, start, parent, parent', done, queue, queue');
      ExploreLevels(dim, free, area, before, start, parent, parent', rank, rank', done, queue, queue', lvl);
      done' := done + {point};
    }

    /** The loop of `FindShortestPathToOpenArea`, over the cells unvisited
        outside `before`. */
    method SearchFrom(grid: array2<bool>, visited: array2<bool>, area: seq<Cell>, start: Cell,
                      ghost free: set<Cell>, ghost before: set<Cell>) returns (path: seq<Cell>)
      requires Shaped(grid) && Shaped(visited) && grid != visited && InBounds(start, dim)
      requires free == Free(grid) && Tracks(visited, before, {})
      modifies visited
      ensures path != [] ==> PathOut(dim, free, area, before, start, path) && Shortest(dim, free, area, before, start, |path|)
      ensures path == [] ==> forall c :: Connected(AllCells(dim) - before + {start}, start, c) ==> c !in free || c in area
      ensures forall c :: InBounds(c, dim) && c in before ==> visited[c.x, c.y]
      ensures visited[start.x, start.y]
    {
      var parent: map<Cell, Cell> := map[];
      ghost var rank: map<Cell, nat> := map[start := 0];
      var queue := [start];
      assert Reached(start, parent) == {} + {start};
      Mark(visited, before, {}, start);
      ghost var done: set<Cell> := {};
      ghost var lvl: nat := 0;
      StartSearching(dim, free, area, before, start);
      while |queue| > 0
        invariant Tracks(visited, before, Reached(start, parent))
        invariant Searching(dim, free, area, before, start, parent, rank, done, queue, lvl)
        decreases |AllCells(dim) - Reached(start, parent)|, |queue|
      {
        var found;
        found, queue, parent, rank, done, lvl := SearchStep(grid, visited, area, free, before, start, queue, parent, rank, done, lvl);
        if found != [] {
          return found;
        }
      }
      SearchExhausted(dim, free, area, before, start, parent, done);
      path := [];
    }

    /** `FindShortestPathToOpenArea`: a breadth-first search from `start`
        through the cells of the map not yet visited (walls included) for
        a free cell outside `area`. A path found starts at `start`, steps to
        a neighbour each time, stays on the map, passes only cells that
        were unvisited, and ends at a free cell outside the area, and no
        such walk to a free cell outside the area is shorter; no path
        means every cell so connected to the start is a wall or in the
        area. Visited cells stay visited, and the start is now visited.
        The `distance` the queue carries beside each cell is the ghost
        depth `rank` here. */
    method FindShortestPathToOpenArea(grid: array2<bool>, visited: array2<bool>, area: seq<Cell>, start: Cell)
      returns (path: seq<Cell>)
      requires Shaped(grid) && Shaped(visited) && grid != visited && InBounds(start, dim)
      modifies visited
      ensures path != [] ==> path[0] == start && path[|path| - 1] in Free(grid) && path[|path| - 1] !in area
      ensures path != [] ==> Walk(path) && forall i :: 0 <= i < |path| ==> InBounds(path[i], dim)
      ensures path != [] ==> forall i :: 1 <= i < |path| ==> path[i] in old(Unvisited(visited))
      ensures path != [] ==> forall w ::
        (|w| > 0 && Walk(w) && w[0] == start && w[|w| - 1] in Free(grid) && w[|w| - 1] !in area &&
         forall i :: 1 <= i < |w| ==> w[i] in old(Unvisited(visited))) ==> |path| <= |w|
      ensures path == [] ==> forall c :: Connected(old(Unvisited(visited)) + {start}, start, c) ==> c !in Free(grid) || c in area
      ensures forall c :: InBounds(c, dim) && old(visited[c.x, c.y]) ==> visited[c.x, c.y]
      ensures visited[start.x, start.y]
    {
      ghost var before := Marked(visited);
      ghost var unvisited := Unvisited(visited);
      assert unvisited == AllCells(dim) - before;
      path := SearchFrom(grid, visited, area, start, Free(grid), before);
      if path != [] {
        forall w | |w| > 0 && Walk(w) && w[0] == start && w[|w| - 1] in Free(grid) && w[|w| - 1] !in area &&
                   (forall i :: 1 <= i < |w| ==> w[i] in unvisited)
          ensures |path| <= |w|
        {
          assert IsPath(AllCells(dim) - before + {start}, w);
        }
      }
    }

    // -------------------------------------------------------------------
    // GenerateZones

    /** `GenerateZones`: up to two zones (one in a STEREO build), each 4 by
        4, off the border, named `'A'`, `'B'` in order, and neither
        overlapping nor too close to any zone placed before it. A map under
        5 cells wide fails the first draw. After 10000 rejected draws the
        zones placed so far are returned. */
    method GenerateZones() returns (r: Result<seq<Zone>>)
      ensures r.Fail? <==> dim < 5
      ensures r.Fail? ==> r.error == ArgumentOutOfRange
      ensures r.Ok? ==> |r.value| <= (if stereo then 1 else 2)
      ensures r.Ok? ==> forall k :: 0 <= k < |r.value| ==> fresh(r.value[k]) && Generated(r.value[k], k, dim)
      ensures r.Ok? ==> forall k, l :: 0 <= l < k < |r.value| ==>
        !Overlaps(r.value[l], r.value[k].x, r.value[k].y) &&
        !TooClose(r.value[l], r.value[k].x, r.value[k].y, ((dim - 4) / 2) - 4)
    {
      var count := if stereo then 1 else 2;
      var maxAttempts := 10000;
      var minDistance := ((dim - 4) / 2) - 4;
      var zones: seq<Zone> := [];
      for i := 0 to count
        invariant |zones| == i && (i > 0 ==> dim >= 5)
        invariant forall k :: 0 <= k < i ==> fresh(zones[k]) && Generated(zones[k], k, dim)
        invariant forall k, l :: 0 <= l < k < i ==>
          !Overlaps(zones[l], zones[k].x, zones[k].y) && !TooClose(zones[l], zones[k].x, zones[k].y, minDistance)
      {
        var x, y;
        var attempts := 0;
        while true
          modifies {}
          invariant 0 <= attempts <= maxAttempts
          decreases maxAttempts - attempts
        {
          var rx := Next(1, dim - 4);
          if rx.Fail? {
            return Fail(rx.error);
          }
          var ry := Next(1, dim - 4);
          x, y := rx.value, ry.value;
          if attempts >= maxAttempts {
            return Ok(zones);
          }
          attempts := attempts + 1;
          if !(exists z :: z in zones && Overlaps(z, x, y)) && !(exists z :: z in zones && TooClose(z, x, y, minDistance)) {
            break;
          }
        }
        var zone := new Zone(x, y, 4, 4, (i + 65) as char);
        zones := zones + [zone];
      }
      return Ok(zones);
    }

    // -------------------------------------------------------------------
    // Wall edits that look at a cell's neighbours

    /** Some neighbour of `c` along an axis is on the map and not a wall. */
    predicate HasOpenNeighbour(grid: array2<bool>, c: Cell)
      requires Shaped(grid) && InBounds(c, dim)
      reads grid
    {
      (c.x - 1 >= 0 && !grid[c.x - 1, c.y]) || (c.x + 1 < dim && !grid[c.x + 1, c.y]) ||
      (c.y - 1 >= 0 && !grid[c.x, c.y - 1]) || (c.y + 1 < dim && !grid[c.x, c.y + 1])
    }

    /** `RemoveWallsWithConstraints`: `attempts` times, a drawn cell with an
        open neighbour along an axis is cleared. No wall is added, and every
        wall cleared has an open neighbour. */
    method RemoveWallsWithConstraints(grid: array2<bool>, attempts: int)
      requires Shaped(grid)
      modifies grid
      ensures forall c :: InBounds(c, dim) && !old(grid[c.x, c.y]) ==> !grid[c.x, c.y]
      ensures forall c :: InBounds(c, dim) && old(grid[c.x, c.y]) && !grid[c.x, c.y] ==> HasOpenNeighbour(grid, c)
    {
      var i := 0;
      while i < attempts
        invariant forall c :: InBounds(c, dim) && !old(grid[c.x, c.y]) ==> !grid[c.x, c.y]
        invariant forall c :: InBounds(c, dim) && old(grid[c.x, c.y]) && !grid[c.x, c.y] ==> HasOpenNeighbour(grid, c)
      {
        var rx := Next(0, dim);
        var ry := Next(0, dim);
        var x, y := rx.value, ry.value;
        if (x - 1 >= 0 && !grid[x - 1, y]) || (x + 1 < dim && !grid[x + 1, y]) ||
           (y - 1 >= 0 && !grid[x, y - 1]) || (y + 1 < dim && !grid[x, y + 1]) {
          grid[x, y] := false;
        }
        i := i + 1;
      }
    }

    /** None of the eight cells around `c` is a wall. */
    predicate Isolated(grid: array2<bool>, c: Cell)
      requires Shaped(grid) && 1 <= c.x < dim - 1 && 1 <= c.y < dim - 1
      reads grid
    {
      CountTrue(Around(grid, c)) == 0
    }

    /** The eight cells around `c`, in the source's order. */
    function Around(grid: array2<bool>, c: Cell): (r: seq<bool>)
      requires Shaped(grid) && 1 <= c.x < dim - 1 && 1 <= c.y < dim - 1
      reads grid
      ensures |r| == 8
    {
      [grid[c.x - 1, c.y], grid[c.x + 1, c.y], grid[c.x, c.y - 1], grid[c.x, c.y + 1],
       grid[c.x - 1, c.y - 1], grid[c.x + 1, c.y - 1], grid[c.x - 1, c.y + 1], grid[c.x + 1, c.y + 1]]
    }

    /** Every wall of `walls0` is still a wall. */
    ghost predicate WallsKept(grid: array2<bool>, walls0: iset<Cell>)
      requires Shaped(grid)
      reads grid
    {
      forall c :: InBounds(c, dim) && c in walls0 ==> grid[c.x, c.y]
    }

    /** Every wall not in `walls0` is off the border with no wall around it. */
    ghost predicate AddedIsolated(grid: array2<bool>, walls0: iset<Cell>)
      requires Shaped(grid)
      reads grid
    {
      forall c :: InBounds(c, dim) && grid[c.x, c.y] && c !in walls0 ==>
        1 <= c.x < dim - 1 && 1 <= c.y < dim - 1 && Isolated(grid, c)
    }

    /** Makes the isolated cell `(x, y)` a wall; the walls added since
        `walls0` stay isolated, as the new one is around none of them. */
    method PlaceWall(grid: array2<bool>, x: int, y: int, ghost walls0: iset<Cell>)
      requires Shaped(grid) && 1 <= x < dim - 1 && 1 <= y < dim - 1
      requires Isolated(grid, Cell(x, y))
      requires WallsKept(grid, walls0) && AddedIsolated(grid, walls0)
      modifies grid
      ensures WallsKept(grid, walls0) && AddedIsolated(grid, walls0)
      ensures grid[x, y]
    {
      ghost var ring := Around(grid, Cell(x, y));
      assert !ring[0] && !ring[1] && !ring[2] && !ring[3] && !ring[4] && !ring[5] && !ring[6] && !ring[7];
      label Before:
      grid[x, y] := true;
      forall d | InBounds(d, dim) && grid[d.x, d.y] && d !in walls0
        ensures 1 <= d.x < dim - 1 && 1 <= d.y < dim - 1 && Isolated(grid, d)
      {
        if d != Cell(x, y) {
          // `(x, y)` is not around `d`, for then `d`, a wall, would be around `(x, y)`
          assert old@Before(Isolated(grid, d)) && old@Before(grid[d.x, d.y]);
          assert !(-1 <= d.x - x <= 1 && -1 <= d.y - y <= 1);
        }
        assert Around(grid, d) == old@Before(Around(grid, d));
      }
    }

    /** `AddWallsWithConstraints`: `attempts` times, a drawn cell off the
        border with no wall among the eight around it becomes a wall. No
        wall is removed, and every wall added is off the border with no
        wall around it, so no two added walls touch. A map under 3 cells
        wide throws at the first attempt: the draw fails under 2 cells, and
        a 2 by 2 map reads outside the grid. */
    method AddWallsWithConstraints(grid: array2<bool>, attempts: int) returns (r: Outcome)
      requires Shaped(grid)
      modifies grid
      ensures r.Pass? <==> attempts <= 0 || dim >= 3
      ensures r.Throw? ==> r.error == (if dim < 2 then ArgumentOutOfRange else IndexOutOfRange) && unchanged(grid)
      ensures forall c :: InBounds(c, dim) && old(grid[c.x, c.y]) ==> grid[c.x, c.y]
      ensures forall c :: InBounds(c, dim) && grid[c.x, c.y] && !old(grid[c.x, c.y]) ==>
        1 <= c.x < dim - 1 && 1 <= c.y < dim - 1 && Isolated(grid, c)
    {
      ghost var walls0 := iset c: Cell | InBounds(c, dim) && grid[c.x, c.y];
      var i := 0;
      while i < attempts
        invariant i > 0 ==> dim >= 3
        invariant i == 0 ==> unchanged(grid)
        invariant WallsKept(grid, walls0) && AddedIsolated(grid, walls0)
      {
        var rx := Next(1, dim - 1);
        if rx.Fail? {
          return Throw(rx.error);
        }
        var ry := Next(1, dim - 1);
        var x, y := rx.value, ry.value;
        if dim < 3 {
          // on a 2 by 2 map the draw is 1, and `grid[x + 1, y]` is off the grid
          return Throw(IndexOutOfRange);
        }
        var c := CountTrue([grid[x - 1, y], grid[x + 1, y], grid[x, y - 1], grid[x, y + 1],
                            grid[x - 1, y - 1], grid[x + 1, y - 1], grid[x - 1, y + 1], grid[x + 1, y + 1]]);
        if c <= 0 {
          PlaceWall(grid, x, y, walls0);
        }
        i := i + 1;
      }
      return Pass;
    }

    /** The walls of the zone, column by column: every cell of the zone that
        is a wall, each once. */
    method CollectWalls(grid: array2<bool>, z: Zone) returns (walls: seq<Cell>)
      requires Shaped(grid) && !OffMap(z, dim)
      ensures Distinct(walls)
      ensures forall c :: c in walls <==> InBounds(c, dim) && z.Contains(c.x, c.y) && grid[c.x, c.y]
    {
      walls := [];
      var i := z.x;
      while i < z.x + z.width
        invariant i == z.x || z.x <= i <= z.x + z.width
        invariant Distinct(walls)
        invariant forall c :: c in walls <==> InBounds(c, dim) && ScannedBefore(z, c, i, z.y) && grid[c.x, c.y]
      {
        var j := z.y;
        while j < z.y + z.height
          invariant j == z.y || z.y <= j <= z.y + z.height
          invariant Distinct(walls)
          invariant forall c :: c in walls <==> InBounds(c, dim) && ScannedBefore(z, c, i, j) && grid[c.x, c.y]
        {
          if grid[i, j] {
            walls := walls + [Cell(i, j)];
          }
          j := j + 1;
        }
        i := i + 1;
      }
    }

    /** The zone's original walls are `found`, of which `walls` are still
        standing; every other cell is as in `walls0`. */
    ghost predicate Thinned(grid: array2<bool>, walls0: iset<Cell>, found: seq<Cell>, walls: seq<Cell>)
      requires Shaped(grid)
      reads grid
    {
      Distinct(walls) && (forall c :: c in walls ==> c in found) &&
      forall c :: InBounds(c, dim) ==> (grid[c.x, c.y] <==> if c in found then c in walls else c in walls0)
    }

    /** Clears the `k`-th standing wall of the list and drops it. */
    method ClearWall(grid: array2<bool>, ghost walls0: iset<Cell>, ghost found: seq<Cell>, walls: seq<Cell>, k: int)
      returns (rest: seq<Cell>)
      requires Shaped(grid) && Thinned(grid, walls0, found, walls) && 0 <= k < |walls|
      requires forall c :: c in found ==> InBounds(c, dim)
      modifies grid
      ensures Thinned(grid, walls0, found, rest) && rest == RemoveAt(walls, k)
    {
      var w := walls[k];
      grid[w.x, w.y] := false;
      rest := RemoveAt(walls, k);
    }

    /** One zone of `RemoveSomeWallsFromZones`: the zone's walls are found
        in scan order, a share drawn in `[10, 20)` per cent of its area is
        to be kept, and drawn walls are cleared until no more than that
        share stand. Only walls of the zone are cleared, and clearing stops
        at the first count within the share. */
    method ThinZone(grid: array2<bool>, z: Zone) returns (r: Outcome, draw: int, ghost found: seq<Cell>, kept: seq<Cell>)
      requires Shaped(grid)
      modifies grid
      ensures r.Pass? <==> ZoneError(z, dim).None?
      ensures r.Throw? ==> r.error == ZoneError(z, dim).value && unchanged(grid)
      ensures r.Pass? ==> 10 <= draw < 20 && Distinct(found)
      ensures r.Pass? ==> forall c :: c in found <==> InBounds(c, dim) && z.Contains(c.x, c.y) && old(grid[c.x, c.y])
      ensures r.Pass? ==> forall c :: c in kept ==> c in found
      ensures r.Pass? ==> forall c :: InBounds(c, dim) ==>
        (grid[c.x, c.y] <==> if c in found then c in kept else old(grid[c.x, c.y]))
      ensures r.Pass? ==> |kept| as real <= (z.width * z.height * draw) as real / 100.0
      ensures r.Pass? && |kept| < |found| ==> |kept| as real + 1.0 > (z.width * z.height * draw) as real / 100.0
    {
      var d := Next(10, 20);
      draw := d.value;
      var remaining := (z.width * z.height * draw) as real / 100.0;
      if OffMap(z, dim) {
        // the scan reads a cell off the grid
        return Throw(IndexOutOfRange), draw, [], [];
      }
      var walls := CollectWalls(grid, z);
      found := walls;
      if found != [] {
        // a wall was found inside the zone, so its area is positive
        assert z.Contains(found[0].x, found[0].y);
        assert z.width * z.height * draw > 0;
      }
      ghost var walls0 := iset c: Cell | InBounds(c, dim) && grid[c.x, c.y];
      while |walls| as real > remaining
        invariant Thinned(grid, walls0, found, walls)
        invariant |walls| <= |found|
        invariant |walls| < |found| ==> |walls| as real + 1.0 > remaining
        invariant |walls| == |found| ==> unchanged(grid)
        decreases |walls|
      {
        var k := Next(0, |walls|);
        if |walls| == 0 {
          // `walls[0]` on an empty list
          return Throw(ArgumentOutOfRange), draw, found, walls;
        }
        walls := ClearWall(grid, walls0, found, walls, k.value);
      }
      return Pass, draw, found, walls;
    }

    /** `RemoveSomeWallsFromZones`: each zone in turn is thinned as in
        `ThinZone`. The first zone that cannot be scanned stops the run with
        its error; no wall is ever added, and only walls inside a zone are
        cleared. */
    method RemoveSomeWallsFromZones(grid: array2<bool>, zones: seq<Zone>) returns (r: Outcome)
      requires Shaped(grid)
      modifies grid
      ensures r.Pass? <==> forall k :: 0 <= k < |zones| ==> ZoneError(zones[k], dim).None?
      ensures r.Throw? ==> exists k :: 0 <= k < |zones| && ZoneError(zones[k], dim) == Some(r.error) &&
                                       forall q :: 0 <= q < k ==> ZoneError(zones[q], dim).None?
      ensures forall c :: InBounds(c, dim) && !old(grid[c.x, c.y]) ==> !grid[c.x, c.y]
      ensures forall c :: InBounds(c, dim) && old(grid[c.x, c.y]) && !grid[c.x, c.y] ==>
        exists k :: 0 <= k < |zones| && zones[k].Contains(c.x, c.y)
    {
      var i := 0;
      while i < |zones|
        invariant 0 <= i <= |zones|
        invariant forall k :: 0 <= k < i ==> ZoneError(zones[k], dim).None?
        invariant forall c :: InBounds(c, dim) && !old(grid[c.x, c.y]) ==> !grid[c.x, c.y]
        invariant forall c :: InBounds(c, dim) && old(grid[c.x, c.y]) && !grid[c.x, c.y] ==>
          exists k :: 0 <= k < i && zones[k].Contains(c.x, c.y)
      {
        var o, _, _, _ := ThinZone(grid, zones[i]);
        if o.Throw? {
          return o;
        }
        i := i + 1;
      }
      return Pass;
    }
  }
}
