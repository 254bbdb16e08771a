/** The loop state of the breadth-first flood fills of the server (the map
    generator's `FloodFill` and the item drop's `FindDropTileNear`): a queue
    of cells, each dequeued cell added once when it is open, and its four
    neighbours queued after it. */
module LogicFlood {
  import opened LogicCells

  // `open` is the set of cells the fill may add, `seen` what it has added
  // (listed in `area`), `parents[i]` the added cell that queued `queue[i]`.

  /** Every added cell is listed once and reached from the start. */
  ghost predicate AreaOk(open: set<Cell>, start: Cell, area: seq<Cell>, seen: set<Cell>) {
    (forall c :: c in area <==> c in seen) && seen <= open &&
    (forall i, j :: 0 <= i < j < |area| ==> area[i] != area[j]) &&
    (forall c :: c in seen ==> Connected(open, start, c))
  }

  /** Every queued cell is the start or a neighbour of an added cell (its
      parent). */
  ghost predicate QueueOk(start: Cell, seen: set<Cell>, queue: seq<Cell>, parents: seq<Cell>) {
    |parents| == |queue| &&
    forall i :: 0 <= i < |queue| ==> queue[i] == start || (parents[i] in seen && queue[i] in Neighbours(parents[i]))
  }

  /** Every open neighbour of an added cell, and the start, is added or
      still queued. */
  ghost predicate ClosureOk(open: set<Cell>, start: Cell, seen: set<Cell>, queue: seq<Cell>) {
    (forall c, n :: c in seen && n in Neighbours(c) && n in open ==> n in seen || n in queue) &&
    (start in open ==> start in seen || start in queue)
  }

  /** Dequeuing keeps every other queued cell's parent. */
  lemma {:induction false} DequeueKeepsParents(start: Cell, seen: set<Cell>, queue: seq<Cell>, parents: seq<Cell>)
    requires QueueOk(start, seen, queue, parents) && |queue| > 0
    ensures QueueOk(start, seen, queue[1..], parents[1..])
  {
    assert forall i :: 0 <= i < |queue| - 1 ==> queue[1..][i] == queue[i + 1] && parents[1..][i] == parents[i + 1];
  }

  /** Dequeuing a cell that is closed or already added keeps the closure. */
  lemma {:induction false} SkipKeepsClosure(open: set<Cell>, start: Cell, seen: set<Cell>, queue: seq<Cell>)
    requires ClosureOk(open, start, seen, queue) && |queue| > 0 && (queue[0] !in open || queue[0] in seen)
    ensures ClosureOk(open, start, seen, queue[1..])
  {
    var q := queue[1..];
    forall c, n | c in seen && n in Neighbours(c) && n in open ensures n in seen || n in q {
      if n !in seen {
        var i :| 0 <= i < |queue| && queue[i] == n;
        assert i > 0 && q[i - 1] == n;
      }
    }
    if start in open && start !in seen {
      var i :| 0 <= i < |queue| && queue[i] == start;
      assert i > 0 && q[i - 1] == start;
    }
  }

  /** An open cell at the head of the queue is reached from the start. */
  lemma {:induction false} HeadReached(open: set<Cell>, start: Cell, area: seq<Cell>, seen: set<Cell>,
                                       queue: seq<Cell>, parents: seq<Cell>)
    requires AreaOk(open, start, area, seen) && QueueOk(start, seen, queue, parents)
    requires |queue| > 0 && queue[0] in open
    ensures Connected(open, start, queue[0])
  {
    var p := queue[0];
    if p != start {
      var from := parents[0];
      assert from in seen && p in Neighbours(from);
      var w :| IsPath(open, w) && w[0] == start && w[|w| - 1] == from;
      ExtendPath(open, w, p);
    } else {
      assert IsPath(open, [start]);
    }
  }

  /** Adding a reached open cell keeps the area's state and leaves fewer
      open cells to add. */
  lemma {:induction false} AddKeepsArea(open: set<Cell>, start: Cell, area: seq<Cell>, seen: set<Cell>, p: Cell)
    requires AreaOk(open, start, area, seen) && p in open && p !in seen && Connected(open, start, p)
    ensures AreaOk(open, start, area + [p], seen + {p})
    ensures |open - (seen + {p})| < |open - seen|
  {
    var a := area + [p];
    forall c | c in a ensures c in seen + {p} {
      if c != p { assert c in area; }
    }
    forall i, j | 0 <= i < j < |a| ensures a[i] != a[j] {
      if j < |area| { assert a[i] == area[i] && a[j] == area[j]; }
      else { assert a[i] == area[i] && area[i] in seen; }
    }
    FewerLeft(open, seen, p);
  }

  /** Queueing the four neighbours of the added head keeps every queued
      cell's parent. */
  lemma {:induction false} AddKeepsParents(start: Cell, seen: set<Cell>, queue: seq<Cell>, parents: seq<Cell>)
    requires QueueOk(start, seen, queue, parents) && |queue| > 0
    ensures var p := queue[0];
      QueueOk(start, seen + {p}, queue[1..] + Neighbours(p), parents[1..] + [p, p, p, p])
  {
    var p := queue[0];
    var q, ps := queue[1..] + Neighbours(p), parents[1..] + [p, p, p, p];
    forall i | 0 <= i < |q| ensures q[i] == start || (ps[i] in seen + {p} && q[i] in Neighbours(ps[i])) {
      if i < |queue| - 1 {
        assert q[i] == queue[i + 1] && ps[i] == parents[i + 1];
      } else {
        assert q[i] == Neighbours(p)[i - |queue| + 1] && ps[i] == p;
      }
    }
  }

  /** Adding the head and queueing its four neighbours keeps the closure. */
  lemma {:induction false} AddKeepsClosure(open: set<Cell>, start: Cell, seen: set<Cell>, queue: seq<Cell>)
    requires ClosureOk(open, start, seen, queue) && |queue| > 0
    ensures var p := queue[0];
      ClosureOk(open, start, seen + {p}, queue[1..] + Neighbours(p))
  {
    var p := queue[0];
    var q := queue[1..] + Neighbours(p);
    forall c, n | c in seen + {p} && n in Neighbours(c) && n in open ensures n in seen + {p} || n in q {
      if c == p {
        var k :| 0 <= k < 4 && Neighbours(p)[k] == n;
        assert q[|queue| - 1 + k] == n;
      } else if n !in seen + {p} {
        var i :| 0 <= i < |queue| && queue[i] == n;
        assert i > 0 && q[i - 1] == n;
      }
    }
    if start in open && start !in seen + {p} {
      var i :| 0 <= i < |queue| && queue[i] == start;
      assert i > 0 && q[i - 1] == start;
    }
  }

  /** The first cell added is the start, and until then the start is the
      only queued cell. */
  ghost predicate StartFirst(open: set<Cell>, start: Cell, area: seq<Cell>, queue: seq<Cell>) {
    start in open ==> (area == [] ==> queue == [start]) && (area != [] ==> area[0] == start)
  }

  /** The cells of an array marked `true` are those marked `before` and
      those added since. */
  ghost predicate Tracks(visited: array2<bool>, before: set<Cell>, seen: set<Cell>)
    reads visited
  {
    forall c: Cell :: 0 <= c.x < visited.Length0 && 0 <= c.y < visited.Length1 ==>
      (visited[c.x, c.y] <==> c in before || c in seen)
  }

  /** Marks one cell of the array. */
  method Mark(visited: array2<bool>, ghost before: set<Cell>, ghost seen: set<Cell>, p: Cell)
    requires 0 <= p.x < visited.Length0 && 0 <= p.y < visited.Length1 && Tracks(visited, before, seen)
    modifies visited
    ensures Tracks(visited, before, seen + {p})
  {
    visited[p.x, p.y] := true;
  }
}
