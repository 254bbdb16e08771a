/** Cells of a square map and 4-connectivity, shared by the breadth-first
    searches of the server (the item drop search and the map generator's
    flood fill and path search). */
module LogicCells {

  /** A cell `(x, y)`, the C# `Point` or `(int X, int Y)` pair. */
  datatype Cell = Cell(x: int, y: int)

  /** The four neighbours in the order the searches enqueue them:
      `x + 1`, `x - 1`, `y + 1`, `y - 1`. */
  function Neighbours(c: Cell): (r: seq<Cell>)
    ensures |r| == 4
    ensures forall n :: n in r <==> (n.y == c.y && (n.x == c.x + 1 || n.x == c.x - 1)) ||
                                    (n.x == c.x && (n.y == c.y + 1 || n.y == c.y - 1))
  {
    [Cell(c.x + 1, c.y), Cell(c.x - 1, c.y), Cell(c.x, c.y + 1), Cell(c.x, c.y - 1)]
  }

  /** Adjacency is symmetric. */
  lemma {:induction false} NeighboursSymmetric(a: Cell, b: Cell)
    ensures b in Neighbours(a) <==> a in Neighbours(b)
  {
    var na, nb := Neighbours(a), Neighbours(b);
    if b in na {
      assert a == nb[0] || a == nb[1] || a == nb[2] || a == nb[3];
    }
    if a in nb {
      assert b == na[0] || b == na[1] || b == na[2] || b == na[3];
    }
  }

  /** The cells of a `dim` by `dim` map. */
  predicate InBounds(c: Cell, dim: int) {
    0 <= c.x < dim && 0 <= c.y < dim
  }

  /** One step of a walk. */
  predicate Step(a: Cell, b: Cell) {
    (b.y == a.y && (b.x == a.x + 1 || b.x == a.x - 1)) || (b.x == a.x && (b.y == a.y + 1 || b.y == a.y - 1))
  }

  /** Each cell of `p` is a neighbour of the one before. */
  ghost predicate Walk(p: seq<Cell>) {
    forall i :: 0 <= i < |p| - 1 ==> Step(p[i], p[i + 1])
  }

  /** A walk can start one step earlier. */
  lemma {:induction false} PrependWalk(c: Cell, p: seq<Cell>)
    requires Walk(p) && |p| > 0 && Step(c, p[0])
    ensures Walk([c] + p)
  {
    var q := [c] + p;
    forall i | 0 <= i < |q| - 1 ensures Step(q[i], q[i + 1]) {
      if i > 0 { assert q[i] == p[i - 1] && q[i + 1] == p[i]; }
    }
  }

  /** A walk through `open` cells, each step to a neighbour. */
  ghost predicate IsPath(open: set<Cell>, p: seq<Cell>) {
    |p| >= 1 &&
    (forall i :: 0 <= i < |p| ==> p[i] in open) &&
    (forall i :: 0 <= i < |p| - 1 ==> Step(p[i], p[i + 1]))
  }

  /** A walk through `open` cells leads from `a` to `b`. */
  ghost predicate Connected(open: set<Cell>, a: Cell, b: Cell) {
    exists p :: IsPath(open, p) && p[0] == a && p[|p| - 1] == b
  }

  /** Both ends of a walk are open. */
  lemma {:induction false} ConnectedEndsOpen(open: set<Cell>, a: Cell, b: Cell)
    requires Connected(open, a, b)
    ensures a in open && b in open
  {
    var p :| IsPath(open, p) && p[0] == a && p[|p| - 1] == b;
  }

  /** A walk through some cells is a walk through any larger set. */
  lemma {:induction false} ConnectedGrows(small: set<Cell>, big: set<Cell>, a: Cell, b: Cell)
    requires small <= big && Connected(small, a, b)
    ensures Connected(big, a, b)
  {
    var p :| IsPath(small, p) && p[0] == a && p[|p| - 1] == b;
    assert IsPath(big, p);
  }

  /** The cells listed in a sequence. */
  ghost function Cells(s: seq<Cell>): (r: set<Cell>)
    ensures forall c :: c in r <==> c in s
  {
    set c | c in s
  }

  /** No step leads from `s` to an `open` cell outside `s`. */
  ghost predicate Closed(open: set<Cell>, s: set<Cell>) {
    forall c, n :: c in s && n in Neighbours(c) && n in open ==> n in s
  }

  /** A walk that starts in a closed set never leaves it. */
  lemma {:induction false} ClosedHoldsPath(open: set<Cell>, s: set<Cell>, p: seq<Cell>)
    requires IsPath(open, p) && p[0] in s && Closed(open, s)
    ensures forall i :: 0 <= i < |p| ==> p[i] in s
  {
    var k := 0;
    while k < |p| - 1
      invariant 0 <= k < |p|
      invariant forall i :: 0 <= i <= k ==> p[i] in s
    {
      assert Step(p[k], p[k + 1]) && p[k + 1] in open;
      k := k + 1;
    }
  }

  /** Everything connected to a cell of a closed set is in it. */
  lemma {:induction false} ClosedHoldsConnected(open: set<Cell>, s: set<Cell>, a: Cell, b: Cell)
    requires a in s && Closed(open, s) && Connected(open, a, b)
    ensures b in s
  {
    var p :| IsPath(open, p) && p[0] == a && p[|p| - 1] == b;
    ClosedHoldsPath(open, s, p);
  }

  /** Adding an open cell leaves fewer open cells to add. */
  lemma {:induction false} FewerLeft(open: set<Cell>, seen: set<Cell>, p: Cell)
    requires p in open && p !in seen
    ensures |open - (seen + {p})| < |open - seen|
  {
    assert open - seen == (open - (seen + {p})) + {p};
  }

  /** A walk extended by one step to an open neighbour. */
  lemma {:induction false} ExtendPath(open: set<Cell>, p: seq<Cell>, c: Cell)
    requires IsPath(open, p) && c in open && c in Neighbours(p[|p| - 1])
    ensures IsPath(open, p + [c]) && (p + [c])[0] == p[0] && (p + [c])[|p|] == c
  {
    var q := p + [c];
    assert forall i :: 0 <= i < |p| ==> q[i] == p[i];
    assert forall i :: 0 <= i < |q| ==> q[i] in open by {
      forall i | 0 <= i < |q| ensures q[i] in open {
        if i < |p| { assert q[i] == p[i]; }
      }
    }
    assert forall i :: 0 <= i < |q| - 1 ==> Step(q[i], q[i + 1]) by {
      forall i | 0 <= i < |q| - 1 ensures Step(q[i], q[i + 1]) {
        if i < |p| - 1 { assert q[i] == p[i] && q[i + 1] == p[i + 1]; }
      }
    }
  }
}
