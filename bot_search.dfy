/** The bot's breadth-first search over oriented positions (`Bot::bfs`):
    every state is a cell and a facing, every tick one of the four actions
    of `ALL_ACTIONS`, and a goal predicate on (state, elapsed ticks) says
    where to stop. */
module BotSearch {
  import opened Wrappers
  import opened BotPackets
  import opened BotGeometry

  /** The grid the search runs on: its size, and which cells it may enter
      (no wall, no live mine, no bullet trajectory, as the caller decides). */
  datatype Arena = Arena(dim: nat, open: Pos -> bool)

  /** A state the search may step into. */
  predicate Enterable(ar: Arena, v: OPos) {
    IsValid(v.pos, ar.dim) && ar.open(v.pos)
  }

  /** One tick of the search: one of the four actions, into an enterable state. */
  predicate Edge(ar: Arena, u: OPos, v: OPos) {
    Enterable(ar, v) &&
    (v == AfterMove(u, MoveAct(Forward)) || v == AfterMove(u, MoveAct(Backward)) ||
     v == AfterMove(u, RotAct(RotLeft)) || v == AfterMove(u, RotAct(RotRight)))
  }

  /** A sequence of states from `start`, each reached from the previous one
      in one tick. */
  ghost predicate IsWalk(ar: Arena, start: OPos, w: seq<OPos>) {
    |w| >= 1 && w[0] == start && Chain(ar, w)
  }

  /** Each state of `w` is one tick after the previous one. */
  ghost predicate Chain(ar: Arena, w: seq<OPos>) {
    forall i :: 0 <= i < |w| - 1 ==> Edge(ar, w[i], w[i + 1])
  }

  lemma {:induction false} ChainCons(ar: Arena, u: OPos, w: seq<OPos>)
    requires Chain(ar, w) && |w| >= 1 && Edge(ar, u, w[0])
    ensures Chain(ar, [u] + w)
  {
    var w' := [u] + w;
    forall i | 0 <= i < |w'| - 1 ensures Edge(ar, w'[i], w'[i + 1]) {
      if i > 0 {
        assert w'[i] == w[i - 1] && w'[i + 1] == w[i];
      }
    }
  }

  lemma {:induction false} ChainSnoc(ar: Arena, w: seq<OPos>, v: OPos)
    requires Chain(ar, w) && |w| >= 1 && Edge(ar, w[|w| - 1], v)
    ensures Chain(ar, w + [v])
  {
    var w' := w + [v];
    forall i | 0 <= i < |w'| - 1 ensures Edge(ar, w'[i], w'[i + 1]) {
      if i < |w| - 1 {
        assert w'[i] == w[i] && w'[i + 1] == w[i + 1];
      }
    }
  }

  /** `s` can be reached from `start` in exactly `k` ticks: it is the start,
      or one tick after a state reached in `k - 1`. */
  ghost predicate Reach(ar: Arena, start: OPos, s: OPos, k: nat)
    decreases k
  {
    if k == 0 then s == start
    else exists p :: Reach(ar, start, p, k - 1) && Edge(ar, p, s)
  }

  /** `k` is the fewest ticks in which `s` can be reached from `start`. */
  ghost predicate Dist(ar: Arena, start: OPos, s: OPos, k: nat) {
    Reach(ar, start, s, k) && forall j :: 0 <= j < k ==> !Reach(ar, start, s, j)
  }

  /** No reachable state is accepted at its distance. */
  ghost predicate NoneAccepted(ar: Arena, start: OPos, goal: (OPos, int) -> bool) {
    forall s, k: nat :: Dist(ar, start, s, k) ==> !goal(s, k)
  }

  /** Every valid state of a `dim` x `dim` grid. */
  ghost function AllStates(dim: nat): set<OPos> {
    set x: int, y: int, d: Direction | 0 <= x < dim && 0 <= y < dim && d in {Up, Right, Down, Left} :: OPos(Pos(x, y), d)
  }

  /** `BfsResult`: the first action, the accepted state and the ticks to it. */
  datatype BfsResult = BfsResult(move: Action, finalPos: OPos, eta: int)

  // ---------------------------------------------------------------------
  // Walks

  lemma {:induction false} ReachStart(ar: Arena, start: OPos)
    ensures Reach(ar, start, start, 0)
  {
  }

  lemma {:induction false} ReachZero(ar: Arena, start: OPos, s: OPos)
    requires Reach(ar, start, s, 0)
    ensures s == start
  {
  }

  lemma {:induction false} ReachStep(ar: Arena, start: OPos, s: OPos, k: nat, v: OPos)
    requires Reach(ar, start, s, k) && Edge(ar, s, v)
    ensures Reach(ar, start, v, k + 1)
  {
  }

  /** A state reached in `k > 0` ticks comes from one reached a tick earlier. */
  lemma {:induction false} ReachPred(ar: Arena, start: OPos, s: OPos, k: nat) returns (p: OPos)
    requires Reach(ar, start, s, k) && k > 0
    ensures Reach(ar, start, p, k - 1) && Edge(ar, p, s)
  {
    p :| Reach(ar, start, p, k - 1) && Edge(ar, p, s);
  }

  /** Every walk reaches its last state in as many ticks as it has steps. */
  lemma {:induction false} WalkReaches(ar: Arena, start: OPos, w: seq<OPos>)
    requires IsWalk(ar, start, w)
    ensures Reach(ar, start, w[|w| - 1], |w| - 1)
    decreases |w|
  {
    if |w| > 1 {
      var w' := w[..|w| - 1];
      assert IsWalk(ar, start, w');
      WalkReaches(ar, start, w');
      assert Edge(ar, w'[|w'| - 1], w[|w| - 1]);
      ReachStep(ar, start, w'[|w'| - 1], |w'| - 1, w[|w| - 1]);
    }
  }

  /** Every state reached in `k` ticks ends a walk of `k` steps. */
  lemma {:induction false} ReachHasWalk(ar: Arena, start: OPos, s: OPos, k: nat) returns (w: seq<OPos>)
    requires Reach(ar, start, s, k)
    ensures IsWalk(ar, start, w) && |w| == k + 1 && w[k] == s
    decreases k
  {
    if k == 0 {
      w := [start];
    } else {
      var p := ReachPred(ar, start, s, k);
      var w' := ReachHasWalk(ar, start, p, k - 1);
      ChainSnoc(ar, w', s);
      w := w' + [s];
    }
  }

  /** A set that holds `start` and is closed under ticks holds every
      reachable state. */
  lemma {:induction false} ClosedReach(ar: Arena, start: OPos, c: set<OPos>, s: OPos, k: nat)
    requires start in c
    requires forall u, v :: u in c && Edge(ar, u, v) ==> v in c
    requires Reach(ar, start, s, k)
    ensures s in c
    decreases k
  {
    if k == 0 {
      ReachZero(ar, start, s);
    } else {
      var p := ReachPred(ar, start, s, k);
      ClosedReach(ar, start, c, p, k - 1);
    }
  }

  // ---------------------------------------------------------------------
  // The search's invariant, stated over its state

  /** The states in the queue. */
  ghost function Queued(q: seq<(OPos, int)>): set<OPos> {
    set i | 0 <= i < |q| :: q[i].0
  }

  /** The bookkeeping of the search: `visited` is the processed states, the
      queued ones and the `held` one being expanded, each with its depth `d`;
      the queue holds each state once, is sorted and spans at most the depths
      `lvl` and `lvl + 1`. */
  ghost predicate Books(start: OPos, q: seq<(OPos, int)>, visited: set<OPos>, processed: set<OPos>,
                        d: map<OPos, int>, lvl: nat, held: set<OPos>)
  {
    d.Keys == visited && start in visited && d[start] == 0 &&
    processed <= visited && held <= visited && processed !! held &&
    (forall i :: 0 <= i < |q| ==> q[i].0 in visited && d[q[i].0] == q[i].1 && q[i].0 !in processed && q[i].0 !in held) &&
    (forall i, j :: 0 <= i < j < |q| ==> q[i].0 != q[j].0) &&
    (forall s :: s in visited ==> s in processed || s in Queued(q) || s in held) &&
    (forall i :: 0 <= i < |q| ==> lvl <= q[i].1 <= lvl + 1) &&
    (forall i, j :: 0 <= i < j < |q| ==> q[i].1 <= q[j].1) &&
    (forall s :: s in held ==> d[s] == lvl)
  }

  /** Every depth is the length of some walk. */
  ghost predicate Sound(ar: Arena, start: OPos, visited: set<OPos>, d: map<OPos, int>) {
    forall s :: s in visited ==> s in d && d[s] >= 0 && Reach(ar, start, s, d[s])
  }

  /** No walk is shorter than a recorded depth. */
  ghost predicate Minimal(ar: Arena, start: OPos, visited: set<OPos>, d: map<OPos, int>) {
    forall s, k: nat :: s in visited && s in d && Reach(ar, start, s, k) ==> d[s] <= k
  }

  /** Every state closer than `lvl` is processed. */
  ghost predicate Below(ar: Arena, start: OPos, processed: set<OPos>, lvl: nat) {
    forall s, k: nat :: Reach(ar, start, s, k) && k < lvl ==> s in processed
  }

  /** Every successor of a processed state is visited. */
  ghost predicate Closed(ar: Arena, processed: set<OPos>, visited: set<OPos>) {
    forall u, v :: u in processed && Edge(ar, u, v) ==> v in visited
  }

  /** No processed state is accepted at its depth. */
  ghost predicate Rejected(goal: (OPos, int) -> bool, processed: set<OPos>, d: map<OPos, int>) {
    forall s :: s in processed && s in d ==> !goal(s, d[s])
  }

  /** What holds of the search state between steps. */
  ghost predicate Search(ar: Arena, start: OPos, goal: (OPos, int) -> bool, q: seq<(OPos, int)>,
                         visited: set<OPos>, processed: set<OPos>, d: map<OPos, int>, lvl: nat, held: set<OPos>)
  {
    visited <= AllStates(ar.dim) &&
    Books(start, q, visited, processed, d, lvl, held) &&
    Sound(ar, start, visited, d) && Minimal(ar, start, visited, d) &&
    Below(ar, start, processed, lvl) && Closed(ar, processed, visited) &&
    Rejected(goal, processed, d)
  }

  /** The back-pointers: every visited state but the start names the action
      that leads one tick back towards the start. */
  ghost predicate Tree(ar: Arena, start: OPos, visited: set<OPos>, from: map<OPos, Action>, d: map<OPos, int>) {
    d.Keys == visited && start !in from &&
    forall v {:trigger BackLink(ar, visited, from, d, v)} :: v in visited && v != start ==> BackLink(ar, visited, from, d, v)
  }

  ghost predicate BackLink(ar: Arena, visited: set<OPos>, from: map<OPos, Action>, d: map<OPos, int>, v: OPos)
    requires d.Keys == visited && v in visited
  {
    v in from && Performable(from[v]) && AfterMove(v, from[v]) in visited &&
    d[AfterMove(v, from[v])] == d[v] - 1 && Edge(ar, AfterMove(v, from[v]), v)
  }

  lemma {:induction false} InGrid(v: OPos, dim: nat)
    requires IsValid(v.pos, dim)
    ensures v in AllStates(dim)
  {
    var d := v.dir;
    assert d in {Up, Right, Down, Left} by {
      match d
      case Up =>
      case Right =>
      case Down =>
      case Left =>
    }
    assert v == OPos(Pos(v.pos.x, v.pos.y), d);
  }

  lemma {:induction false} SearchInit(ar: Arena, start: OPos, goal: (OPos, int) -> bool)
    requires IsValid(start.pos, ar.dim)
    ensures Search(ar, start, goal, [(start, 0)], {start}, {}, map[start := 0], 0, {})
  {
    ReachStart(ar, start);
    InGrid(start, ar.dim);
    assert Queued([(start, 0)]) == {start} by { assert [(start, 0)][0].0 == start; }
  }

  /** When the head of the queue is one level deeper than `lvl`, every state
      at distance `lvl` has already been processed. */
  lemma {:induction false} LevelUp(ar: Arena, start: OPos, goal: (OPos, int) -> bool, q: seq<(OPos, int)>, visited: set<OPos>,
                processed: set<OPos>, d: map<OPos, int>, lvl: nat)
    requires Search(ar, start, goal, q, visited, processed, d, lvl, {})
    requires |q| > 0 && q[0].1 == lvl + 1
    ensures Search(ar, start, goal, q, visited, processed, d, lvl + 1, {})
  {
    assert forall i :: 0 <= i < |q| ==> q[i].1 == lvl + 1 by {
      forall i | 0 <= i < |q| ensures q[i].1 == lvl + 1 {
        if i > 0 { assert q[0].1 <= q[i].1; }
      }
    }
    forall s, k: nat | Reach(ar, start, s, k) && k < lvl + 1
      ensures s in processed
    {
      if k == lvl {
        if k == 0 {
          ReachZero(ar, start, s);
        } else {
          var p := ReachPred(ar, start, s, k);
          assert p in processed;
        }
        assert s in visited && d[s] <= k;
        assert s !in Queued(q);
      }
    }
  }

  /** Dequeuing the head, at depth `lvl`, holds it aside for expansion. */
  lemma {:induction false} Pop(ar: Arena, start: OPos, goal: (OPos, int) -> bool, q: seq<(OPos, int)>, visited: set<OPos>,
            processed: set<OPos>, d: map<OPos, int>, lvl: nat)
    requires Search(ar, start, goal, q, visited, processed, d, lvl, {})
    requires |q| > 0 && q[0].1 == lvl
    ensures Search(ar, start, goal, q[1..], visited, processed, d, lvl, {q[0].0})
  {
    PopBooks(start, q, visited, processed, d, lvl);
  }

  lemma {:induction false} PopBooks(start: OPos, q: seq<(OPos, int)>, visited: set<OPos>, processed: set<OPos>,
                 d: map<OPos, int>, lvl: nat)
    requires Books(start, q, visited, processed, d, lvl, {})
    requires |q| > 0 && q[0].1 == lvl
    ensures Books(start, q[1..], visited, processed, d, lvl, {q[0].0})
  {
    var q' := q[1..];
    forall s | s in visited ensures s in processed || s in Queued(q') || s in {q[0].0} {
      if s !in processed && s != q[0].0 {
        assert s in Queued(q);
        var i :| 0 <= i < |q| && q[i].0 == s;
        assert q'[i - 1].0 == s;
      }
    }
  }

  /** An unvisited successor of a state closer than `lvl + 1` lies at least
      `lvl + 1` ticks away. */
  lemma {:induction false} NewIsFar(ar: Arena, start: OPos, visited: set<OPos>, processed: set<OPos>, lvl: nat, v: OPos)
    requires start in visited && processed <= visited
    requires Below(ar, start, processed, lvl) && Closed(ar, processed, visited)
    requires v !in visited
    ensures forall k: nat :: Reach(ar, start, v, k) ==> lvl + 1 <= k
  {
    forall k: nat | Reach(ar, start, v, k) ensures lvl + 1 <= k {
      if k == 0 {
        ReachZero(ar, start, v);
      } else {
        var p := ReachPred(ar, start, v, k);
      }
    }
  }

  lemma {:induction false} PushBooks(start: OPos, q: seq<(OPos, int)>, visited: set<OPos>, processed: set<OPos>,
                  d: map<OPos, int>, lvl: nat, pos: OPos, v: OPos)
    requires Books(start, q, visited, processed, d, lvl, {pos})
    requires v !in visited
    ensures Books(start, q + [(v, lvl + 1)], visited + {v}, processed, d[v := lvl + 1], lvl, {pos})
  {
    var q' := q + [(v, lvl + 1)];
    forall s | s in visited + {v} ensures s in processed || s in Queued(q') || s in {pos} {
      if s == v {
        assert q'[|q|].0 == v;
      } else if s !in processed && s != pos {
        assert s in Queued(q);
        var i :| 0 <= i < |q| && q[i].0 == s;
        assert q'[i].0 == s;
      }
    }
  }

  lemma {:induction false} PushSound(ar: Arena, start: OPos, visited: set<OPos>, d: map<OPos, int>, v: OPos, n: nat)
    requires Sound(ar, start, visited, d) && Reach(ar, start, v, n)
    ensures Sound(ar, start, visited + {v}, d[v := n])
  {
  }

  lemma {:induction false} PushMinimal(ar: Arena, start: OPos, visited: set<OPos>, d: map<OPos, int>, v: OPos, n: nat)
    requires Minimal(ar, start, visited, d)
    requires forall k: nat :: Reach(ar, start, v, k) ==> n <= k
    ensures Minimal(ar, start, visited + {v}, d[v := n])
  {
  }

  /** Enqueuing an unvisited successor of the held state at depth `lvl + 1`. */
  lemma {:induction false} Push(ar: Arena, start: OPos, goal: (OPos, int) -> bool, q: seq<(OPos, int)>, visited: set<OPos>,
             processed: set<OPos>, d: map<OPos, int>, lvl: nat, pos: OPos, v: OPos)
    requires Search(ar, start, goal, q, visited, processed, d, lvl, {pos})
    requires Edge(ar, pos, v) && v !in visited
    ensures Search(ar, start, goal, q + [(v, lvl + 1)], visited + {v}, processed, d[v := lvl + 1], lvl, {pos})
  {
    InGrid(v, ar.dim);
    ReachStep(ar, start, pos, lvl, v);
    NewIsFar(ar, start, visited, processed, lvl, v);
    PushBooks(start, q, visited, processed, d, lvl, pos, v);
    PushSound(ar, start, visited, d, v, lvl + 1);
    PushMinimal(ar, start, visited, d, v, lvl + 1);
    PushClosed(ar, processed, visited, v);
    PushRejected(goal, processed, d, v, lvl + 1);
  }

  lemma {:induction false} PushClosed(ar: Arena, processed: set<OPos>, visited: set<OPos>, v: OPos)
    requires Closed(ar, processed, visited)
    ensures Closed(ar, processed, visited + {v})
  {
  }

  lemma {:induction false} PushRejected(goal: (OPos, int) -> bool, processed: set<OPos>, d: map<OPos, int>, v: OPos, n: int)
    requires Rejected(goal, processed, d) && v !in processed
    ensures Rejected(goal, processed, d[v := n])
  {
  }

  /** Once every successor of the held state is visited, it is processed. */
  lemma {:induction false} Close(ar: Arena, start: OPos, goal: (OPos, int) -> bool, q: seq<(OPos, int)>, visited: set<OPos>,
              processed: set<OPos>, d: map<OPos, int>, lvl: nat, pos: OPos)
    requires Search(ar, start, goal, q, visited, processed, d, lvl, {pos})
    requires forall v :: Edge(ar, pos, v) ==> v in visited
    requires !goal(pos, lvl)
    ensures Search(ar, start, goal, q, visited, processed + {pos}, d, lvl, {})
  {
    assert pos in visited && d[pos] == lvl;
  }

  /** A visited state's depth is its distance. */
  lemma {:induction false} DepthIsDist(ar: Arena, start: OPos, visited: set<OPos>, d: map<OPos, int>, s: OPos, k: nat)
    requires Sound(ar, start, visited, d) && Minimal(ar, start, visited, d)
    requires s in visited && Dist(ar, start, s, k)
    ensures d[s] == k
  {
  }

  /** An enterable successor joins the back-pointers with the reverse of the
      action that reached it. */
  lemma {:induction false} TreePush(ar: Arena, start: OPos, visited: set<OPos>, from: map<OPos, Action>, d: map<OPos, int>,
                 pos: OPos, move: Action, v: OPos)
    requires Tree(ar, start, visited, from, d)
    requires pos in visited && Performable(move) && v == AfterMove(pos, move) && Edge(ar, pos, v)
    requires v !in visited && v != start
    ensures Tree(ar, start, visited + {v}, from[v := Reversed(move)], d[v := d[pos] + 1])
  {
    var visited', from', d' := visited + {v}, from[v := Reversed(move)], d[v := d[pos] + 1];
    AfterMoveReversed(pos, move);
    forall u | u in visited' && u != start ensures BackLink(ar, visited', from', d', u) {
      if u != v {
        assert BackLink(ar, visited, from, d, u);
      }
    }
  }

  /** The four actions of `ALL_ACTIONS` are the only ways to take a tick. */
  lemma {:induction false} EdgesAreActions(ar: Arena, pos: OPos, v: OPos)
    requires Edge(ar, pos, v)
    ensures exists i :: 0 <= i < 4 && v == AfterMove(pos, AllActions[i])
  {
    assert AllActions[0] == MoveAct(Forward) && AllActions[1] == MoveAct(Backward);
    assert AllActions[2] == RotAct(RotLeft) && AllActions[3] == RotAct(RotRight);
  }

  /** The state `a` leads to from `pos` is visited, or cannot be entered. */
  ghost predicate Handled(ar: Arena, pos: OPos, visited: set<OPos>, a: Action) {
    Performable(a) && (AfterMove(pos, a) in visited || !Enterable(ar, AfterMove(pos, a)))
  }

  lemma {:induction false} HandledGrows(ar: Arena, pos: OPos, visited: set<OPos>, visited': set<OPos>, n: nat)
    requires visited <= visited' && n <= 4
    requires forall j :: 0 <= j < n ==> Handled(ar, pos, visited, AllActions[j])
    ensures forall j :: 0 <= j < n ==> Handled(ar, pos, visited', AllActions[j])
  {
  }

  lemma {:induction false} HandledNext(ar: Arena, pos: OPos, visited: set<OPos>, n: nat)
    requires n < 4
    requires forall j :: 0 <= j < n ==> Handled(ar, pos, visited, AllActions[j])
    requires Handled(ar, pos, visited, AllActions[n])
    ensures forall j :: 0 <= j < n + 1 ==> Handled(ar, pos, visited, AllActions[j])
  {
  }

  /** Once all four actions are handled, every successor is visited. */
  lemma {:induction false} AllHandled(ar: Arena, pos: OPos, visited: set<OPos>)
    requires forall j :: 0 <= j < 4 ==> Handled(ar, pos, visited, AllActions[j])
    ensures forall v :: Edge(ar, pos, v) ==> v in visited
  {
    forall v | Edge(ar, pos, v) ensures v in visited {
      EdgesAreActions(ar, pos, v);
      var j :| 0 <= j < 4 && v == AfterMove(pos, AllActions[j]);
      assert Handled(ar, pos, visited, AllActions[j]);
    }
  }

  /** The search state while the held state `pos` is expanded, with the
      first `n` actions handled. */
  ghost predicate Expanding(ar: Arena, start: OPos, goal: (OPos, int) -> bool, q: seq<(OPos, int)>,
                            visited: set<OPos>, from: map<OPos, Action>,
                            processed: set<OPos>, d: map<OPos, int>, lvl: nat, pos: OPos, n: nat)
  {
    Search(ar, start, goal, q, visited, processed, d, lvl, {pos}) && Tree(ar, start, visited, from, d) &&
    n <= 4 &&
    forall j :: 0 <= j < n ==> Handled(ar, pos, visited, AllActions[j])
  }

  /** An action whose state is off the grid, closed or visited changes nothing. */
  lemma {:induction false} VisitOld(ar: Arena, start: OPos, goal: (OPos, int) -> bool, q: seq<(OPos, int)>,
                 visited: set<OPos>, from: map<OPos, Action>,
                 processed: set<OPos>, d: map<OPos, int>, lvl: nat, pos: OPos, i: nat)
    requires Expanding(ar, start, goal, q, visited, from, processed, d, lvl, pos, i) && i < 4
    requires Performable(AllActions[i])
    requires !Enterable(ar, AfterMove(pos, AllActions[i])) || AfterMove(pos, AllActions[i]) in visited
    ensures Expanding(ar, start, goal, q, visited, from, processed, d, lvl, pos, i + 1)
  {
    HandledNext(ar, pos, visited, i);
  }

  /** An action whose state is on the grid, open and unvisited adds it. */
  lemma {:induction false} VisitNew(ar: Arena, start: OPos, goal: (OPos, int) -> bool, q: seq<(OPos, int)>,
                 visited: set<OPos>, from: map<OPos, Action>,
                 processed: set<OPos>, d: map<OPos, int>, lvl: nat, pos: OPos, i: nat, v: OPos)
    requires Expanding(ar, start, goal, q, visited, from, processed, d, lvl, pos, i) && i < 4
    requires Performable(AllActions[i]) && v == AfterMove(pos, AllActions[i])
    requires Enterable(ar, v) && v !in visited
    ensures Expanding(ar, start, goal, q + [(v, lvl + 1)], visited + {v}, from[v := Reversed(AllActions[i])],
                      processed, d[v := lvl + 1], lvl, pos, i + 1)
    ensures |visited + {v}| == |visited| + 1
  {
    var move := AllActions[i];
    assert Edge(ar, pos, v) by {
      assert AllActions[0] == MoveAct(Forward) && AllActions[1] == MoveAct(Backward);
      assert AllActions[2] == RotAct(RotLeft) && AllActions[3] == RotAct(RotRight);
    }
    Push(ar, start, goal, q, visited, processed, d, lvl, pos, v);
    assert pos in visited && d[pos] == lvl;
    TreePush(ar, start, visited, from, d, pos, move, v);
    HandledGrows(ar, pos, visited, visited + {v}, i);
    HandledNext(ar, pos, visited + {v}, i);
  }

  lemma {:induction false} ActionPerformable(i: nat)
    requires i < 4
    ensures Performable(AllActions[i])
  {
    assert AllActions[0] == MoveAct(Forward) && AllActions[1] == MoveAct(Backward);
    assert AllActions[2] == RotAct(RotLeft) && AllActions[3] == RotAct(RotRight);
  }

  lemma {:induction false} StartExpanding(ar: Arena, start: OPos, goal: (OPos, int) -> bool, q: seq<(OPos, int)>,
                       visited: set<OPos>, from: map<OPos, Action>,
                       processed: set<OPos>, d: map<OPos, int>, lvl: nat, pos: OPos)
    requires Search(ar, start, goal, q, visited, processed, d, lvl, {pos}) && Tree(ar, start, visited, from, d)
    ensures Expanding(ar, start, goal, q, visited, from, processed, d, lvl, pos, 0)
  {
  }

  /** With all four actions handled, every successor of `pos` is visited. */
  lemma {:induction false} Expanded(ar: Arena, start: OPos, goal: (OPos, int) -> bool, q: seq<(OPos, int)>,
                 visited: set<OPos>, from: map<OPos, Action>,
                 processed: set<OPos>, d: map<OPos, int>, lvl: nat, pos: OPos)
    requires Expanding(ar, start, goal, q, visited, from, processed, d, lvl, pos, 4)
    ensures Search(ar, start, goal, q, visited, processed, d, lvl, {pos}) && Tree(ar, start, visited, from, d)
    ensures forall v :: Edge(ar, pos, v) ==> v in visited
  {
    AllHandled(ar, pos, visited);
  }

  /** The inner loop of `Bot::bfs`: every action from the dequeued state
      `pos` whose result is on the grid, open and unvisited marks that state
      visited, records the reverse action to come back, and enqueues it one
      tick later. */
  method Expand(ar: Arena, start: OPos, ghost goal: (OPos, int) -> bool,
                q0: seq<(OPos, int)>, visited0: set<OPos>, from0: map<OPos, Action>,
                ghost processed: set<OPos>, ghost d0: map<OPos, int>,
                ghost lvl: nat, pos: OPos, timer: int)
    returns (q: seq<(OPos, int)>, visited: set<OPos>, from: map<OPos, Action>, ghost d: map<OPos, int>)
    requires Expanding(ar, start, goal, q0, visited0, from0, processed, d0, lvl, pos, 0)
    requires timer == lvl
    ensures Expanding(ar, start, goal, q, visited, from, processed, d, lvl, pos, 4)
    ensures |visited| >= |visited0| && |visited| - |visited0| == |q| - |q0|
  {
    q, visited, from, d := q0, visited0, from0, d0;
    for i := 0 to 4
      invariant Expanding(ar, start, goal, q, visited, from, processed, d, lvl, pos, i)
      invariant |visited| >= |visited0| && |visited| - |visited0| == |q| - |q0|
    {
      var move := AllActions[i];
      ActionPerformable(i);
      var nextPos := AfterMove(pos, move);
      // on the grid; then wall type, live mine and bullet trajectory, as the
      // arena says; then not yet visited
      if IsValid(nextPos.pos, ar.dim) && ar.open(nextPos.pos) && nextPos !in visited {
        VisitNew(ar, start, goal, q, visited, from, processed, d, lvl, pos, i, nextPos);
        visited := visited + {nextPos};
        from := from[nextPos := Reversed(move)];
        q := q + [(nextPos, timer + 1)];
        d := d[nextPos := timer + 1];
      } else {
        VisitOld(ar, start, goal, q, visited, from, processed, d, lvl, pos, i);
      }
    }
  }

  /** The path reconstruction of `Bot::bfs`: from `finish`, follow the
      back-pointers to the start; the last one followed, reversed, is the
      first action of the path. */
  method TraceBack(ar: Arena, start: OPos, visited: set<OPos>, from: map<OPos, Action>,
                   ghost d: map<OPos, int>, finish: OPos)
    returns (lastMove: Action, ghost sfx: seq<OPos>)
    requires Tree(ar, start, visited, from, d)
    requires start in visited && finish in visited && d[start] == 0
    requires forall s :: s in visited ==> d[s] >= 0
    ensures Performable(lastMove)
    ensures finish == start ==> lastMove == MoveAct(Forward)
    ensures |sfx| == d[finish] + 1 && sfx[0] == start && sfx[|sfx| - 1] == finish
    ensures Chain(ar, sfx)
    ensures |sfx| >= 2 ==> AfterMove(sfx[1], lastMove) == start
  {
    var cur := finish;
    lastMove := if cur in from then from[cur] else MoveAct(Forward);
    sfx := [finish];
    if finish != start {
      assert BackLink(ar, visited, from, d, finish);
    }
    while cur != start
      invariant cur in visited && d[cur] >= 0
      invariant |sfx| == d[finish] - d[cur] + 1 && sfx[0] == cur && sfx[|sfx| - 1] == finish
      invariant Chain(ar, sfx)
      invariant Performable(lastMove)
      invariant |sfx| >= 2 ==> AfterMove(sfx[1], lastMove) == sfx[0]
      invariant cur == finish ==> lastMove == (if finish in from then from[finish] else MoveAct(Forward))
      decreases d[cur]
    {
      assert BackLink(ar, visited, from, d, cur);
      lastMove := from[cur];
      var prev := AfterMove(cur, lastMove);
      ChainCons(ar, prev, sfx);
      sfx := [prev] + sfx;
      cur := prev;
    }
  }

  lemma {:induction false} SubsetCard(a: set<OPos>, b: set<OPos>)
    requires a <= b
    ensures |a| <= |b|
  {
    assert b == a + (b - a) && a * (b - a) == {};
  }

  /** An empty queue with nothing accepted: no reachable state is accepted
      at its distance. */
  lemma {:induction false} Exhausted(ar: Arena, start: OPos, goal: (OPos, int) -> bool, visited: set<OPos>,
                  processed: set<OPos>, d: map<OPos, int>, lvl: nat)
    requires Search(ar, start, goal, [], visited, processed, d, lvl, {})
    ensures forall s, k: nat :: Dist(ar, start, s, k) ==> !goal(s, k)
  {
    forall s, k: nat | Dist(ar, start, s, k) ensures !goal(s, k) {
      ClosedReach(ar, start, processed, s, k);
      DepthIsDist(ar, start, visited, d, s, k);
    }
  }

  /** The held state, at depth `lvl`, is at its distance, and every state
      nearer than it has been rejected. */
  lemma {:induction false} Nearest(ar: Arena, start: OPos, goal: (OPos, int) -> bool, q: seq<(OPos, int)>, visited: set<OPos>,
                processed: set<OPos>, d: map<OPos, int>, lvl: nat, finish: OPos)
    requires Search(ar, start, goal, q, visited, processed, d, lvl, {finish})
    ensures finish in visited && d[finish] == lvl && Dist(ar, start, finish, lvl)
    ensures forall s, k: nat :: Dist(ar, start, s, k) && k < lvl ==> !goal(s, k)
  {
    forall s, k: nat | Dist(ar, start, s, k) && k < lvl ensures !goal(s, k) {
      DepthIsDist(ar, start, visited, d, s, k);
    }
  }

  /** `Bot::bfs`. The queue is a sequence whose head is `q[0]`; `visited` is
      the set of states marked in the 3-D vector and `from` the map of
      back-pointers, whose missing entries read as the default action,
      `forward`. The search stops at the first dequeued state the goal
      accepts, with the number of ticks spent as its second argument. */
  method Bfs(ar: Arena, start: OPos, goal: (OPos, int) -> bool) returns (r: Option<BfsResult>)
    requires IsValid(start.pos, ar.dim)
    // the result is an accepted state at its true distance, the nearest one accepted
    ensures r.Some? ==>
      goal(r.value.finalPos, r.value.eta) && r.value.eta >= 0 &&
      Dist(ar, start, r.value.finalPos, r.value.eta) &&
      forall s, k: nat :: Dist(ar, start, s, k) && k < r.value.eta ==> !goal(s, k)
    // an accepted start returns eta 0 and `backward`
    ensures r.Some? ==> (r.value.eta == 0 <==> r.value.finalPos == start)
    ensures r.Some? && r.value.eta == 0 ==> r.value.move == MoveAct(Backward)
    // otherwise the move is the first step of a shortest walk to the result
    ensures r.Some? && r.value.eta > 0 ==>
      Performable(r.value.move) &&
      exists w :: IsWalk(ar, start, w) && |w| == r.value.eta + 1 && w[|w| - 1] == r.value.finalPos &&
        w[1] == AfterMove(start, r.value.move)
    // nothing is returned only when no reachable state is accepted at its distance
    ensures r.None? ==> forall s, k: nat :: Dist(ar, start, s, k) ==> !goal(s, k)
  {
    var q: seq<(OPos, int)> := [(start, 0)];
    var visited: set<OPos> := {start};
    var from: map<OPos, Action> := map[];
    ghost var d: map<OPos, int> := map[start := 0];
    ghost var processed: set<OPos> := {};
    ghost var held: set<OPos> := {};
    ghost var lvl: nat := 0;
    SearchInit(ar, start, goal);
    SubsetCard(visited, AllStates(ar.dim));

    var found := false;
    var finish := start;
    var eta := -1;

    while !found && q != []
      invariant Search(ar, start, goal, q, visited, processed, d, lvl, held)
      invariant Tree(ar, start, visited, from, d)
      invariant !found ==> held == {}
      invariant found ==> held == {finish} && eta == lvl && goal(finish, eta)
      invariant |visited| <= |AllStates(ar.dim)|
      decreases |AllStates(ar.dim)| - |visited|, |q|
    {
      if q[0].1 > lvl {
        LevelUp(ar, start, goal, q, visited, processed, d, lvl);
        lvl := lvl + 1;
      }
      Pop(ar, start, goal, q, visited, processed, d, lvl);
      var (pos, timer) := q[0];
      q := q[1..];
      held := {pos};

      if goal(pos, timer) {
        found := true;
        finish := pos;
        eta := timer;
      } else {
        StartExpanding(ar, start, goal, q, visited, from, processed, d, lvl, pos);
        q, visited, from, d := Expand(ar, start, goal, q, visited, from, processed, d, lvl, pos, timer);
        Expanded(ar, start, goal, q, visited, from, processed, d, lvl, pos);
        Close(ar, start, goal, q, visited, processed, d, lvl, pos);
        processed := processed + {pos};
        held := {};
        SubsetCard(visited, AllStates(ar.dim));
      }
    }

    if !found {
      Exhausted(ar, start, goal, visited, processed, d, lvl);
      return None;
    }
    Nearest(ar, start, goal, q, visited, processed, d, lvl, finish);

    ghost var sfx;
    var lastMove;
    lastMove, sfx := TraceBack(ar, start, visited, from, d, finish);
    if eta == 0 {
      ReachZero(ar, start, finish);
    } else {
      AfterMoveReversed(sfx[1], lastMove);
      assert IsWalk(ar, start, sfx);
    }
    r := Some(BfsResult(Reversed(lastMove), finish, eta));
  }
}
