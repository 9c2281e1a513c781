/** Three-colour depth-first cycle detection (pkg/container/cycles.go). The marked set is
    sound and hits every cycle, whatever order the roots are tried in. It need not hold
    every node that lies on a cycle. */
module CycleDetection {
  import opened Text
  import opened Digraph
  import opened CyclePath

  datatype Color = White | Gray | Black

  /** The detector's fields, and the order in which nodes turned black. */
  datatype SearchState = SearchState(colors: map<string, Color>, cycles: set<string>, path: seq<string>,
                                     finished: seq<string>)

  function ColorOf(s: SearchState, n: string): Color {
    if n in s.colors then s.colors[n] else White
  }

  ghost function Whites(g: Adjacency, s: SearchState): set<string> {
    set n | n in Nodes(g) && ColorOf(s, n).White?
  }

  /** A back edge marks the path from the gray node on. */
  function Mark(s: SearchState, gray: string): SearchState {
    if gray in s.path then s.(cycles := s.cycles + set n | n in s.path[IndexOf(s.path, gray)..]) else s
  }

  function Enter(s: SearchState, n: string): SearchState {
    s.(colors := s.colors[n := Gray], path := s.path + [n])
  }

  function Leave(s: SearchState, n: string): SearchState
    requires s.path != []
  {
    s.(colors := s.colors[n := Black], path := s.path[..|s.path| - 1], finished := s.finished + [n])
  }

  /** dfs on a white node. */
  ghost function Visit(g: Adjacency, n: string, s: SearchState): (r: SearchState)
    requires n in Nodes(g) && ColorOf(s, n).White?
    ensures Whites(g, r) <= Whites(g, s) - {n} && r.path == s.path && s.cycles <= r.cycles
    decreases Whites(g, s), 0
  {
    assert n in Whites(g, s) && n !in Whites(g, Enter(s, n));
    forall v | v in Next(g, n) ensures v in Nodes(g) { EdgeInNodes(g, n, v); }
    var explored := Explore(g, Next(g, n), Enter(s, n));
    Leave(explored, n)
  }

  /** The loop over the neighbors of the node on top of the path. */
  ghost function Explore(g: Adjacency, neighbors: seq<string>, s: SearchState): (r: SearchState)
    requires forall v :: v in neighbors ==> v in Nodes(g)
    ensures Whites(g, r) <= Whites(g, s) && r.path == s.path && s.cycles <= r.cycles
    decreases Whites(g, s), 1 + |neighbors|
  {
    if neighbors == [] then s
    else
      Explore(g, neighbors[1..], Look(g, neighbors[0], s))
  }

  /** One neighbor: explored when white, a cycle when gray, nothing when black. */
  ghost function Look(g: Adjacency, v: string, s: SearchState): (r: SearchState)
    requires v in Nodes(g)
    ensures Whites(g, r) <= Whites(g, s) && r.path == s.path && s.cycles <= r.cycles
    decreases Whites(g, s), 1
  {
    match ColorOf(s, v)
    case White => Visit(g, v, s)
    case Gray => Mark(s, v)
    case Black => s
  }

  /** All roots, in the order they are tried. */
  ghost function Detect(g: Adjacency, roots: seq<string>, s: SearchState): (r: SearchState)
    requires forall n :: n in roots ==> n in Nodes(g)
    ensures s.cycles <= r.cycles
  {
    if roots == [] then s
    else Detect(g, roots[1..], if ColorOf(s, roots[0]).White? then Visit(g, roots[0], s) else s)
  }

  // ----- the invariant

  /** A walk leads from v back to u through marked nodes only. */
  ghost predicate MarkedReturn(g: Adjacency, cycles: set<string>, u: string, v: string) {
    exists q :: MarkedWalk(g, cycles, q) && q[0] == v && q[|q| - 1] == u
  }

  ghost predicate MarkedWalk(g: Adjacency, cycles: set<string>, q: seq<string>) {
    q != [] && Walk(g, q) && forall m :: m in q ==> m in cycles
  }

  /** Edges out of a finished node lead to a node finished earlier, or close a fully marked cycle. */
  ghost predicate Covered(g: Adjacency, finished: seq<string>, cycles: set<string>) {
    forall i, v :: 0 <= i < |finished| && Edge(g, finished[i], v) ==>
      v in finished[..i] || MarkedReturn(g, cycles, finished[i], v)
  }

  ghost predicate DetectorInvariant(g: Adjacency, s: SearchState) {
    && Distinct(s.path)
    && (s.path != [] ==> Walk(g, s.path))
    && (forall n :: ColorOf(s, n).Gray? <==> n in s.path)
    && (forall n :: ColorOf(s, n).Black? <==> n in s.finished)
    && Covered(g, s.finished, s.cycles)
    && (forall n :: n in s.cycles ==> OnCycle(g, n))
  }

  /** Marks and finished nodes stay. */
  ghost predicate Grows(s: SearchState, r: SearchState) {
    s.cycles <= r.cycles && s.finished <= r.finished
  }

  /** What looking at neighbor v settled for the node n. */
  ghost predicate Looked(g: Adjacency, r: SearchState, n: string, v: string) {
    v in r.finished || MarkedReturn(g, r.cycles, n, v)
  }

  lemma ReturnStays(g: Adjacency, cycles: set<string>, more: set<string>, u: string, v: string)
    requires MarkedReturn(g, cycles, u, v) && cycles <= more
    ensures MarkedReturn(g, more, u, v)
  {
    hide Walk;
    var q :| MarkedWalk(g, cycles, q) && q[0] == v && q[|q| - 1] == u;
    assert MarkedWalk(g, more, q);
  }

  lemma CoveredStays(g: Adjacency, finished: seq<string>, cycles: set<string>, more: set<string>)
    requires Covered(g, finished, cycles) && cycles <= more
    ensures Covered(g, finished, more)
  {
    hide MarkedReturn, Edge;
    forall i, v | 0 <= i < |finished| && Edge(g, finished[i], v)
      ensures v in finished[..i] || MarkedReturn(g, more, finished[i], v)
    {
      if v !in finished[..i] {
        ReturnStays(g, cycles, more, finished[i], v);
      }
    }
  }

  lemma {:induction false} VisitKeeps(g: Adjacency, n: string, s: SearchState)
    requires n in Nodes(g) && ColorOf(s, n).White?
    requires DetectorInvariant(g, s) && (s.path != [] ==> Edge(g, s.path[|s.path| - 1], n))
    ensures var r := Visit(g, n, s); DetectorInvariant(g, r) && Grows(s, r) && n in r.finished
    decreases Whites(g, s), 0
  {
    assert n in Whites(g, s) && n !in Whites(g, Enter(s, n));
    assert Whites(g, Enter(s, n)) <= Whites(g, s);
    EnterKeeps(g, n, s);
    var entered := Enter(s, n);
    assert entered.path[|entered.path| - 1] == n;
    forall v | v in Next(g, n) ensures v in Nodes(g) { EdgeInNodes(g, n, v); }
    ExploreKeeps(g, n, Next(g, n), entered);
    LeaveKeeps(g, n, Explore(g, Next(g, n), entered));
  }

  lemma EnterKeeps(g: Adjacency, n: string, s: SearchState)
    requires DetectorInvariant(g, s) && ColorOf(s, n).White?
    requires s.path != [] ==> Edge(g, s.path[|s.path| - 1], n)
    ensures DetectorInvariant(g, Enter(s, n)) && Grows(s, Enter(s, n))
  {
  }

  lemma CoveredGrows(g: Adjacency, n: string, s: SearchState)
    requires Covered(g, s.finished, s.cycles)
    requires forall v :: v in Next(g, n) ==> Looked(g, s, n, v)
    ensures Covered(g, s.finished + [n], s.cycles)
  {
    hide MarkedReturn;
    var finished := s.finished + [n];
    forall i, v | 0 <= i < |finished| && Edge(g, finished[i], v)
      ensures v in finished[..i] || MarkedReturn(g, s.cycles, finished[i], v)
    {
      assert finished[..i] == s.finished[..i];
      if i == |s.finished| {
        assert s.finished[..i] == s.finished;
        assert Looked(g, s, n, v);
      }
    }
  }

  lemma PathShrinks(g: Adjacency, path: seq<string>)
    requires path != [] && Distinct(path) && Walk(g, path)
    ensures var shorter := path[..|path| - 1];
            && Distinct(shorter)
            && (shorter != [] ==> Walk(g, shorter))
            && (forall m :: m in shorter <==> m in path && m != path[|path| - 1])
  {
    var k := |path| - 1;
    if k > 0 {
      WalkSlice(g, path, 0, k);
    }
    assert path == path[..k] + [path[k]];
  }

  lemma LeaveKeeps(g: Adjacency, n: string, s: SearchState)
    requires DetectorInvariant(g, s) && s.path != [] && s.path[|s.path| - 1] == n
    requires forall v :: v in Next(g, n) ==> Looked(g, s, n, v)
    ensures DetectorInvariant(g, Leave(s, n)) && Grows(s, Leave(s, n)) && n in Leave(s, n).finished
  {
    hide Covered, Looked, Walk, Distinct, OnCycle, Edge;
    CoveredGrows(g, n, s);
    PathShrinks(g, s.path);
  }

  lemma GrowsReflexive(s: SearchState)
    ensures Grows(s, s)
  {
  }

  lemma GrowsFurther(g: Adjacency, s: SearchState, t: SearchState, r: SearchState, n: string, v: string)
    requires Grows(s, t) && Grows(t, r)
    ensures Grows(s, r)
    ensures Looked(g, t, n, v) ==> Looked(g, r, n, v)
  {
    hide MarkedReturn;
    if MarkedReturn(g, t.cycles, n, v) {
      ReturnStays(g, t.cycles, r.cycles, n, v);
    }
  }

  lemma {:induction false} ExploreKeeps(g: Adjacency, n: string, neighbors: seq<string>, s: SearchState)
    requires forall v :: v in neighbors ==> v in Nodes(g) && Edge(g, n, v)
    requires DetectorInvariant(g, s) && s.path != [] && s.path[|s.path| - 1] == n
    ensures var r := Explore(g, neighbors, s); DetectorInvariant(g, r) && Grows(s, r)
    ensures forall v :: v in neighbors ==> Looked(g, Explore(g, neighbors, s), n, v)
    decreases Whites(g, s), 1 + |neighbors|
  {
    hide DetectorInvariant, Looked, Grows, Nodes, Look;
    GrowsReflexive(s);
    if neighbors != [] {
      LookKeeps(g, n, neighbors[0], s);
      var next := Look(g, neighbors[0], s);
      ExploreKeeps(g, n, neighbors[1..], next);
      GrowsFurther(g, s, next, Explore(g, neighbors[1..], next), n, neighbors[0]);
      assert neighbors == [neighbors[0]] + neighbors[1..];
    }
  }

  lemma {:induction false} LookKeeps(g: Adjacency, n: string, v: string, s: SearchState)
    requires v in Nodes(g) && Edge(g, n, v)
    requires DetectorInvariant(g, s) && s.path != [] && s.path[|s.path| - 1] == n
    ensures var r := Look(g, v, s); DetectorInvariant(g, r) && Grows(s, r) && Looked(g, r, n, v)
    decreases Whites(g, s), 1
  {
    match ColorOf(s, v) {
      case White => VisitKeeps(g, v, s);
      case Gray => MarkKeeps(g, n, v, s);
      case Black =>
    }
  }

  lemma MarkKeeps(g: Adjacency, n: string, v: string, s: SearchState)
    requires Edge(g, n, v) && v in s.path
    requires DetectorInvariant(g, s) && s.path != [] && s.path[|s.path| - 1] == n
    ensures DetectorInvariant(g, Mark(s, v)) && Grows(s, Mark(s, v)) && Looked(g, Mark(s, v), n, v)
  {
    hide Distinct, Walk, OnCycle, Covered, Edge, MarkedReturn;
    TailOnCycle(g, s.path, n, v);
    TailMarked(g, s.path, n, v, Mark(s, v).cycles);
    CoveredStays(g, s.finished, s.cycles, Mark(s, v).cycles);
  }

  /** The marked tail of the path is the walk back. */
  lemma TailMarked(g: Adjacency, path: seq<string>, n: string, v: string, cycles: set<string>)
    requires path != [] && Walk(g, path) && path[|path| - 1] == n && v in path
    requires forall m :: m in path[IndexOf(path, v)..] ==> m in cycles
    ensures MarkedReturn(g, cycles, n, v)
  {
    hide Walk;
    var i := IndexOf(path, v);
    var tail := path[i..];
    WalkSlice(g, path, i, |path|);
    assert tail == path[i..|path|];
    assert MarkedWalk(g, cycles, tail) && tail[0] == v && tail[|tail| - 1] == n;
  }

  lemma TailOnCycle(g: Adjacency, path: seq<string>, n: string, v: string)
    requires path != [] && Walk(g, path) && path[|path| - 1] == n && v in path && Edge(g, n, v)
    ensures forall m :: m in path[IndexOf(path, v)..] ==> OnCycle(g, m)
  {
    hide Edge;
    var i := IndexOf(path, v);
    WalkSlice(g, path, i, |path|);
    var tail := path[i..];
    WalkAppend(g, tail, v);
    assert Cycle(g, tail + [v]);
    forall m | m in tail ensures OnCycle(g, m) {
      assert m in tail + [v];
    }
  }

  // ----- what the marks mean

  ghost predicate HitsEveryCycle(g: Adjacency, marks: set<string>) {
    forall p :: Cycle(g, p) ==> exists n :: n in p && n in marks
  }

  ghost predicate Sound(g: Adjacency, marks: set<string>) {
    forall n :: n in marks ==> OnCycle(g, n)
  }

  ghost function Unvisited(): SearchState {
    SearchState(map[], {}, [], [])
  }

  lemma {:induction false} DetectKeeps(g: Adjacency, roots: seq<string>, s: SearchState)
    requires forall n :: n in roots ==> n in Nodes(g)
    requires DetectorInvariant(g, s) && s.path == []
    ensures var r := Detect(g, roots, s); DetectorInvariant(g, r) && Grows(s, r) && r.path == []
    ensures forall n :: n in roots ==> n in Detect(g, roots, s).finished
  {
    hide DetectorInvariant;
    if roots != [] {
      RootKeeps(g, roots[0], s);
      var next := if ColorOf(s, roots[0]).White? then Visit(g, roots[0], s) else s;
      DetectKeeps(g, roots[1..], next);
      assert roots == [roots[0]] + roots[1..];
    }
  }

  lemma RootKeeps(g: Adjacency, root: string, s: SearchState)
    requires root in Nodes(g) && DetectorInvariant(g, s) && s.path == []
    ensures var r := if ColorOf(s, root).White? then Visit(g, root, s) else s;
            DetectorInvariant(g, r) && Grows(s, r) && r.path == [] && root in r.finished
  {
    if ColorOf(s, root).White? {
      VisitKeeps(g, root, s);
    }
  }

  /** The cycle has an edge that is also on a cycle of marked nodes only. */
  ghost predicate SharesMarkedCycle(g: Adjacency, marks: set<string>, p: seq<string>) {
    exists i, j :: 0 <= i && j == i + 1 < |p| && MarkedReturn(g, marks, p[i], p[j])
  }

  /** With every node finished, a cycle without such an edge would descend in finish order for ever. */
  lemma CoveredShares(g: Adjacency, s: SearchState, p: seq<string>)
    requires Covered(g, s.finished, s.cycles) && Nodes(g) <= Elements(s.finished) && Cycle(g, p)
    ensures SharesMarkedCycle(g, s.cycles, p)
  {
    hide MarkedReturn, Covered, Nodes;
    if !SharesMarkedCycle(g, s.cycles, p) {
      forall i, j | 0 <= i && j == i + 1 < |p|
        ensures IndexOf(s.finished, p[j]) < IndexOf(s.finished, p[i])
      {
        EdgeDescends(g, s, p[i], p[j]);
      }
      WalkRises(g, (x: string) => -(IndexOf(s.finished, x) as int), p);
    }
  }

  lemma EdgeDescends(g: Adjacency, s: SearchState, u: string, v: string)
    requires Covered(g, s.finished, s.cycles) && Nodes(g) <= Elements(s.finished)
    requires Edge(g, u, v) && !MarkedReturn(g, s.cycles, u, v)
    ensures IndexOf(s.finished, v) < IndexOf(s.finished, u)
  {
    hide MarkedReturn;
    assert u in g && u in Elements(s.finished);
    var k := IndexOf(s.finished, u);
    assert v in s.finished[..k];
    IndexOfPrefix(s.finished, k, v);
  }

  lemma CoveredHits(g: Adjacency, s: SearchState)
    requires Covered(g, s.finished, s.cycles) && Nodes(g) <= Elements(s.finished)
    ensures HitsEveryCycle(g, s.cycles)
  {
    hide Covered, Nodes, Cycle;
    forall p | Cycle(g, p) ensures exists n :: n in p && n in s.cycles {
      CoveredShares(g, s, p);
      var i, j :| 0 <= i && j == i + 1 < |p| && MarkedReturn(g, s.cycles, p[i], p[j]);
      ReturnEnds(g, s.cycles, p[i], p[j]);
      assert p[i] in p;
    }
  }

  lemma ReturnEnds(g: Adjacency, cycles: set<string>, u: string, v: string)
    requires MarkedReturn(g, cycles, u, v)
    ensures u in cycles && v in cycles
  {
    var q :| MarkedWalk(g, cycles, q) && q[0] == v && q[|q| - 1] == u;
    assert q[0] in q && q[|q| - 1] in q;
  }

  /** Whatever the order of the roots: every marked node lies on a cycle, and every cycle holds
      a marked node. */
  lemma DetectionExact(g: Adjacency, roots: seq<string>)
    requires Elements(roots) == Nodes(g)
    ensures var marks := Detect(g, roots, Unvisited()).cycles;
            Sound(g, marks) && HitsEveryCycle(g, marks) && (marks == {} <==> !HasCycle(g))
  {
    RootsAreNodes(g, roots);
    DetectKeeps(g, roots, Unvisited());
    var r := Detect(g, roots, Unvisited());
    assert Nodes(g) <= Elements(r.finished);
    CoveredHits(g, r);
    if r.cycles != {} {
      var n :| n in r.cycles;
      assert OnCycle(g, n);
    }
  }

  /** Every cycle shares an edge with a cycle whose nodes are all marked. */
  lemma CyclesShareMarked(g: Adjacency, roots: seq<string>, p: seq<string>)
    requires Elements(roots) == Nodes(g) && Cycle(g, p)
    ensures SharesMarkedCycle(g, Detect(g, roots, Unvisited()).cycles, p)
  {
    hide Cycle, SharesMarkedCycle;
    RootsAreNodes(g, roots);
    DetectKeeps(g, roots, Unvisited());
    var r := Detect(g, roots, Unvisited());
    assert Nodes(g) <= Elements(r.finished);
    CoveredShares(g, r, p);
  }

  // ----- when all nodes on cycles are marked

  /** The cycles have an edge in common. */
  ghost predicate ShareEdge(p: seq<string>, q: seq<string>) {
    exists i, j, k, l :: 0 <= i && j == i + 1 < |p| && 0 <= k && l == k + 1 < |q| && p[i] == q[k] && p[j] == q[l]
  }

  /** Every simple cycle that has an edge in common with p passes n. */
  ghost predicate Bound(g: Adjacency, p: seq<string>, n: string) {
    forall q :: SimpleCycle(g, q) && ShareEdge(p, q) ==> n in q
  }

  /** Simple cycles with a common edge have the same nodes; so it is if each edge lies on at most one. */
  ghost predicate SeparateCycles(g: Adjacency) {
    forall p, q :: SimpleCycle(g, p) && SimpleCycle(g, q) && ShareEdge(p, q) ==> Elements(p) == Elements(q)
  }

  /** Every walk has a part without repetition between its ends. */
  lemma {:induction false} SimpleWalk(g: Adjacency, w: seq<string>) returns (s: seq<string>)
    requires Walk(g, w)
    ensures Walk(g, s) && Distinct(s) && s[0] == w[0] && s[|s| - 1] == w[|w| - 1]
    ensures forall x :: x in s ==> x in w
    decreases |w|
  {
    if Distinct(w) {
      s := w;
    } else {
      var i, j :| 0 <= i < j < |w| && w[i] == w[j];
      var shorter := w[..i] + w[j..];
      WalkSlice(g, w, j, |w|);
      if i > 0 {
        WalkSlice(g, w, 0, i);
        NextEdge(g, w, i - 1);
        WalkConcat(g, w[..i], w[j..]);
      }
      assert shorter[|shorter| - 1] == w[|w| - 1];
      s := SimpleWalk(g, shorter);
    }
  }

  lemma NextEdge(g: Adjacency, p: seq<string>, i: nat)
    requires Walk(g, p) && i + 1 < |p|
    ensures Edge(g, p[i], p[i + 1])
  {
  }

  /** An edge and a way back make a simple cycle through the edge. */
  lemma SimpleLoop(g: Adjacency, u: string, v: string, w: seq<string>) returns (c: seq<string>)
    requires Edge(g, u, v) && Walk(g, w) && w[0] == v && w[|w| - 1] == u
    ensures SimpleCycle(g, c) && |c| > 1 && c[0] == u && c[1] == v && forall x :: x in c ==> x in w
  {
    var s := SimpleWalk(g, w);
    WalkPrepend(g, u, s);
    c := [u] + s;
    assert c[1..] == s && w[|w| - 1] in w;
  }

  lemma SimpleCycleThrough(g: Adjacency, n: string) returns (c: seq<string>)
    requires OnCycle(g, n)
    ensures SimpleCycle(g, c) && n in c
  {
    var p :| Cycle(g, p) && n in p;
    CycleAt(g, p, n);
    var q :| Cycle(g, q) && q[0] == n;
    WalkSlice(g, q, 1, |q|);
    NextEdge(g, q, 0);
    c := SimpleLoop(g, n, q[1], q[1..]);
    assert c[0] in c;
  }

  /** A node is marked, whatever the order of the roots, if it lies on a cycle none of whose edges is on
      a cycle without that node. */
  lemma MarkedOnBoundCycle(g: Adjacency, roots: seq<string>, p: seq<string>, n: string)
    requires Elements(roots) == Nodes(g) && Cycle(g, p) && Bound(g, p, n)
    ensures n in Detect(g, roots, Unvisited()).cycles
  {
    hide Nodes, Detect, Edge, Walk, SimpleCycle;
    var marks := Detect(g, roots, Unvisited()).cycles;
    CyclesShareMarked(g, roots, p);
    var i, j :| 0 <= i && j == i + 1 < |p| && MarkedReturn(g, marks, p[i], p[j]);
    var w :| MarkedWalk(g, marks, w) && w[0] == p[j] && w[|w| - 1] == p[i];
    NextEdge(g, p, i);
    var c := SimpleLoop(g, p[i], p[j], w);
    LoopSharesEdge(p, i, c);
  }

  lemma LoopSharesEdge(p: seq<string>, i: nat, c: seq<string>)
    requires i + 1 < |p| && |c| > 1 && c[0] == p[i] && c[1] == p[i + 1]
    ensures ShareEdge(p, c)
  {
    var j, k, l := i + 1, 0, 1;
    assert p[i] == c[k] && p[j] == c[l];
  }

  /** If no edge lies on cycles with different nodes, exactly the nodes on cycles are marked, whatever
      the order of the roots. */
  lemma AllMarkedOnSeparateCycles(g: Adjacency, roots: seq<string>)
    requires Elements(roots) == Nodes(g) && SeparateCycles(g)
    ensures forall n :: n in Detect(g, roots, Unvisited()).cycles <==> OnCycle(g, n)
  {
    hide Nodes, Detect, Cycle, ShareEdge, HitsEveryCycle, OnCycle;
    DetectionExact(g, roots);
    forall n | OnCycle(g, n) ensures n in Detect(g, roots, Unvisited()).cycles {
      var p := SimpleCycleThrough(g, n);
      forall q | SimpleCycle(g, q) && ShareEdge(p, q) ensures n in q {
        assert n in Elements(p) && Elements(p) == Elements(q);
      }
      MarkedOnBoundCycle(g, roots, p, n);
    }
  }

  lemma RootsAreNodes(g: Adjacency, roots: seq<string>)
    requires Elements(roots) == Nodes(g)
    ensures forall n :: n in roots ==> n in Nodes(g)
  {
    assert forall n :: n in roots ==> n in Elements(roots);
  }

  // ----- a node on a cycle that is not marked

  const SPLIT: Adjacency := map["a" := ["b", "c"], "b" := ["a"], "c" := ["b"]]

  lemma ExploreOne(g: Adjacency, v: string, s: SearchState)
    requires v in Nodes(g)
    ensures Explore(g, [v], s) == Look(g, v, s)
  {
    assert [v][1..] == [];
  }

  lemma VisitOne(g: Adjacency, n: string, v: string, s: SearchState)
    requires n in Nodes(g) && ColorOf(s, n).White? && Next(g, n) == [v]
    ensures v in Nodes(g)
    ensures Visit(g, n, s) == Leave(Look(g, v, Enter(s, n)), n)
  {
    EdgeInNodes(g, n, v);
    ExploreOne(g, v, Enter(s, n));
  }

  lemma SplitNodes()
    ensures Nodes(SPLIT) == {"a", "b", "c"}
  {
  }

  /** The detector after it left b and while it is still at a. */
  const AFTER_B := SearchState(map["a" := Gray, "b" := Black], {"a", "b"}, ["a"], ["b"])

  lemma SplitAtB()
    requires Nodes(SPLIT) == {"a", "b", "c"}
    ensures Visit(SPLIT, "b", Enter(Unvisited(), "a")) == AFTER_B
  {
    hide Nodes, Visit, Explore, Whites;
    var s := Enter(Enter(Unvisited(), "a"), "b");
    VisitOne(SPLIT, "b", "a", Enter(Unvisited(), "a"));
    assert s.path == ["a", "b"] && IndexOf(s.path, "a") == 0;
    assert s.path[0..] == ["a", "b"];
    assert Mark(s, "a").cycles == {"a", "b"};
  }

  lemma SplitAtC()
    requires Nodes(SPLIT) == {"a", "b", "c"}
    ensures Visit(SPLIT, "c", AFTER_B).cycles == {"a", "b"}
    ensures Visit(SPLIT, "c", AFTER_B).finished == ["b", "c"]
  {
    VisitOne(SPLIT, "c", "b", AFTER_B);
  }

  /** Starting at a, the search marks a and b, then finds c's only neighbor b black. */
  lemma SplitVisits()
    requires Nodes(SPLIT) == {"a", "b", "c"}
    ensures Visit(SPLIT, "a", Unvisited()).cycles == {"a", "b"}
    ensures Visit(SPLIT, "a", Unvisited()).finished == ["b", "c", "a"]
  {
    hide Nodes, Whites;
    SplitAtB();
    SplitAtC();
    ExploreOne(SPLIT, "c", AFTER_B);
    assert ["b", "c"][1..] == ["c"];
  }

  lemma {:induction false} DetectSkips(g: Adjacency, roots: seq<string>, s: SearchState)
    requires forall n :: n in roots ==> n in Nodes(g) && !ColorOf(s, n).White?
    ensures Detect(g, roots, s) == s
  {
    if roots != [] {
      DetectSkips(g, roots[1..], s);
    }
  }

  lemma SplitDetected()
    requires Nodes(SPLIT) == {"a", "b", "c"}
    ensures Detect(SPLIT, ["a", "b", "c"], Unvisited()).cycles == {"a", "b"}
  {
    hide Visit, Nodes;
    SplitVisits();
    var s := Visit(SPLIT, "a", Unvisited());
    VisitKeeps(SPLIT, "a", Unvisited());
    assert ["a", "b", "c"][1..] == ["b", "c"];
    assert "b" in s.finished && "c" in s.finished;
    DetectSkips(SPLIT, ["b", "c"], s);
  }

  /** Not every node on a cycle is marked: c lies on the cycle c, b, a, c. */
  lemma UnmarkedNodeOnCycle()
    ensures OnCycle(SPLIT, "c")
    ensures Nodes(SPLIT) == {"a", "b", "c"} && "c" !in Detect(SPLIT, ["a", "b", "c"], Unvisited()).cycles
  {
    assert Cycle(SPLIT, ["c", "b", "a", "c"]);
    SplitNodes();
    SplitDetected();
  }

  // ----- the order of the neighbors matters

  /** The same graph, the neighbors of a in the other order. */
  const FLIPPED: Adjacency := map["a" := ["c", "b"], "b" := ["a"], "c" := ["b"]]

  lemma FirstLook(g: Adjacency, n: string, s: SearchState)
    requires n in Nodes(g) && ColorOf(s, n).White? && Next(g, n) != []
    ensures Next(g, n)[0] in Nodes(g)
    ensures Look(g, Next(g, n)[0], Enter(s, n)).cycles <= Visit(g, n, s).cycles
  {
    EdgeInNodes(g, n, Next(g, n)[0]);
  }

  /** A cycle of first neighbors is marked as soon as one of its nodes is visited. */
  lemma FirstNeighborsMarked(g: Adjacency, x: string, y: string, z: string)
    requires {x, y, z} <= Nodes(g) && x != y && y != z && z != x
    requires Next(g, x) != [] && Next(g, y) != [] && Next(g, z) != []
    requires Next(g, x)[0] == y && Next(g, y)[0] == z && Next(g, z)[0] == x
    ensures {x, y, z} <= Visit(g, x, Unvisited()).cycles
  {
    hide Nodes, Visit;
    var s := Enter(Unvisited(), x);
    var t := Enter(s, y);
    var u := Enter(t, z);
    FirstLook(g, x, Unvisited());
    FirstLook(g, y, s);
    FirstLook(g, z, t);
    assert u.path == [x, y, z] && IndexOf(u.path, x) == 0 && u.path[0..] == u.path;
    assert x in u.path && y in u.path && z in u.path;
    assert {x, y, z} <= Mark(u, x).cycles;
  }

  /** Whether all nodes on cycles are marked does not depend on the edges alone: with the neighbors of a
      swapped, all are, whatever the order of the roots. */
  lemma NeighborOrderMatters(roots: seq<string>)
    requires Elements(roots) == Nodes(FLIPPED)
    ensures forall u, v :: Edge(FLIPPED, u, v) <==> Edge(SPLIT, u, v)
    ensures forall n :: n in {"a", "b", "c"} ==> n in Detect(FLIPPED, roots, Unvisited()).cycles
  {
    hide Visit;
    RootsAreNodes(FLIPPED, roots);
    assert Nodes(FLIPPED) == {"a", "b", "c"};
    assert "a" in Elements(roots);
    assert roots[0] in Elements(roots);
    FirstNeighborsMarked(FLIPPED, "a", "c", "b");
    FirstNeighborsMarked(FLIPPED, "c", "b", "a");
    FirstNeighborsMarked(FLIPPED, "b", "a", "c");
    assert ColorOf(Unvisited(), roots[0]).White?;
  }

  // ----- the detector

  class CycleDetector {
    const graph: Adjacency
    var colors: map<string, Color>
    var cycles: set<string>
    var path: seq<string>
    ghost var finished: seq<string>

    constructor (graph: Adjacency)
      ensures this.graph == graph && Current() == Unvisited()
    {
      this.graph := graph;
      colors, cycles, path, finished := map[], {}, [], [];
    }

    ghost function Current(): SearchState
      reads this
    {
      SearchState(colors, cycles, path, finished)
    }

    method Dfs(node: string)
      requires node in Nodes(graph) && ColorOf(Current(), node).White?
      modifies this
      ensures Current() == Visit(graph, node, old(Current()))
      decreases Whites(graph, Current())
    {
      hide Nodes, Mark;
      ghost var before := Current();
      assert node in Whites(graph, before);
      colors := colors[node := Gray];
      path := path + [node];
      ghost var entered := Current();
      assert entered == Enter(before, node);
      assert Whites(graph, entered) <= Whites(graph, before) - {node};
      var neighbors := Next(graph, node);
      forall v | v in neighbors ensures v in Nodes(graph) { EdgeInNodes(graph, node, v); }
      for i := 0 to |neighbors|
        invariant Whites(graph, Current()) <= Whites(graph, entered)
        invariant Explore(graph, neighbors[i..], Current()) == Explore(graph, neighbors, entered)
      {
        var neighbor := neighbors[i];
        assert neighbors[i..][1..] == neighbors[i + 1..];
        var color := if neighbor in colors then colors[neighbor] else White;
        if color == White {
          Dfs(neighbor);
        } else if color == Gray {
          MarkCycle(neighbor);
        }
      }
      assert path == path[..|path| - 1] + [node];
      path := path[..|path| - 1];
      colors := colors[node := Black];
      finished := finished + [node];
    }

    /** Marks the path from the gray neighbor to its end. */
    method MarkCycle(neighbor: string)
      modifies `cycles
      ensures Current() == Mark(old(Current()), neighbor)
    {
      var start := IndexOf(path, neighbor);
      if start == |path| {
        return;
      }
      for i := start to |path|
        invariant cycles == old(cycles) + set n | n in path[start..i]
      {
        assert path[start..i + 1] == path[start..i] + [path[i]];
        cycles := cycles + {path[i]};
      }
      assert path[start..|path|] == path[start..];
    }
  }
}
