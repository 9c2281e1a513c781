/** The dependency sorter (pkg/sorter/dependency.go): Kahn's queue loop, the cycle report
    and the in-place sort. */
module Sorter {
  import opened Text
  import opened Digraph
  import opened Containers
  import opened LinkResolution
  import opened Kahn
  import opened CyclePath
  import opened GraphBuilder

  // ----- what the sort promises

  ghost function Order(cs: seq<Container>): seq<string> {
    KahnOrder(KeysOf(cs), DependencyEdges(cs))
  }

  ghost function ContainerAt(cs: seq<Container>, id: string): (c: Container)
    requires id in KeysOf(cs)
    ensures c in cs && Identifier(c) == id
  {
    cs[IndexOf(Identifiers(cs), id)]
  }

  ghost function InOrder(cs: seq<Container>, order: seq<string>): (r: seq<Container>)
    requires Elements(order) <= KeysOf(cs)
    ensures |r| == |order| && forall i :: 0 <= i < |r| ==> r[i] in cs
    ensures Identifiers(r) == order
  {
    if order == [] then []
    else
      ListedHead(KeysOf(cs), order);
      [ContainerAt(cs, order[0])] + InOrder(cs, order[1..])
  }

  lemma ListedHead(keys: set<string>, order: seq<string>)
    requires order != [] && Elements(order) <= keys
    ensures order[0] in keys && Elements(order[1..]) <= keys && order == [order[0]] + order[1..]
  {
    assert order[0] in Elements(order);
    assert Elements(order[1..]) <= Elements(order);
  }

  /** The sorted list, or None when the sort reports an error. */
  ghost function Sorted(cs: seq<Container>): Option<seq<Container>> {
    DependencyEdgesWithin(cs);
    KahnExhausts(KeysOf(cs), DependencyEdges(cs));
    if DistinctIdentifiers(cs) && |Order(cs)| == |cs| then Some(InOrder(cs, Order(cs))) else None
  }

  /** A complete order is topological, so the graph has no cycle. */
  lemma CompleteOrder(cs: seq<Container>)
    requires Elements(Order(cs)) == KeysOf(cs)
    ensures Topological(LinkGraph(cs), Order(cs)) && !HasCycle(LinkGraph(cs))
  {
    hide KeysOf, DependencyEdges, KahnOrder, Exhausted, Topological, HasCycle, EdgeGraph;
    var keys, edges := KeysOf(cs), DependencyEdges(cs);
    DependencyEdgesWithin(cs);
    KahnExhausts(keys, edges);
    CompleteIsTopological(keys, edges, Order(cs));
    OrderedAcyclic(LinkGraph(cs), Order(cs));
  }

  /** What an incomplete order misses lies behind a cycle. */
  lemma IncompleteOrder(cs: seq<Container>, v: string)
    requires v in KeysOf(cs) && v !in Order(cs)
    ensures HasCycle(LinkGraph(cs))
  {
    hide KeysOf, DependencyEdges, KahnOrder, Exhausted, EdgeGraph, Cycle, Reaches;
    var keys, edges := KeysOf(cs), DependencyEdges(cs);
    DependencyEdgesWithin(cs);
    KahnExhausts(keys, edges);
    MissedIffBehindCycle(keys, edges, Order(cs), v);
    var c :| OnCycle(LinkGraph(cs), c) && Reaches(LinkGraph(cs), c, v);
  }

  lemma Beyond(some: set<string>, all: set<string>) returns (v: string)
    requires some <= all && some != all
    ensures v in all && v !in some
  {
    NothingBeyond(some, all);
    v :| v in all && v !in some;
  }

  lemma NothingBeyond(some: set<string>, all: set<string>)
    requires some <= all
    ensures (forall x :: x in all ==> x in some) ==> some == all
  {
  }

  lemma OrderSize(cs: seq<Container>)
    requires DistinctIdentifiers(cs)
    ensures |Order(cs)| == |cs| <==> Elements(Order(cs)) == KeysOf(cs)
    ensures Elements(Order(cs)) <= KeysOf(cs)
  {
    hide Identifier, DependencyEdges, KahnOrder;
    var keys, edges := KeysOf(cs), DependencyEdges(cs);
    DependencyEdgesWithin(cs);
    KahnExhausts(keys, edges);
    DistinctSize(Identifiers(cs));
    DistinctSize(Order(cs));
    RoomLeft(keys, Order(cs));
  }

  /** The order is complete exactly when the graph has no cycle. */
  lemma OrderCompleteIffAcyclic(cs: seq<Container>)
    requires DistinctIdentifiers(cs)
    ensures |Order(cs)| == |cs| <==> !HasCycle(LinkGraph(cs))
    ensures |Order(cs)| == |cs| <==> Elements(Order(cs)) == KeysOf(cs)
    ensures |Order(cs)| == |cs| ==> Topological(LinkGraph(cs), Order(cs))
  {
    hide KeysOf, DependencyEdges, KahnOrder, LinkGraph, Order, HasCycle, Topological, DistinctIdentifiers;
    OrderSize(cs);
    if Elements(Order(cs)) == KeysOf(cs) {
      CompleteOrder(cs);
    } else {
      var v := Beyond(Elements(Order(cs)), KeysOf(cs));
      IncompleteOrder(cs, v);
    }
  }

  /** Kahn exactness: with distinct identifiers the sort fails exactly on a cyclic link graph;
      otherwise its result is a permutation of the input with dependencies first. */
  lemma SortExact(cs: seq<Container>)
    requires DistinctIdentifiers(cs)
    ensures Sorted(cs).None? <==> HasCycle(LinkGraph(cs))
    ensures Sorted(cs).Some? ==> multiset(Sorted(cs).value) == multiset(cs)
    ensures Sorted(cs).Some? ==> Topological(LinkGraph(cs), Identifiers(Sorted(cs).value))
  {
    OrderCompleteIffAcyclic(cs);
    if Sorted(cs).Some? {
      var r := Sorted(cs).value;
      DependencyEdgesWithin(cs);
      KahnExhausts(KeysOf(cs), DependencyEdges(cs));
      SameIdentifiersSameContainers(cs, r);
    }
  }

  lemma SameIdentifiersSameContainers(cs: seq<Container>, r: seq<Container>)
    requires DistinctIdentifiers(cs) && DistinctIdentifiers(r)
    requires forall c :: c in r ==> c in cs
    requires KeysOf(r) == KeysOf(cs)
    ensures multiset(r) == multiset(cs)
  {
    DistinctContainers(cs);
    DistinctContainers(r);
    forall c | c in cs ensures c in r {
      IdentifierListed(cs, c);
      var i :| 0 <= i < |r| && Identifiers(r)[i] == Identifier(c);
      UniqueByIdentifier(cs, c, r[i]);
    }
    DistinctMultiset(cs);
    DistinctMultiset(r);
    assert Elements(r) == Elements(cs);
  }

  lemma DistinctContainers(cs: seq<Container>)
    requires DistinctIdentifiers(cs)
    ensures Distinct(cs)
  {
    forall i, j | 0 <= i < j < |cs| ensures cs[i] != cs[j] {
      assert Identifiers(cs)[i] != Identifiers(cs)[j];
    }
  }

  /** What a sort leaves out is exactly what lies behind a cycle of links. */
  lemma UnsortedIffBehindCycle(cs: seq<Container>, v: string)
    requires DistinctIdentifiers(cs) && v in KeysOf(cs)
    ensures v !in Order(cs) <==> BehindCycle(LinkGraph(cs), v)
  {
    DependencyEdgesWithin(cs);
    KahnExhausts(KeysOf(cs), DependencyEdges(cs));
    MissedIffBehindCycle(KeysOf(cs), DependencyEdges(cs), Order(cs), v);
  }

  // ----- the queue loop

  method InitializeQueue(indegree: map<string, int>) returns (queue: seq<string>)
    ensures queue == InitialQueue(indegree)
    ensures forall i, j :: 0 <= i < j < |queue| ==> Less(queue[j], queue[i])
    ensures forall id :: id in queue <==> id in indegree && indegree[id] == 0
  {
    hide Lists, SortStrings, Less;
    queue := [];
    NothingListed<string>();
    var rest := indegree.Keys;
    assert Sources(indegree) - rest == {};
    while rest != {}
      invariant rest <= indegree.Keys && Lists(queue, Sources(indegree) - rest)
    {
      var id :| id in rest;
      ghost var before := Sources(indegree) - rest;
      rest := rest - {id};
      assert Sources(indegree) - rest == if indegree[id] == 0 then before + {id} else before;
      if indegree[id] == 0 {
        ListsNext(queue, before, id);
        queue := queue + [id];
      }
    }
    assert Sources(indegree) - rest == Sources(indegree);
    SortStringsAscending(queue, Sources(indegree));
    queue := Reverse(SortStrings(queue));
    InitialDescends(indegree);
  }

  lemma InitialDescends(indegree: map<string, int>)
    ensures var queue := InitialQueue(indegree);
            && (forall i, j :: 0 <= i < j < |queue| ==> Less(queue[j], queue[i]))
            && forall id :: id in queue <==> id in indegree && indegree[id] == 0
  {
    var listed := Ascending(Sources(indegree));
    var queue := InitialQueue(indegree);
    forall id ensures id in queue <==> id in indegree && indegree[id] == 0 {
      assert id in Elements(listed) <==> id in Sources(indegree);
      if id in listed {
        var i :| 0 <= i < |listed| && listed[i] == id;
        assert queue[|queue| - 1 - i] == id;
      }
    }
  }

  /** The inner loop: takes one off the indegree of every dependent. */
  method RelaxDependents(indegree: map<string, int>, queue: seq<string>, dependents: seq<string>)
    returns (indegree': map<string, int>, queue': seq<string>)
    ensures (indegree', queue') == Relax(indegree, queue, dependents)
  {
    indegree', queue' := indegree, queue;
    for i := 0 to |dependents|
      invariant Relax(indegree', queue', dependents[i..]) == Relax(indegree, queue, dependents)
    {
      var d := dependents[i];
      assert dependents[i..][1..] == dependents[i + 1..];
      indegree' := indegree'[d := (if d in indegree' then indegree'[d] else 0) - 1];
      if indegree'[d] == 0 {
        queue' := queue' + [d];
      }
    }
  }

  /** The queue loop stands before a round: the invariant holds and the rounds left lead to the order. */
  ghost predicate Underway(cs: seq<Container>, indegree: map<string, int>, queue: seq<string>, done: seq<string>) {
    var keys, edges := KeysOf(cs), DependencyEdges(cs);
    && KahnInvariant(keys, edges, indegree, queue, done)
    && |done| <= |keys|
    && Drain(edges, indegree, queue, done, |keys| - |done|) == Order(cs)
  }

  lemma RoundKeeps(cs: seq<Container>, indegree: map<string, int>, queue: seq<string>, done: seq<string>)
    requires Underway(cs, indegree, queue, done) && queue != []
    ensures queue[0] in KeysOf(cs) && |done| < |KeysOf(cs)|
    ensures var (next, more) := Relax(indegree, queue[1..], Dependents(DependencyEdges(cs), queue[0]));
            Underway(cs, next, more, done + [queue[0]])
  {
    hide DependencyEdges, KeysOf, Relax, Drain, Order;
    var keys, edges := KeysOf(cs), DependencyEdges(cs);
    RoomLeft(keys, done + queue);
    assert (done + queue)[|done|] == queue[0];
    assert queue[0] in Elements(done + queue);
    DependencyEdgesWithin(cs);
    StepKeeps(keys, edges, indegree, queue, done);
    DrainRound(edges, indegree, queue, done, |keys| - |done|);
  }

  lemma QueueStarts(cs: seq<Container>)
    ensures var indegree := Indegrees(KeysOf(cs), DependencyEdges(cs));
            Underway(cs, indegree, InitialQueue(indegree), [])
  {
    hide DependencyEdges, KeysOf, Relax, Drain, InitialQueue;
    InitialInvariant(KeysOf(cs), DependencyEdges(cs));
  }

  /** Processes the queue until it is empty; the sorted identifiers are the specified order. */
  method ProcessQueue(g: DependencyGraph, cs: seq<Container>) returns (sorted: seq<Container>)
    requires Represents(g, cs)
    ensures Identifiers(sorted) == Order(cs)
    ensures forall c :: c in sorted ==> c in cs
  {
    hide Identifier, Underway, DependencyEdges, Order, Relax, InitialQueue;
    QueueStarts(cs);
    var indegree := g.indegree;
    var queue := InitializeQueue(indegree);
    sorted := [];
    ghost var done := [];
    while queue != []
      invariant Underway(cs, indegree, queue, done) && Identifiers(sorted) == done
      invariant forall c :: c in sorted ==> c in cs
      decreases |KeysOf(cs)| - |done|
    {
      RoundKeeps(cs, indegree, queue, done);
      var current := queue[0];
      var dependents := Next(g.adjacency, current);
      indegree, queue := RelaxDependents(indegree, queue[1..], dependents);
      IdentifiersNext(sorted, g.containerMap[current]);
      sorted := sorted + [g.containerMap[current]];
      done := done + [current];
    }
    QueueEmpty(cs, indegree, done);
  }

  lemma QueueEmpty(cs: seq<Container>, indegree: map<string, int>, done: seq<string>)
    requires Underway(cs, indegree, [], done)
    ensures done == Order(cs)
  {
    hide DependencyEdges, KeysOf, Order;
    DrainDone(DependencyEdges(cs), indegree, done, |KeysOf(cs)| - |done|);
  }

  lemma IdentifiersNext(cs: seq<Container>, c: Container)
    ensures Identifiers(cs + [c]) == Identifiers(cs) + [Identifier(c)]
  {
    hide Identifier;
  }

  // ----- the cycle report

  /** The identifiers a sort leaves out. */
  ghost function Unsorted(cs: seq<Container>): set<string> {
    KeysOf(cs) - Elements(Order(cs))
  }

  /** The reported container is the first one left out; the path is a real simple cycle, and it
      is empty exactly when no cycle lies downstream of that container. */
  ghost predicate ReportsCycle(cs: seq<Container>, error: SortError) {
    && error.CircularReference?
    && Unsorted(cs) != {}
    && error.container == Ascending(Unsorted(cs))[0]
    && (error.path != [] <==> ReachesCycle(LinkGraph(cs), error.container))
    && (error.path != [] ==> SimpleCycle(LinkGraph(cs), error.path))
  }

  /** The reported container is on a cycle exactly if every container that is left over without being
      on one comes after some container that is. */
  lemma NamedOnCycleIff(cs: seq<Container>, error: SortError)
    requires DistinctIdentifiers(cs) && ReportsCycle(cs, error)
    ensures var g := LinkGraph(cs);
            OnCycle(g, error.container) <==>
            forall v :: v in KeysOf(cs) && BehindCycle(g, v) && !OnCycle(g, v) ==>
              exists w :: OnCycle(g, w) && Less(w, v)
  {
    hide LinkGraph, KeysOf, Order, OnCycle, BehindCycle, SimpleCycle, ReachesCycle, DistinctIdentifiers;
    var g, first := LinkGraph(cs), error.container;
    AscendingLeast(Unsorted(cs));
    forall v | v in KeysOf(cs) ensures v in Unsorted(cs) <==> BehindCycle(g, v) {
      UnsortedIffBehindCycle(cs, v);
    }
    forall w | OnCycle(g, w) ensures w in Unsorted(cs) && (w == first || Less(first, w)) {
      CyclesLeftOver(cs, w);
    }
    if !OnCycle(g, first) {
      forall w | OnCycle(g, w) ensures !Less(w, first) {
        LessAntisymmetric(first, w);
      }
    }
  }

  /** Whatever is on a cycle is left over. */
  lemma CyclesLeftOver(cs: seq<Container>, w: string)
    requires DistinctIdentifiers(cs) && OnCycle(LinkGraph(cs), w)
    ensures w in Unsorted(cs)
  {
    hide LinkGraph, KeysOf, Order, DistinctIdentifiers, Edge;
    var g := LinkGraph(cs);
    var p :| Cycle(g, p) && w in p;
    var i :| 0 <= i < |p| && p[i] == w;
    if i + 1 < |p| {
      assert Edge(g, p[i], p[i + 1]);
      LinkGraphEdge(cs, p[i], p[i + 1]);
    } else {
      assert Edge(g, p[0], p[1]);
      LinkGraphEdge(cs, p[0], p[1]);
    }
    assert Walk(g, [w]) && [w][0] == w && [w][|[w]| - 1] == w;
    assert Reaches(g, w, w);
    UnsortedIffBehindCycle(cs, w);
  }

  lemma SameNextSameCycles(g: Adjacency, h: Adjacency, start: string, path: seq<string>)
    requires SameNext(g, h)
    ensures ReachesCycle(g, start) <==> ReachesCycle(h, start)
    ensures SimpleCycle(g, path) <==> SimpleCycle(h, path)
  {
    forall p ensures Walk(g, p) <==> Walk(h, p) {
    }
    forall c ensures OnCycle(g, c) <==> OnCycle(h, c) {
      forall p ensures Cycle(g, p) <==> Cycle(h, p) {
      }
    }
    forall u, v ensures Reaches(g, u, v) <==> Reaches(h, u, v) {
    }
  }

  method ProcessedIdentifiers(sorted: seq<Container>, normalizedMap: map<Container, string>)
    returns (processed: set<string>)
    requires forall c :: c in sorted ==> c in normalizedMap && normalizedMap[c] == Identifier(c)
    ensures processed == KeysOf(sorted)
  {
    hide Identifier;
    processed := {};
    for i := 0 to |sorted|
      invariant processed == KeysOf(sorted[..i])
    {
      KeysNext(sorted, i);
      processed := processed + {normalizedMap[sorted[i]]};
    }
    assert sorted[..|sorted|] == sorted;
  }

  method DetectAndReportCycle(sorted: seq<Container>, cs: seq<Container>, g: DependencyGraph)
    returns (error: Option<SortError>)
    requires DistinctIdentifiers(cs) && Represents(g, cs)
    requires Identifiers(sorted) == Order(cs)
    requires forall c :: c in sorted ==> c in cs
    ensures error.None? <==> |sorted| == |cs|
    ensures error.Some? ==> ReportsCycle(cs, error.value)
  {
    hide Identifier, Order, LinkGraph, ReachesCycle, SimpleCycle, DependencyEdges, Indegrees;
    if |sorted| == |cs| {
      return None;
    }
    var processed := ProcessedIdentifiers(sorted, g.normalizedMap);
    var unprocessed := CollectUnprocessed(g.containerMap.Keys, processed);
    SomethingUnsorted(cs);
    var container, path := "", [];
    if |unprocessed| > 0 {
      container := unprocessed[0];
      path := FindCyclePath(container, g.adjacency);
      AdjacencyIsLinkGraph(g, cs);
      SameNextSameCycles(g.adjacency, LinkGraph(cs), container, path);
    }
    error := Some(CircularReference(container, path));
  }

  lemma SomethingUnsorted(cs: seq<Container>)
    requires DistinctIdentifiers(cs) && |Order(cs)| != |cs|
    ensures Unsorted(cs) != {}
  {
    hide Identifier, Order, KeysOf, LinkGraph, HasCycle, Topological, DistinctIdentifiers;
    OrderCompleteIffAcyclic(cs);
    OrderListed(cs);
    assert KeysOf(cs) == Elements(Order(cs)) + Unsorted(cs);
  }

  lemma OrderListed(cs: seq<Container>)
    ensures Elements(Order(cs)) <= KeysOf(cs)
  {
    DependencyEdgesWithin(cs);
    KahnExhausts(KeysOf(cs), DependencyEdges(cs));
  }

  lemma AdjacencyIsLinkGraph(g: DependencyGraph, cs: seq<Container>)
    requires Represents(g, cs)
    ensures SameNext(g.adjacency, LinkGraph(cs))
  {
    hide DependencyEdges, KeysOf;
    DependencyEdgesWithin(cs);
    forall k ensures Next(g.adjacency, k) == Next(LinkGraph(cs), k) {
      if k !in KeysOf(cs) {
        DependentsOutside(KeysOf(cs), DependencyEdges(cs), k);
      }
    }
  }

  method CollectUnprocessed(keys: set<string>, processed: set<string>) returns (unprocessed: seq<string>)
    ensures unprocessed == Ascending(keys - processed)
  {
    hide Lists, SortStrings;
    unprocessed := [];
    NothingListed<string>();
    var rest := keys;
    assert keys - rest - processed == {};
    while rest != {}
      invariant rest <= keys && Lists(unprocessed, keys - rest - processed)
    {
      var id :| id in rest;
      ghost var before := keys - rest - processed;
      rest := rest - {id};
      assert keys - rest - processed == if id in processed then before else before + {id};
      if id !in processed {
        ListsNext(unprocessed, before, id);
        unprocessed := unprocessed + [id];
      }
    }
    assert keys - rest - processed == keys - processed;
    SortStringsAscending(unprocessed, keys - processed);
    unprocessed := SortStrings(unprocessed);
  }

  // ----- the sort

  method SortByDependencies(cs: seq<Container>) returns (r: Result<seq<Container>>)
    ensures r.Success? <==> Sorted(cs).Some?
    ensures r.Success? ==> r.value == Sorted(cs).value
    ensures r.Failure? && DistinctIdentifiers(cs) ==> ReportsCycle(cs, r.error)
    ensures r.Failure? && !DistinctIdentifiers(cs) ==> IsCollision(cs, r.error)
  {
    hide Identifier, Represents, ReportsCycle, IsCollision, KahnOrder;
    var built := BuildDependencyGraph(cs);
    if built.Failure? {
      return Failure(built.error);
    }
    var sorted := ProcessQueue(built.value, cs);
    var error := DetectAndReportCycle(sorted, cs, built.value);
    if error.Some? {
      return Failure(error.value);
    }
    SameOrderSameContainers(cs, sorted, Sorted(cs).value);
    r := Success(sorted);
  }

  lemma SameOrderSameContainers(cs: seq<Container>, a: seq<Container>, b: seq<Container>)
    requires DistinctIdentifiers(cs) && Identifiers(a) == Identifiers(b)
    requires forall c :: c in a || c in b ==> c in cs
    ensures a == b
  {
    hide Identifier;
    assert |Identifiers(a)| == |a| && |Identifiers(b)| == |b|;
    forall i | 0 <= i < |a| ensures a[i] == b[i] {
      assert Identifiers(a)[i] == Identifiers(b)[i];
      UniqueByIdentifier(cs, a[i], b[i]);
    }
  }

  function Regular(cs: seq<Container>): seq<Container> {
    if cs == [] then []
    else
      var n := |cs| - 1;
      Regular(cs[..n]) + if cs[n].isWatchtower then [] else [cs[n]]
  }

  function Watchtowers(cs: seq<Container>): seq<Container> {
    if cs == [] then []
    else
      var n := |cs| - 1;
      Watchtowers(cs[..n]) + if cs[n].isWatchtower then [cs[n]] else []
  }

  /** The list a successful in-place sort leaves behind: regular containers by dependencies,
      then the Watchtower instances in the order they came. */
  ghost function SortedInPlace(cs: seq<Container>): Option<seq<Container>> {
    match Sorted(Regular(cs))
    case None => None
    case Some(regular) => Some(regular + Watchtowers(cs))
  }

  lemma {:induction false} PartitionKeeps(cs: seq<Container>)
    ensures multiset(Regular(cs)) + multiset(Watchtowers(cs)) == multiset(cs)
    ensures forall c :: c in Regular(cs) ==> !c.isWatchtower
    ensures forall c :: c in Watchtowers(cs) ==> c.isWatchtower
  {
    if cs != [] {
      var n := |cs| - 1;
      PartitionKeeps(cs[..n]);
      assert cs == cs[..n] + [cs[n]];
    }
  }

  /** A successful sort permutes the list and keeps the Watchtower instances, in their order, last. */
  lemma SortPermutes(cs: seq<Container>)
    requires SortedInPlace(cs).Some?
    ensures multiset(SortedInPlace(cs).value) == multiset(cs)
    ensures |SortedInPlace(cs).value| == |cs|
    ensures Watchtowers(SortedInPlace(cs).value) == Watchtowers(cs)
    ensures var towers := Watchtowers(cs); towers == SortedInPlace(cs).value[|cs| - |towers|..]
  {
    hide Identifier, Sorted, Watchtowers, Regular;
    var regular, towers := Sorted(Regular(cs)).value, Watchtowers(cs);
    PartitionKeeps(cs);
    DistinctIfSorted(Regular(cs));
    SortExact(Regular(cs));
    SameSize(regular, Regular(cs));
    SameSize(Regular(cs) + towers, cs);
    forall c | c in regular ensures !c.isWatchtower {
      assert c in multiset(regular);
      assert c in multiset(Regular(cs));
    }
    WatchtowersLast(regular, towers);
  }

  lemma SameSize<T>(a: seq<T>, b: seq<T>)
    requires multiset(a) == multiset(b)
    ensures |a| == |b|
  {
    assert |multiset(a)| == |a| && |multiset(b)| == |b|;
  }

  lemma DistinctIfSorted(cs: seq<Container>)
    requires Sorted(cs).Some?
    ensures DistinctIdentifiers(cs)
  {
  }

  lemma {:induction false} WatchtowersLast(regular: seq<Container>, towers: seq<Container>)
    requires forall c :: c in regular ==> !c.isWatchtower
    requires forall c :: c in towers ==> c.isWatchtower
    ensures Watchtowers(regular + towers) == towers
  {
    var r := regular + towers;
    if towers != [] {
      var n := |towers| - 1;
      assert r[..|r| - 1] == regular + towers[..n];
      WatchtowersLast(regular, towers[..n]);
    } else if regular != [] {
      assert r == regular;
      assert regular[..|regular| - 1] + [] == regular[..|regular| - 1];
      WatchtowersLast(regular[..|regular| - 1], []);
    }
  }

  method Partition(cs: seq<Container>) returns (regular: seq<Container>, towers: seq<Container>)
    ensures regular == Regular(cs) && towers == Watchtowers(cs)
  {
    regular, towers := [], [];
    for i := 0 to |cs|
      invariant regular == Regular(cs[..i]) && towers == Watchtowers(cs[..i])
    {
      assert cs[..i + 1][..i] == cs[..i];
      if cs[i].isWatchtower {
        towers := towers + [cs[i]];
      } else {
        regular := regular + [cs[i]];
      }
    }
    assert cs[..|cs|] == cs;
  }

  /** Sorts the slice in place; on an error the slice is left as it was. */
  method Sort(a: array<Container>) returns (error: Option<SortError>)
    modifies a
    ensures error.None? <==> SortedInPlace(old(a[..])).Some?
    ensures a[..] == if error.None? then SortedInPlace(old(a[..])).value else old(a[..])
    ensures error.Some? ==>
              var regular := Regular(old(a[..]));
              if DistinctIdentifiers(regular) then ReportsCycle(regular, error.value)
              else IsCollision(regular, error.value)
  {
    hide Sorted, ReportsCycle, IsCollision, DistinctIdentifiers, Regular, Watchtowers;
    ghost var cs := a[..];
    var regular, towers := Partition(a[..]);
    var r := SortByDependencies(regular);
    if r.Failure? {
      return Some(r.error);
    }
    SortPermutes(cs);
    var sorted := r.value + towers;
    for i := 0 to a.Length
      invariant forall k :: 0 <= k < i ==> a[k] == sorted[k]
    {
      a[i] := sorted[i];
    }
    assert a[..] == sorted;
    error := None;
  }
}
