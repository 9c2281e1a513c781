/** The queue loop of the dependency sort as a function, and why it is exact: it lists a
    node only after all its dependencies, and what it leaves out lies behind a cycle. */
module Kahn {
  import opened Text
  import opened Digraph
  import opened LinkResolution

  /** How many edges into v come from nodes outside done, duplicates counted. */
  ghost function Remaining(edges: seq<Link>, done: set<string>, v: string): nat {
    if edges == [] then 0
    else
      var n := |edges| - 1;
      Remaining(edges[..n], done, v) + if edges[n].dependent == v && edges[n].dependency !in done then 1 else 0
  }

  /** One pass of the inner loop: every dependent loses one from its indegree, and joins the
      queue when nothing is left. */
  function Relax(indegree: map<string, int>, queue: seq<string>, dependents: seq<string>)
    : (map<string, int>, seq<string>)
    decreases dependents
  {
    if dependents == [] then (indegree, queue)
    else
      var d := dependents[0];
      var left := (if d in indegree then indegree[d] else 0) - 1;
      Relax(indegree[d := left], if left == 0 then queue + [d] else queue, dependents[1..])
  }

  /** The outer loop, from any state; fuel bounds the number of rounds. */
  ghost function Drain(edges: seq<Link>, indegree: map<string, int>, queue: seq<string>, done: seq<string>, fuel: nat)
    : seq<string>
    decreases fuel
  {
    if queue == [] || fuel == 0 then done
    else
      var (next, more) := Relax(indegree, queue[1..], Dependents(edges, queue[0]));
      Drain(edges, next, more, done + [queue[0]], fuel - 1)
  }

  ghost function Indegrees(keys: set<string>, edges: seq<Link>): map<string, int> {
    map k | k in keys :: Remaining(edges, {}, k)
  }

  ghost function Sources(indegree: map<string, int>): set<string> {
    set k | k in indegree && indegree[k] == 0
  }

  /** Nodes without dependencies, in reverse alphabetical order. */
  ghost function InitialQueue(indegree: map<string, int>): seq<string> {
    Reverse(Ascending(Sources(indegree)))
  }

  /** The order the whole algorithm produces. */
  ghost function KahnOrder(keys: set<string>, edges: seq<Link>): seq<string> {
    Drain(edges, Indegrees(keys, edges), InitialQueue(Indegrees(keys, edges)), [], |keys|)
  }

  lemma DrainRound(edges: seq<Link>, indegree: map<string, int>, queue: seq<string>, done: seq<string>, fuel: nat)
    requires queue != [] && fuel > 0
    ensures var (next, more) := Relax(indegree, queue[1..], Dependents(edges, queue[0]));
            Drain(edges, indegree, queue, done, fuel) == Drain(edges, next, more, done + [queue[0]], fuel - 1)
  {
  }

  lemma DrainDone(edges: seq<Link>, indegree: map<string, int>, done: seq<string>, fuel: nat)
    ensures Drain(edges, indegree, [], done, fuel) == done
  {
  }

  // ----- the loop invariant

  /** Each indegree counts the edges from unprocessed nodes plus those still to be taken off. */
  ghost predicate Balanced(keys: set<string>, edges: seq<Link>, indegree: map<string, int>,
                           done: set<string>, pending: multiset<string>)
  {
    indegree.Keys == keys && forall v :: v in keys ==> indegree[v] == Remaining(edges, done, v) + pending[v]
  }

  /** Processed and queued nodes are exactly those whose indegree is zero, each once. */
  ghost predicate Queued(keys: set<string>, indegree: map<string, int>, listed: seq<string>) {
    && indegree.Keys == keys
    && Distinct(listed)
    && Elements(listed) <= keys
    && forall v :: v in keys ==> (indegree[v] == 0 <==> v in listed)
  }

  /** Every dependency of a processed node was processed before it. */
  ghost predicate Settled(edges: seq<Link>, done: seq<string>) {
    forall i, e :: 0 <= i < |done| && e in edges && e.dependent == done[i] ==> e.dependency in done[..i]
  }

  ghost predicate KahnInvariant(keys: set<string>, edges: seq<Link>, indegree: map<string, int>,
                                queue: seq<string>, done: seq<string>)
  {
    && Balanced(keys, edges, indegree, Elements(done), multiset{})
    && Queued(keys, indegree, done + queue)
    && Settled(edges, done)
  }

  lemma {:induction false} RemainingStep(edges: seq<Link>, done: set<string>, u: string, v: string)
    requires u !in done
    ensures Remaining(edges, done, v) == Remaining(edges, done + {u}, v) + multiset(Dependents(edges, u))[v]
  {
    if edges != [] {
      RemainingStep(edges[..|edges| - 1], done, u, v);
    }
  }

  lemma {:induction false} RemainingZero(edges: seq<Link>, done: set<string>, v: string)
    ensures Remaining(edges, done, v) == 0 <==>
            forall e :: e in edges && e.dependent == v ==> e.dependency in done
  {
    if edges != [] {
      var n := |edges| - 1;
      RemainingZero(edges[..n], done, v);
      assert edges == edges[..n] + [edges[n]];
    }
  }

  lemma FirstDependent(dependents: seq<string>)
    requires dependents != []
    ensures dependents[0] in Elements(dependents) && Elements(dependents[1..]) <= Elements(dependents)
    ensures multiset(dependents) == multiset{dependents[0]} + multiset(dependents[1..])
  {
    assert dependents == [dependents[0]] + dependents[1..];
  }

  lemma {:induction false} RelaxKeeps(keys: set<string>, edges: seq<Link>, indegree: map<string, int>,
                                      done: seq<string>, queue: seq<string>, dependents: seq<string>)
    requires Elements(dependents) <= keys
    requires Balanced(keys, edges, indegree, Elements(done), multiset(dependents))
    requires Queued(keys, indegree, done + queue)
    ensures var (next, more) := Relax(indegree, queue, dependents);
            && Balanced(keys, edges, next, Elements(done), multiset{})
            && Queued(keys, next, done + more)
    decreases dependents
  {
    hide Queued, Remaining;
    if dependents != [] {
      var d, rest := dependents[0], dependents[1..];
      FirstDependent(dependents);
      var left := indegree[d] - 1;
      var next := indegree[d := left];
      var more := if left == 0 then queue + [d] else queue;
      QueueGrows(keys, indegree, done + queue, d);
      assert done + (queue + [d]) == done + queue + [d];
      RelaxKeeps(keys, edges, next, done, more, rest);
    }
  }

  lemma QueueGrows(keys: set<string>, indegree: map<string, int>, listed: seq<string>, d: string)
    requires Queued(keys, indegree, listed) && d in keys && indegree[d] > 0
    ensures Queued(keys, indegree[d := indegree[d] - 1], if indegree[d] == 1 then listed + [d] else listed)
  {
    assert d !in listed;
    assert Elements(listed + [d]) == Elements(listed) + {d};
  }

  lemma StepKeeps(keys: set<string>, edges: seq<Link>, indegree: map<string, int>, queue: seq<string>,
                  done: seq<string>)
    requires EdgesWithin(keys, edges)
    requires KahnInvariant(keys, edges, indegree, queue, done) && queue != []
    ensures var (next, more) := Relax(indegree, queue[1..], Dependents(edges, queue[0]));
            KahnInvariant(keys, edges, next, more, done + [queue[0]])
  {
    var u, rest := queue[0], queue[1..];
    var listed := done + queue;
    assert listed[|done|] == u && u in Elements(listed);
    assert forall i :: 0 <= i < |done| ==> listed[i] == done[i];
    var done' := done + [u];
    assert done' + rest == listed;
    assert Elements(done') == Elements(done) + {u};
    forall v | v in keys
      ensures indegree[v] == Remaining(edges, Elements(done'), v) + multiset(Dependents(edges, u))[v]
    {
      RemainingStep(edges, Elements(done), u, v);
    }
    forall v | v in Dependents(edges, u) ensures v in keys {
      DependentsMember(edges, u, v);
      assert Link(u, v).dependent == v;
    }
    RelaxKeeps(keys, edges, indegree, done', rest, Dependents(edges, u));
    RemainingZero(edges, Elements(done), u);
    SettledGrows(edges, done, u);
  }

  lemma SettledGrows(edges: seq<Link>, done: seq<string>, u: string)
    requires Settled(edges, done)
    requires forall e :: e in edges && e.dependent == u ==> e.dependency in Elements(done)
    ensures Settled(edges, done + [u])
  {
    var done' := done + [u];
    forall i, e | 0 <= i < |done'| && e in edges && e.dependent == done'[i] ensures e.dependency in done'[..i] {
      assert done'[..i] == done[..i];
      assert done[..|done|] == done;
    }
  }

  lemma InitialQueueLists(indegree: map<string, int>)
    ensures Distinct(InitialQueue(indegree))
    ensures Elements(InitialQueue(indegree)) == Sources(indegree)
  {
    var sources := Ascending(Sources(indegree));
    AscendsDistinct(sources);
    ReverseElements(sources);
    assert forall v :: v in InitialQueue(indegree) <==> v in Elements(sources);
  }

  lemma InitialInvariant(keys: set<string>, edges: seq<Link>)
    ensures KahnInvariant(keys, edges, Indegrees(keys, edges), InitialQueue(Indegrees(keys, edges)), [])
  {
    var indegree := Indegrees(keys, edges);
    var queue := InitialQueue(indegree);
    InitialQueueLists(indegree);
    assert [] + queue == queue;
    assert Elements<string>([]) == {};
    forall v | v in keys ensures indegree[v] == 0 <==> v in queue {
      assert v in Elements(queue) <==> v in Sources(indegree);
    }
  }

  lemma ReverseElements(s: seq<string>)
    requires Distinct(s)
    ensures Distinct(Reverse(s)) && forall x :: x in Reverse(s) <==> x in s
  {
    var r := Reverse(s);
    forall x | x in s ensures x in r {
      var i :| 0 <= i < |s| && s[i] == x;
      assert r[|s| - 1 - i] == x;
    }
  }

  // ----- what the final order is

  /** The listing is without repetition, inside keys, dependencies first, and every node it
      misses still waits for a node it also misses. */
  ghost predicate Exhausted(keys: set<string>, edges: seq<Link>, order: seq<string>) {
    && Distinct(order)
    && Elements(order) <= keys
    && Settled(edges, order)
    && forall v {:trigger Waits(edges, order, v)} :: v in keys && v !in order ==> Waits(edges, order, v)
  }

  ghost predicate Waits(edges: seq<Link>, order: seq<string>, v: string) {
    exists e :: e in edges && e.dependent == v && e.dependency !in order
  }

  lemma {:induction false} DrainExhausts(keys: set<string>, edges: seq<Link>, indegree: map<string, int>,
                                         queue: seq<string>, done: seq<string>, fuel: nat)
    requires EdgesWithin(keys, edges)
    requires KahnInvariant(keys, edges, indegree, queue, done)
    requires |done| + fuel >= |keys|
    ensures Exhausted(keys, edges, Drain(edges, indegree, queue, done, fuel))
    decreases fuel
  {
    RoomLeft(keys, done + queue);
    if queue == [] {
      assert done + queue == done;
      forall v | v in keys && v !in done
        ensures Waits(edges, done, v)
      {
        RemainingZero(edges, Elements(done), v);
      }
    } else {
      StepKeeps(keys, edges, indegree, queue, done);
      var (next, more) := Relax(indegree, queue[1..], Dependents(edges, queue[0]));
      DrainExhausts(keys, edges, next, more, done + [queue[0]], fuel - 1);
    }
  }

  lemma RoomLeft(keys: set<string>, listed: seq<string>)
    requires Distinct(listed) && Elements(listed) <= keys
    ensures |listed| <= |keys|
    ensures |listed| == |keys| ==> Elements(listed) == keys
  {
    DistinctSize(listed);
    assert keys == Elements(listed) + (keys - Elements(listed));
  }

  lemma KahnExhausts(keys: set<string>, edges: seq<Link>)
    requires EdgesWithin(keys, edges)
    ensures Exhausted(keys, edges, KahnOrder(keys, edges))
  {
    InitialInvariant(keys, edges);
    DrainExhausts(keys, edges, Indegrees(keys, edges), InitialQueue(Indegrees(keys, edges)), [], |keys|);
  }

  /** A complete listing is a topological order. */
  lemma CompleteIsTopological(keys: set<string>, edges: seq<Link>, order: seq<string>)
    requires EdgesWithin(keys, edges) && Exhausted(keys, edges, order) && Elements(order) == keys
    ensures Topological(EdgeGraph(keys, edges), order)
  {
    var g := EdgeGraph(keys, edges);
    forall u, v | Edge(g, u, v) ensures IndexOf(order, u) < IndexOf(order, v) {
      EdgeGraphEdge(keys, edges, u, v);
      assert Link(u, v).dependent == v && v in Elements(order);
      var i := IndexOf(order, v);
      assert Link(u, v).dependency in order[..i];
      IndexOfPrefix(order, i, u);
    }
  }

  /** What the listing misses is exactly what lies behind a cycle. */
  lemma MissedIffBehindCycle(keys: set<string>, edges: seq<Link>, order: seq<string>, v: string)
    requires EdgesWithin(keys, edges) && Exhausted(keys, edges, order) && v in keys
    ensures v !in order <==> BehindCycle(EdgeGraph(keys, edges), v)
  {
    var g := EdgeGraph(keys, edges);
    if v !in order {
      var missed := keys - Elements(order);
      forall x | x in missed ensures HasPredecessorIn(g, missed, x) {
        assert Waits(edges, order, x);
        var e :| e in edges && e.dependent == x && e.dependency !in order;
        assert e == Link(e.dependency, x);
        EdgeGraphEdge(keys, edges, e.dependency, x);
        assert e.dependency in missed;
      }
      CycleBehind(g, missed, [v]);
    } else if BehindCycle(g, v) {
      ListedHasNoCycleBehind(keys, edges, order, v);
    }
  }

  lemma ListedHasNoCycleBehind(keys: set<string>, edges: seq<Link>, order: seq<string>, v: string)
    requires EdgesWithin(keys, edges) && Exhausted(keys, edges, order) && v in order
    ensures !BehindCycle(EdgeGraph(keys, edges), v)
  {
    var g := EdgeGraph(keys, edges);
    forall c | OnCycle(g, c) && Reaches(g, c, v) ensures false {
      forall x, y | y in Elements(order) && Edge(g, x, y)
        ensures x in Elements(order) && IndexOf(order, x) < IndexOf(order, y)
      {
        EdgeGraphEdge(keys, edges, x, y);
        var i := IndexOf(order, y);
        assert Link(x, y).dependent == y && Link(x, y).dependency in order[..i];
        IndexOfPrefix(order, i, x);
      }
      var p :| Walk(g, p) && p[0] == c && p[|p| - 1] == v;
      ClosedKeepsWalkBack(g, Elements(order), p);
      var q :| Cycle(g, q) && c in q;
      CycleAt(g, q, c);
      var k :| Cycle(g, k) && k[0] == c;
      ClosedKeepsWalkBack(g, Elements(order), k);
      WalkRises(g, x => IndexOf(order, x), k);
    }
  }
}
