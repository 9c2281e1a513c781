/** Directed graphs over names: walks, cycles, and the two facts every sort and
    detector below rests on. A ranking rules cycles out, and a non-empty set in
    which every node has a predecessor contains a cycle. */
module Digraph {
  import opened Text

  /** An adjacency list; a missing node has no successors, as in Go. */
  type Adjacency = map<string, seq<string>>

  function Next(g: Adjacency, n: string): seq<string> {
    if n in g then g[n] else []
  }

  predicate Edge(g: Adjacency, u: string, v: string) {
    v in Next(g, u)
  }

  ghost function Nodes(g: Adjacency): set<string> {
    g.Keys + set k, v | k in g && v in g[k] :: v
  }

  lemma EdgeInNodes(g: Adjacency, u: string, v: string)
    requires Edge(g, u, v)
    ensures v in Nodes(g)
  {
    assert u in g && v in g[u];
  }

  ghost predicate Walk(g: Adjacency, p: seq<string>) {
    p != [] && forall i, j :: 0 <= i && j == i + 1 < |p| ==> Edge(g, p[i], p[j])
  }

  ghost predicate Cycle(g: Adjacency, p: seq<string>) {
    |p| > 1 && Walk(g, p) && p[0] == p[|p| - 1]
  }

  ghost predicate HasCycle(g: Adjacency) {
    exists p :: Cycle(g, p)
  }

  ghost predicate OnCycle(g: Adjacency, n: string) {
    exists p :: Cycle(g, p) && n in p
  }

  ghost predicate Reaches(g: Adjacency, u: string, v: string) {
    exists p :: Walk(g, p) && p[0] == u && p[|p| - 1] == v
  }

  /** A cycle can be reached from u. */
  ghost predicate ReachesCycle(g: Adjacency, u: string) {
    exists c :: OnCycle(g, c) && Reaches(g, u, c)
  }

  /** v lies downstream of a cycle. */
  ghost predicate BehindCycle(g: Adjacency, v: string) {
    exists c :: OnCycle(g, c) && Reaches(g, c, v)
  }

  /** Every edge goes forward in the listing. */
  ghost predicate Topological(g: Adjacency, order: seq<string>) {
    forall u, v :: Edge(g, u, v) ==> IndexOf(order, u) < IndexOf(order, v)
  }

  /** Every edge goes backward in the listing. */
  ghost predicate ReverseTopological(g: Adjacency, order: seq<string>) {
    forall u, v :: Edge(g, u, v) ==> IndexOf(order, v) < IndexOf(order, u)
  }

  function IndexOf(s: seq<string>, x: string): (i: nat)
    ensures i <= |s|
    ensures i < |s| <==> x in s
    ensures i < |s| ==> s[i] == x
    ensures forall k :: 0 <= k < i ==> s[k] != x
  {
    if s == [] || s[0] == x then 0 else 1 + IndexOf(s[1..], x)
  }

  lemma IndexOfPrefix(s: seq<string>, i: nat, x: string)
    requires i <= |s| && x in s[..i]
    ensures IndexOf(s, x) < i
  {
    var k :| 0 <= k < i && s[..i][k] == x;
    assert s[k] == x;
  }

  lemma IndexOfDistinct(s: seq<string>, i: nat)
    requires Distinct(s) && i < |s|
    ensures IndexOf(s, s[i]) == i
  {
    var k := IndexOf(s, s[i]);
    assert s[i] in s;
  }

  // ----- walks

  lemma {:induction false} WalkRises(g: Adjacency, rank: string -> int, p: seq<string>)
    requires Walk(g, p)
    requires forall i, j :: 0 <= i && j == i + 1 < |p| ==> rank(p[i]) < rank(p[j])
    ensures |p| > 1 ==> rank(p[0]) < rank(p[|p| - 1])
  {
    if |p| > 2 {
      var q := p[1..];
      assert forall i, j :: 0 <= i && j == i + 1 < |q| ==> q[i] == p[i + 1] && q[j] == p[j + 1];
      WalkRises(g, rank, q);
    }
  }

  /** A graph whose edges all go one way through a listing has no cycle. */
  lemma OrderedAcyclic(g: Adjacency, order: seq<string>)
    requires Topological(g, order) || ReverseTopological(g, order)
    ensures !HasCycle(g)
  {
    var sign := if Topological(g, order) then 1 else -1;
    forall p | Cycle(g, p) ensures false {
      WalkRises(g, x => sign * IndexOf(order, x), p);
    }
  }

  /** Taking edges away makes no cycle. */
  lemma FewerEdges(g: Adjacency, h: Adjacency)
    requires (forall u, v :: Edge(g, u, v) ==> Edge(h, u, v)) && !HasCycle(h)
    ensures !HasCycle(g)
  {
    hide Edge;
    forall p ensures Cycle(g, p) ==> Cycle(h, p) {
    }
  }

  lemma WalkPrepend(g: Adjacency, u: string, p: seq<string>)
    requires Walk(g, p) && Edge(g, u, p[0])
    ensures Walk(g, [u] + p)
  {
    var q := [u] + p;
    assert forall i :: 0 < i < |q| ==> q[i] == p[i - 1];
  }

  lemma WalkSlice(g: Adjacency, p: seq<string>, i: nat, j: nat)
    requires Walk(g, p) && i < j <= |p|
    ensures Walk(g, p[i..j])
  {
    var q := p[i..j];
    assert forall k :: 0 <= k < |q| ==> q[k] == p[i + k];
  }

  lemma WalkAppend(g: Adjacency, p: seq<string>, v: string)
    requires Walk(g, p) && Edge(g, p[|p| - 1], v)
    ensures Walk(g, p + [v])
  {
  }

  /** A cycle can be entered at any of its nodes. */
  lemma CycleAt(g: Adjacency, q: seq<string>, c: string)
    requires Cycle(g, q) && c in q
    ensures exists k :: Cycle(g, k) && k[0] == c
  {
    var i :| 0 <= i < |q| && q[i] == c;
    if 0 < i < |q| - 1 {
      WalkSlice(g, q, i, |q|);
      WalkSlice(g, q, 1, i + 1);
      var k := q[i..] + q[1..i + 1];
      WalkConcat(g, q[i..], q[1..i + 1]);
      assert Cycle(g, k) && k[0] == c;
    } else {
      assert Cycle(g, q) && q[0] == c;
    }
  }

  lemma WalkConcat(g: Adjacency, p: seq<string>, q: seq<string>)
    requires Walk(g, p) && Walk(g, q) && Edge(g, p[|p| - 1], q[0])
    ensures Walk(g, p + q)
  {
  }

  /** A cycle read from its node i + 1 on; node i comes last but one. */
  lemma RotateCycle(g: Adjacency, p: seq<string>, i: nat) returns (q: seq<string>)
    requires Cycle(g, p) && i + 1 < |p|
    ensures Cycle(g, q) && |q| == |p| && q[0] == p[i + 1] && q[|q| - 2] == p[i] && Elements(q) == Elements(p)
  {
    var n := |p| - 1;
    if i + 1 == n {
      q := p;
    } else {
      WalkSlice(g, p, i + 1, n + 1);
      WalkSlice(g, p, 1, i + 2);
      q := p[i + 1..] + p[1..i + 2];
      WalkConcat(g, p[i + 1..], p[1..i + 2]);
      assert p[0] == p[n];
      forall x | x in p ensures x in q {
        var k :| 0 <= k < |p| && p[k] == x;
        if k == 0 {
          assert x == q[n - i - 1];
        } else if k <= i {
          assert x == q[n - i - 1 + k];
        } else {
          assert x == q[k - i - 1];
        }
      }
    }
  }

  /** An edge to p[i + 1] from another node of the cycle than p[i] cuts the cycle short. */
  lemma CutCycle(g: Adjacency, p: seq<string>, i: nat, other: string) returns (q: seq<string>)
    requires Cycle(g, p) && i + 1 < |p| && other in p && other != p[i]
    requires Edge(g, other, p[i + 1])
    ensures Cycle(g, q) && |q| < |p|
  {
    var r := RotateCycle(g, p, i);
    assert other in Elements(r);
    var k :| 0 <= k < |r| - 1 && r[k] == other;
    WalkSlice(g, r, 0, k + 1);
    WalkAppend(g, r[..k + 1], r[0]);
    q := r[..k + 1] + [r[0]];
  }

  /** A node set closed under successors keeps every walk that starts inside it. */
  lemma {:induction false} ClosedKeepsWalk(g: Adjacency, s: set<string>, p: seq<string>)
    requires Walk(g, p) && p[0] in s
    requires forall u, v :: u in s && Edge(g, u, v) ==> v in s
    ensures forall x :: x in p ==> x in s
  {
    if |p| > 1 {
      WalkSlice(g, p, 1, |p|);
      ClosedKeepsWalk(g, s, p[1..]);
      assert p == [p[0]] + p[1..];
    }
  }

  /** A node set closed under predecessors keeps every walk that ends inside it. */
  lemma {:induction false} ClosedKeepsWalkBack(g: Adjacency, s: set<string>, p: seq<string>)
    requires Walk(g, p) && p[|p| - 1] in s
    requires forall u, v :: v in s && Edge(g, u, v) ==> u in s
    ensures forall x :: x in p ==> x in s
  {
    if |p| > 1 {
      var n := |p| - 1;
      WalkSlice(g, p, 0, n);
      assert Edge(g, p[n - 1], p[n]);
      ClosedKeepsWalkBack(g, s, p[..n]);
      assert p == p[..n] + [p[n]];
    }
  }

  lemma CloseCycle(g: Adjacency, q: seq<string>)
    requires Walk(g, q) && q[0] in q[1..]
    ensures BehindCycle(g, q[|q| - 1])
  {
    var k :| 0 <= k < |q[1..]| && q[1..][k] == q[0];
    var c := q[..k + 2];
    WalkSlice(g, q, 0, k + 2);
    assert Cycle(g, c) && c[0] == q[0] && q[0] in c;
    assert OnCycle(g, q[0]) && Reaches(g, q[0], q[|q| - 1]);
  }

  ghost predicate HasPredecessorIn(g: Adjacency, s: set<string>, x: string) {
    exists u :: u in s && Edge(g, u, x)
  }

  /** The pigeonhole step: following predecessors inside s must close a cycle. */
  lemma {:induction false} CycleBehind(g: Adjacency, s: set<string>, p: seq<string>)
    requires Walk(g, p) && Elements(p) <= s
    requires forall x {:trigger HasPredecessorIn(g, s, x)} :: x in s ==> HasPredecessorIn(g, s, x)
    ensures BehindCycle(g, p[|p| - 1])
    decreases s - Elements(p)
  {
    assert p[0] in Elements(p) && HasPredecessorIn(g, s, p[0]);
    var u :| u in s && Edge(g, u, p[0]);
    WalkPrepend(g, u, p);
    var q := [u] + p;
    assert q[|q| - 1] == p[|p| - 1];
    if u in p {
      CloseCycle(g, q);
    } else {
      assert Elements(q) == Elements(p) + {u};
      CycleBehind(g, s, q);
    }
  }

  /** Graphs that agree on every successor list have the same walks. */
  ghost predicate SameNext(g: Adjacency, h: Adjacency) {
    forall n :: Next(g, n) == Next(h, n)
  }

  /** A cycle read backward, its nodes renamed, is a cycle of any graph that holds the renamed
      reversed edges. */
  lemma MappedCycle(g: Adjacency, h: Adjacency, f: string -> string, p: seq<string>)
    requires Cycle(g, p)
    requires forall u, v :: Edge(g, u, v) ==> Edge(h, f(v), f(u))
    ensures Cycle(h, Keys(f, Reverse(p)))
  {
    var q := Keys(f, Reverse(p));
    forall i, j | 0 <= i && j == i + 1 < |q| ensures Edge(h, q[i], q[j]) {
      assert Edge(g, p[|p| - 1 - j], p[|p| - 1 - i]);
    }
  }

  lemma ReversedCycle(g: Adjacency, h: Adjacency, p: seq<string>)
    requires Cycle(g, p)
    requires forall u, v :: Edge(g, u, v) ==> Edge(h, v, u)
    ensures Cycle(h, Reverse(p)) && forall x :: x in Reverse(p) ==> x in p
  {
    MappedCycle(g, h, Self, p);
    KeysSelf(Reverse(p));
  }
}
