/** How the sorter turns link names into edges between the listed containers:
    exact name, then replica suffix, then a unique service name (pkg/sorter/dependency.go). */
module LinkResolution {
  import opened Text
  import opened Digraph
  import opened Containers

  predicate AllDigits(s: string) {
    forall i :: 0 <= i < |s| ==> '0' <= s[i] <= '9'
  }

  function Value(digits: string): nat
    requires AllDigits(digits)
  {
    if digits == "" then 0
    else
      var n := |digits| - 1;
      10 * Value(digits[..n]) + (digits[n] - '0') as nat
  }

  const MAX_INT: nat := 0x7fff_ffff_ffff_ffff

  /** strconv.Atoi succeeds with a value above zero: an optional plus sign, then digits
      whose value fits a 64-bit integer. */
  predicate IsPositiveInteger(s: string) {
    var digits := if "+" <= s then s[1..] else s;
    digits != "" && AllDigits(digits) && 0 < Value(digits) <= MAX_INT
  }

  function ExtractServiceName(identifier: string): string {
    var parts := Split(identifier, '-');
    if |parts| > 1 && IsPositiveInteger(parts[|parts| - 1]) then parts[|parts| - 2]
    else parts[|parts| - 1]
  }

  predicate ReplicaOf(key: string, link: string) {
    link + "-" <= key && IsPositiveInteger(key[|link| + 1..])
  }

  ghost function Replicas(keys: set<string>, link: string): set<string> {
    set k | k in keys && ReplicaOf(k, link)
  }

  ghost function ServiceMatches(keys: set<string>, link: string): set<string> {
    set k | k in keys && ExtractServiceName(k) == link
  }

  /** The identifiers a link stands for, before the dependent itself is taken out. */
  ghost function Candidates(keys: set<string>, link: string): seq<string> {
    if link in keys then [link]
    else if Replicas(keys, link) != {} then Ascending(Replicas(keys, link))
    else if |ServiceMatches(keys, link)| == 1 then Ascending(ServiceMatches(keys, link))
    else []
  }

  ghost function Targets(keys: set<string>, self: string, link: string): seq<string> {
    WithoutSelf(Candidates(keys, link), self)
  }

  lemma TargetsAreKeys(keys: set<string>, self: string, link: string)
    ensures forall t :: t in Targets(keys, self, link) ==> t in keys && t != self
  {
    forall t | t in Targets(keys, self, link) ensures t in keys {
      assert t in Elements(Candidates(keys, link));
    }
  }

  // ----- edges, in the order the sorter adds them; duplicates stay

  datatype Link = Link(dependency: string, dependent: string)

  ghost function LinksTo(targets: seq<string>, self: string): seq<Link> {
    if targets == [] then []
    else LinksTo(targets[..|targets| - 1], self) + [Link(targets[|targets| - 1], self)]
  }

  ghost function EdgesOfLink(keys: set<string>, self: string): string -> seq<Link> {
    link => LinksTo(Targets(keys, self, link), self)
  }

  ghost function EdgesOfContainer(keys: set<string>): Container -> seq<Link> {
    (c: Container) => Collect(EdgesOfLink(keys, Identifier(c)), Links(c))
  }

  ghost function KeysOf(cs: seq<Container>): set<string> {
    Elements(Identifiers(cs))
  }

  ghost function DependencyEdges(cs: seq<Container>): seq<Link> {
    Collect(EdgesOfContainer(KeysOf(cs)), cs)
  }

  ghost function Dependents(edges: seq<Link>, u: string): seq<string> {
    if edges == [] then []
    else
      var n := |edges| - 1;
      Dependents(edges[..n], u) + if edges[n].dependency == u then [edges[n].dependent] else []
  }

  /** The resolved link graph: from each dependency to its dependents. */
  ghost function LinkGraph(cs: seq<Container>): Adjacency {
    EdgeGraph(KeysOf(cs), DependencyEdges(cs))
  }

  ghost function EdgeGraph(keys: set<string>, edges: seq<Link>): Adjacency {
    map k | k in keys :: Dependents(edges, k)
  }

  ghost predicate EdgesWithin(keys: set<string>, edges: seq<Link>) {
    forall e :: e in edges ==> e.dependency in keys && e.dependent in keys && e.dependency != e.dependent
  }

  /** Some link of c resolves to the identifier t. */
  ghost predicate LinksToKey(keys: set<string>, c: Container, t: string) {
    exists link :: link in Links(c) && t in Targets(keys, Identifier(c), link)
  }

  // ----- what the edges mean

  lemma {:induction false} DependentsMember(edges: seq<Link>, u: string, v: string)
    ensures v in Dependents(edges, u) <==> Link(u, v) in edges
  {
    if edges != [] {
      var n := |edges| - 1;
      DependentsMember(edges[..n], u, v);
      assert edges == edges[..n] + [edges[n]];
    }
  }

  lemma {:induction false} LinksToMember(targets: seq<string>, self: string, e: Link)
    ensures e in LinksTo(targets, self) <==> e.dependent == self && e.dependency in targets
  {
    if targets != [] {
      var n := |targets| - 1;
      LinksToMember(targets[..n], self, e);
      assert targets == targets[..n] + [targets[n]];
    }
  }

  lemma ContainerEdgesMember(keys: set<string>, c: Container, e: Link)
    ensures e in EdgesOfContainer(keys)(c) <==> e.dependent == Identifier(c) && LinksToKey(keys, c, e.dependency)
  {
    var self := Identifier(c);
    CollectMember(EdgesOfLink(keys, self), Links(c), e);
    forall link | link in Links(c)
      ensures e in EdgesOfLink(keys, self)(link) <==> e.dependent == self && e.dependency in Targets(keys, self, link)
    {
      LinksToMember(Targets(keys, self, link), self, e);
    }
  }

  lemma DependencyEdgesMember(cs: seq<Container>, e: Link)
    ensures e in DependencyEdges(cs) <==>
            exists c :: c in cs && e.dependent == Identifier(c) && LinksToKey(KeysOf(cs), c, e.dependency)
  {
    var keys := KeysOf(cs);
    CollectMember(EdgesOfContainer(keys), cs, e);
    forall c | c in cs
      ensures e in EdgesOfContainer(keys)(c) <==>
              e.dependent == Identifier(c) && LinksToKey(keys, c, e.dependency)
    {
      ContainerEdgesMember(keys, c, e);
    }
  }

  lemma {:induction false} DependentsOutside(keys: set<string>, edges: seq<Link>, u: string)
    requires EdgesWithin(keys, edges) && u !in keys
    ensures Dependents(edges, u) == []
  {
    if edges != [] {
      var n := |edges| - 1;
      assert edges[n] in edges;
      DependentsOutside(keys, edges[..n], u);
    }
  }

  lemma EdgeGraphEdge(keys: set<string>, edges: seq<Link>, u: string, v: string)
    requires EdgesWithin(keys, edges)
    ensures Edge(EdgeGraph(keys, edges), u, v) <==> Link(u, v) in edges
  {
    DependentsMember(edges, u, v);
    assert Link(u, v).dependency == u;
  }

  lemma DependencyEdgesWithin(cs: seq<Container>)
    ensures EdgesWithin(KeysOf(cs), DependencyEdges(cs))
  {
    hide Identifier, Links, Targets, DependencyEdges;
    var keys := KeysOf(cs);
    forall e | e in DependencyEdges(cs)
      ensures e.dependency in keys && e.dependent in keys && e.dependency != e.dependent
    {
      DependencyEdgesMember(cs, e);
      var c :| c in cs && e.dependent == Identifier(c) && LinksToKey(keys, c, e.dependency);
      IdentifierListed(cs, c);
      var link :| link in Links(c) && e.dependency in Targets(keys, Identifier(c), link);
      TargetsAreKeys(keys, Identifier(c), link);
    }
  }

  lemma IdentifierListed(cs: seq<Container>, c: Container)
    requires c in cs
    ensures Identifier(c) in KeysOf(cs)
  {
    var i :| 0 <= i < |cs| && cs[i] == c;
    assert Identifiers(cs)[i] == Identifier(c);
  }

  /** An edge of the graph is a link that resolves, and every link that resolves is an edge;
      no container ever depends on itself. */
  lemma LinkGraphEdge(cs: seq<Container>, u: string, v: string)
    ensures Edge(LinkGraph(cs), u, v) <==>
            exists c :: c in cs && v == Identifier(c) && LinksToKey(KeysOf(cs), c, u)
    ensures Edge(LinkGraph(cs), u, v) ==> u in KeysOf(cs) && v in KeysOf(cs) && u != v
  {
    DependencyEdgesWithin(cs);
    EdgeGraphEdge(KeysOf(cs), DependencyEdges(cs), u, v);
    DependencyEdgesMember(cs, Link(u, v));
    assert Link(u, v).dependency == u && Link(u, v).dependent == v;
  }
}
