/** Why Update may sort twice (internal/actions/update.go): the containers to restart form a
    subgraph that the first sort, or failing that the cycle detector, has made acyclic. */
module Planner {
  import opened Text
  import opened Digraph
  import opened Containers
  import opened LinkResolution
  import opened GraphBuilder
  import opened Sorter
  import opened CycleDetection
  import opened DetectCycles
  import opened LinkStability

  /** No link stands for a replica or a bare service name: it names its container or nothing. */
  ghost predicate ExactLinks(cs: seq<Container>) {
    forall c, link, k :: c in cs && link in Links(c) && k in KeysOf(cs) && k != link ==>
      !ReplicaOf(k, link) && ExtractServiceName(k) != link
  }

  /** Identifiers carry no slash to strip, and no container's name is the identifier of another. */
  ghost predicate PlainNames(cs: seq<Container>) {
    && (forall c :: c in cs ==> Identifier(c) == ResolveContainerIdentifier(c))
    && (forall c, d :: c in cs && d in cs && c.name == ResolveContainerIdentifier(d) ==> c == d)
  }

  lemma ExactTargets(keys: set<string>, self: string, link: string, t: string)
    requires forall k :: k in keys && k != link ==> !ReplicaOf(k, link) && ExtractServiceName(k) != link
    requires t in Targets(keys, self, link)
    ensures t == link && link in keys && t != self
  {
    TargetsAreKeys(keys, self, link);
    if link !in keys {
      NoCandidates(keys, link);
    }
  }

  lemma NoCandidates(keys: set<string>, link: string)
    requires link !in keys
    requires forall k :: k in keys ==> !ReplicaOf(k, link) && ExtractServiceName(k) != link
    ensures Candidates(keys, link) == []
  {
    assert Replicas(keys, link) == {} && ServiceMatches(keys, link) == {};
  }

  /** With exact links, an edge between listed containers is a link that spells an identifier. */
  lemma ExactEdge(cs: seq<Container>, sub: seq<Container>, u: string, v: string)
    requires ExactLinks(cs) && (forall c :: c in sub ==> c in cs) && KeysOf(sub) <= KeysOf(cs)
    requires Edge(LinkGraph(sub), u, v)
    ensures exists c :: c in sub && Identifier(c) == v && u in Links(c)
    ensures u in KeysOf(sub) && v in KeysOf(sub)
    ensures Edge(LinkGraph(cs), u, v)
  {
    hide Identifier, Links, Targets, ReplicaOf, ExtractServiceName, LinkGraph, KeysOf;
    LinkGraphEdge(sub, u, v);
    var c :| c in sub && v == Identifier(c) && LinksToKey(KeysOf(sub), c, u);
    var link :| link in Links(c) && u in Targets(KeysOf(sub), Identifier(c), link);
    ExactTargets(KeysOf(sub), Identifier(c), link, u);
    NamedTarget(KeysOf(cs), v, u);
    assert LinksToKey(KeysOf(cs), c, u);
    LinkGraphEdge(cs, u, v);
  }

  lemma NamedTarget(keys: set<string>, self: string, link: string)
    requires link in keys && link != self
    ensures link in Targets(keys, self, link)
  {
  }

  // ----- the cycle detector's graph

  lemma {:induction false} AliasesOfIdentifiers(cs: seq<Container>, d: Container)
    requires PlainNames(cs) && d in cs
    ensures var id := ResolveContainerIdentifier(d); id in Aliases(cs) && Aliases(cs)[id] == id
  {
    hide ResolveContainerIdentifier, Identifier;
    var n := |cs| - 1;
    var id := ResolveContainerIdentifier(d);
    if cs[n].name != id && ResolveContainerIdentifier(cs[n]) != id {
      assert d in cs[..n];
      AliasesOfIdentifiers(cs[..n], d);
    } else if cs[n].name == id {
      assert cs[n] == d;
    }
  }

  lemma {:induction false} RawGraphAt(aliases: map<string, string>, cs: seq<Container>, c: Container)
    requires c in cs
    requires forall d, e :: d in cs && e in cs && ResolveContainerIdentifier(d) == ResolveContainerIdentifier(e) ==>
               d == e
    ensures var id := ResolveContainerIdentifier(c); var raw := RawGraph(aliases, cs);
            id in raw && raw[id] == Collect(Canonical(aliases), Links(c))
  {
    hide ResolveContainerIdentifier, Links;
    var n := |cs| - 1;
    if cs[n] != c {
      assert c in cs[..n];
      RawGraphAt(aliases, cs[..n], c);
    }
  }

  /** A link that spells the identifier of a listed container is an edge of the detector's graph. */
  lemma DetectorEdge(cs: seq<Container>, c: Container, d: Container)
    requires DistinctIdentifiers(cs) && PlainNames(cs)
    requires c in cs && d in cs && ResolveContainerIdentifier(d) in Links(c)
    ensures Edge(DetectorGraph(cs), ResolveContainerIdentifier(c), ResolveContainerIdentifier(d))
  {
    hide ResolveContainerIdentifier, Identifier, Links, Aliases, RawGraph;
    var u, v := ResolveContainerIdentifier(c), ResolveContainerIdentifier(d);
    var aliases := Aliases(cs);
    var raw := RawGraph(aliases, cs);
    forall a, b | a in cs && b in cs && ResolveContainerIdentifier(a) == ResolveContainerIdentifier(b) ensures a == b {
      UniqueByIdentifier(cs, a, b);
    }
    RawGraphAt(aliases, cs, c);
    RawGraphAt(aliases, cs, d);
    AliasesOfIdentifiers(cs, d);
    CollectMember(Canonical(aliases), Links(c), v);
    CollectMember(Known(raw.Keys), raw[u], v);
  }

  lemma {:induction false} AliasOfName(cs: seq<Container>, d: Container)
    requires d in cs
    requires forall e :: e in cs && (e.name == d.name || ResolveContainerIdentifier(e) == d.name) ==> e == d
    ensures d.name in Aliases(cs) && Aliases(cs)[d.name] == ResolveContainerIdentifier(d)
  {
    hide ResolveContainerIdentifier;
    var n := |cs| - 1;
    if cs[n] != d {
      assert d in cs[..n] && cs[n] in cs;
      AliasOfName(cs[..n], d);
    }
  }

  /** A link that spells the name of a listed container leads the detector to its identifier, whatever
      that is, unless another container goes by that name. */
  lemma DetectorEdgeByName(cs: seq<Container>, c: Container, d: Container)
    requires forall e, f :: e in cs && f in cs && ResolveContainerIdentifier(e) == ResolveContainerIdentifier(f) ==>
               e == f
    requires c in cs && d in cs && d.name in Links(c)
    requires forall e :: e in cs && (e.name == d.name || ResolveContainerIdentifier(e) == d.name) ==> e == d
    ensures Edge(DetectorGraph(cs), ResolveContainerIdentifier(c), ResolveContainerIdentifier(d))
  {
    hide ResolveContainerIdentifier, Links, Aliases, RawGraph;
    var u, v := ResolveContainerIdentifier(c), ResolveContainerIdentifier(d);
    var aliases := Aliases(cs);
    var raw := RawGraph(aliases, cs);
    RawGraphAt(aliases, cs, c);
    RawGraphAt(aliases, cs, d);
    AliasOfName(cs, d);
    CollectMember(Canonical(aliases), Links(c), v);
    CollectMember(Known(raw.Keys), raw[u], v);
  }

  lemma {:induction false} AliasesAreNames(cs: seq<Container>)
    requires forall c :: c in cs ==> c.name == ResolveContainerIdentifier(c)
    ensures forall k :: k in Aliases(cs) ==> Aliases(cs)[k] == k
  {
    hide ResolveContainerIdentifier;
    if cs != [] {
      AliasesAreNames(cs[..|cs| - 1]);
    }
  }

  lemma {:induction false} RawGraphKey(aliases: map<string, string>, cs: seq<Container>, u: string)
    requires u in RawGraph(aliases, cs)
    ensures exists c :: c in cs && ResolveContainerIdentifier(c) == u
  {
    hide ResolveContainerIdentifier, Links;
    var n := |cs| - 1;
    assert cs == cs[..n] + [cs[n]];
    if ResolveContainerIdentifier(cs[n]) != u {
      RawGraphKey(aliases, cs[..n], u);
    }
  }

  /** Where names are identifiers, the detector's edges are links. */
  lemma DetectorEdgeIsLink(cs: seq<Container>, u: string, v: string)
    requires DistinctIdentifiers(cs)
    requires forall c :: c in cs ==> c.name == ResolveContainerIdentifier(c) == Identifier(c)
    requires Edge(DetectorGraph(cs), u, v)
    ensures exists c :: c in cs && ResolveContainerIdentifier(c) == u && v in Links(c)
  {
    hide ResolveContainerIdentifier, Identifier, Links, Aliases, RawGraph;
    var aliases := Aliases(cs);
    var raw := RawGraph(aliases, cs);
    assert u in raw && v in Collect(Known(raw.Keys), raw[u]);
    RawGraphKey(aliases, cs, u);
    var c :| c in cs && ResolveContainerIdentifier(c) == u;
    forall a, b | a in cs && b in cs && ResolveContainerIdentifier(a) == ResolveContainerIdentifier(b) ensures a == b {
      UniqueByIdentifier(cs, a, b);
    }
    RawGraphAt(aliases, cs, c);
    CollectMember(Known(raw.Keys), raw[u], v);
    CollectMember(Canonical(aliases), Links(c), v);
    AliasesAreNames(cs);
  }

  /** Containers the detector left unmarked form an acyclic link graph. */
  lemma UnmarkedSorts(cs: seq<Container>, sub: seq<Container>, marks: set<string>)
    requires ExactLinks(cs) && PlainNames(cs) && Sublist(sub, cs) && DistinctIdentifiers(cs)
    requires HitsEveryCycle(DetectorGraph(cs), marks)
    requires forall c :: c in sub ==> ResolveContainerIdentifier(c) !in marks
    ensures Sorted(sub).Some?
  {
    hide Sorted, ExactLinks, LinkGraph, DetectorGraph, KeysOf, Identifier, ResolveContainerIdentifier, Links;
    SublistDistinct(sub, cs);
    forall u, v | Edge(LinkGraph(sub), u, v)
      ensures Edge(DetectorGraph(cs), v, u) && u !in marks && v !in marks
    {
      ExactEdge(cs, sub, u, v);
      var c :| c in sub && Identifier(c) == v && u in Links(c);
      var d := ListedContainer(sub, u);
      DetectorEdge(cs, c, d);
    }
    forall p | Cycle(LinkGraph(sub), p) ensures false {
      ReversedCycle(LinkGraph(sub), DetectorGraph(cs), p);
      var n :| n in Reverse(p) && n in marks;
      CycleNodeHasEdge(LinkGraph(sub), p, n);
    }
    SortExact(sub);
  }

  lemma CycleNodeHasEdge(g: Adjacency, p: seq<string>, n: string)
    requires Cycle(g, p) && n in p
    ensures exists v :: Edge(g, n, v)
  {
    var i :| 0 <= i < |p| && p[i] == n;
    if i == |p| - 1 {
      assert Edge(g, p[0], p[1]);
    } else {
      assert Edge(g, p[i], p[i + 1]);
    }
  }

  // ----- the second sort

  lemma RegularSublist(sub: seq<Container>, cs: seq<Container>)
    requires Sublist(sub, cs)
    ensures Sublist(Regular(sub), Regular(cs)) && Sublist(Regular(sub), cs)
  {
    RegularMember(sub);
    RegularMember(cs);
    RegularDistinct(sub);
  }

  lemma {:induction false} RegularMember(cs: seq<Container>)
    ensures forall c :: c in Regular(cs) <==> c in cs && !c.isWatchtower
  {
    if cs != [] {
      var n := |cs| - 1;
      RegularMember(cs[..n]);
      assert cs == cs[..n] + [cs[n]];
    }
  }

  lemma {:induction false} RegularDistinct(cs: seq<Container>)
    requires Distinct(cs)
    ensures Distinct(Regular(cs))
  {
    if cs != [] {
      var n := |cs| - 1;
      RegularDistinct(cs[..n]);
      RegularMember(cs[..n]);
      assert cs[n] !in cs[..n];
    }
  }

  /** The containers the cycle detector did not mark. */
  ghost function Unmarked(cs: seq<Container>, marks: set<string>): seq<Container> {
    Filtered(cs, (c: Container) => ResolveContainerIdentifier(c) !in marks)
  }

  lemma UnmarkedMember(cs: seq<Container>, marks: set<string>)
    ensures forall c :: c in Unmarked(cs, marks) <==> c in cs && ResolveContainerIdentifier(c) !in marks
    ensures Distinct(cs) ==> Distinct(Unmarked(cs, marks))
  {
    FilteredMember(cs, (c: Container) => ResolveContainerIdentifier(c) !in marks);
  }

  /** The containers that may come to be restarted; once the first sort has failed, only unmarked ones. */
  ghost function Restartable(cs: seq<Container>, marks: set<string>): seq<Container> {
    if SortedInPlace(cs).Some? then cs else Unmarked(cs, marks)
  }

  lemma RestartablePart(cs: seq<Container>, marks: set<string>)
    requires Distinct(cs) && DistinctIdentifiers(Regular(cs))
    ensures Sublist(Restartable(cs, marks), cs) && DistinctIdentifiers(Regular(Restartable(cs, marks)))
  {
    hide SortedInPlace, DistinctIdentifiers, Unmarked, ResolveContainerIdentifier;
    UnmarkedMember(cs, marks);
    assert Sublist(Unmarked(cs, marks), cs);
    RegularSublist(Restartable(cs, marks), cs);
    SublistDistinct(Regular(Restartable(cs, marks)), Regular(cs));
  }

  /** Every list of restartable containers can be sorted exactly if the possible dependencies among the
      regular ones have no cycle. */
  lemma SecondSortIff(cs: seq<Container>, marks: set<string>)
    requires Distinct(cs) && DistinctIdentifiers(Regular(cs))
    ensures (forall sub | Sublist(sub, Restartable(cs, marks)) :: SortedInPlace(sub).Some?) <==>
            !HasCycle(MayGraph(Regular(Restartable(cs, marks))))
  {
    hide Sorted, MayGraph, HasCycle, DistinctIdentifiers, Restartable, Regular;
    var restartable := Restartable(cs, marks);
    RestartablePart(cs, marks);
    AllPartsSortIff(Regular(restartable));
    if forall sub | Sublist(sub, Regular(restartable)) :: Sorted(sub).Some? {
      forall sub | Sublist(sub, restartable) ensures SortedInPlace(sub).Some? {
        RegularSublist(sub, restartable);
      }
    }
    if forall sub | Sublist(sub, restartable) :: SortedInPlace(sub).Some? {
      RegularMember(restartable);
      forall sub | Sublist(sub, Regular(restartable)) ensures Sorted(sub).Some? {
        AllRegular(sub);
        assert Sublist(sub, restartable) && SortedInPlace(sub).Some?;
      }
    }
  }

  lemma {:induction false} AllRegular(cs: seq<Container>)
    requires forall c :: c in cs ==> !c.isWatchtower
    ensures Regular(cs) == cs
  {
    if cs != [] {
      var n := |cs| - 1;
      AllRegular(cs[..n]);
      assert cs == cs[..n] + [cs[n]];
    }
  }

  /** With exact links and plain names the possible dependencies among restartable containers never have
      a cycle, whether the first sort succeeded or not. */
  lemma ExactIsSafe(cs: seq<Container>, marks: set<string>)
    requires ExactLinks(cs) && PlainNames(cs) && DistinctIdentifiers(cs)
    requires HitsEveryCycle(DetectorGraph(cs), marks)
    ensures DistinctIdentifiers(Regular(cs)) && !HasCycle(MayGraph(Regular(Restartable(cs, marks))))
  {
    hide Sorted, MayGraph, HasCycle, DistinctIdentifiers, PlainNames, ExactLinks, DetectorGraph, HitsEveryCycle,
         ResolveContainerIdentifier, Regular, StableLinks, Unmarked;
    DistinctContainers(cs);
    RegularSublist(cs, cs);
    SublistDistinct(Regular(cs), cs);
    var regular := Regular(Restartable(cs, marks));
    RestartablePart(cs, marks);
    if SortedInPlace(cs).Some? {
      ExactIsStable(cs);
      StableIsSafe(regular);
    } else {
      UnmarkedMember(cs, marks);
      RegularMember(Restartable(cs, marks));
      forall sub | Sublist(sub, regular) ensures Sorted(sub).Some? {
        UnmarkedSorts(cs, sub, marks);
      }
      AllPartsSortIff(regular);
    }
  }

  /** Exact links are stable, also among the regular containers alone. */
  lemma ExactIsStable(cs: seq<Container>)
    requires ExactLinks(cs) && DistinctIdentifiers(cs)
    ensures StableLinks(Regular(cs))
  {
    hide Identifier, Links, ReplicaOf, ExtractServiceName, KeysOf, ExactLinks, SteadyLink;
    DistinctContainers(cs);
    RegularSublist(cs, cs);
    SublistDistinct(Regular(cs), cs);
    RegularMember(cs);
    ExactLinksShrink(cs, Regular(cs));
    forall c, link | c in Regular(cs) && link in Links(c) ensures SteadyLink(KeysOf(Regular(cs)), link) {
      ExactIsSteady(Regular(cs), c, link);
    }
    SteadyIsStable(Regular(cs));
  }

  lemma ExactIsSteady(cs: seq<Container>, c: Container, link: string)
    requires ExactLinks(cs) && c in cs && link in Links(c)
    ensures SteadyLink(KeysOf(cs), link)
  {
    hide Identifier, Links, ReplicaOf, ExtractServiceName, KeysOf;
    if link !in KeysOf(cs) {
      assert Replicas(KeysOf(cs), link) == {} && ServiceMatches(KeysOf(cs), link) == {};
    }
  }

  lemma ExactLinksShrink(cs: seq<Container>, sub: seq<Container>)
    requires ExactLinks(cs) && (forall c :: c in sub ==> c in cs) && KeysOf(sub) <= KeysOf(cs)
    ensures ExactLinks(sub)
  {
    hide Identifier, Links, ReplicaOf, ExtractServiceName;
  }

  // ----- why the links must be stable

  /** app links to db, and db-1 links to app. */
  ghost predicate ReplicaLinks(db: Container, replica: Container, app: Container) {
    && Identifier(db) == "db" && Identifier(replica) == "db-1" && Identifier(app) == "app"
    && Links(db) == [] && Links(replica) == ["app"] && Links(app) == ["db"]
  }

  lemma WholeListEdge(db: Container, replica: Container, app: Container, u: string, v: string)
    requires ReplicaLinks(db, replica, app)
    requires Edge(LinkGraph([db, replica, app]), u, v)
    ensures (u == "db" && v == "app") || (u == "app" && v == "db-1")
  {
    hide Identifier, Links, LinkGraph, Targets;
    ExposedTargets();
    var cs := [db, replica, app];
    assert Identifiers(cs) == ["db", "db-1", "app"];
    var keys := KeysOf(cs);
    assert keys == {"db", "db-1", "app"};
    LinkGraphEdge(cs, u, v);
    var c :| c in cs && v == Identifier(c) && LinksToKey(keys, c, u);
    var link :| link in Links(c) && u in Targets(keys, Identifier(c), link);
  }

  /** While db is listed, app depends on it alone. */
  lemma WholeListSorts(db: Container, replica: Container, app: Container)
    requires ReplicaLinks(db, replica, app)
    ensures Sorted([db, replica, app]).Some? && DistinctIdentifiers([db, replica, app])
  {
    hide Identifier, Links, Sorted, LinkGraph, ReplicaLinks;
    var cs, order := [db, replica, app], ["db", "app", "db-1"];
    assert Identifiers(cs) == ["db", "db-1", "app"] by {
      ReplicaIdentifiers(db, replica, app);
    }
    assert IndexOf(order, "db") == 0 && IndexOf(order, "app") == 1 && IndexOf(order, "db-1") == 2;
    forall u, v | Edge(LinkGraph(cs), u, v) ensures IndexOf(order, u) < IndexOf(order, v) {
      WholeListEdge(db, replica, app, u, v);
    }
    OrderedAcyclic(LinkGraph(cs), order);
    SortExact(cs);
  }

  lemma ReplicaIdentifiers(db: Container, replica: Container, app: Container)
    requires ReplicaLinks(db, replica, app)
    ensures Identifiers([db, replica, app]) == ["db", "db-1", "app"]
  {
    hide Identifier;
  }

  /** Without db the same link falls to the replica db-1 and closes a cycle. */
  lemma WithoutDbFails(db: Container, replica: Container, app: Container, cs: seq<Container>)
    requires ReplicaLinks(db, replica, app)
    requires replica in cs && app in cs && forall c :: c in cs ==> c in [replica, app]
    ensures Sorted(cs).None?
  {
    hide Identifier, Links, Sorted, LinkGraph, Targets;
    ExposedTargets();
    IdentifierListed(cs, replica);
    IdentifierListed(cs, app);
    forall k | k in KeysOf(cs) ensures k in {"db-1", "app"} {
      var c := ListedContainer(cs, k);
    }
    assert KeysOf(cs) == {"db-1", "app"};
    LinkGraphEdge(cs, "db-1", "app");
    LinkGraphEdge(cs, "app", "db-1");
    assert LinksToKey(KeysOf(cs), app, "db-1") && LinksToKey(KeysOf(cs), replica, "app");
    CycleFails(cs);
  }

  lemma CycleFails(cs: seq<Container>)
    requires Edge(LinkGraph(cs), "app", "db-1") && Edge(LinkGraph(cs), "db-1", "app")
    ensures Sorted(cs).None?
  {
    hide LinkGraph, Edge, Sorted, DistinctIdentifiers, Topological;
    assert Cycle(LinkGraph(cs), ["app", "db-1", "app"]);
    if DistinctIdentifiers(cs) {
      SortExact(cs);
    } else {
      CollisionFails(cs);
    }
  }

  lemma CollisionFails(cs: seq<Container>)
    requires !DistinctIdentifiers(cs)
    ensures Sorted(cs).None?
  {
  }

  lemma ReplicaOfDb()
    ensures ReplicaOf("db-1", "db") && !ReplicaOf("app", "db")
  {
    assert "db-1"[3..] == "1";
    assert Value("1"[..0]) == 0 && Value("1") == 1;
  }

  lemma ExposedTargets()
    ensures Targets({"db", "db-1", "app"}, "app", "db") == ["db"]
    ensures Targets({"db", "db-1", "app"}, "db-1", "app") == ["app"]
    ensures Targets({"db-1", "app"}, "app", "db") == ["db-1"]
    ensures Targets({"db-1", "app"}, "db-1", "app") == ["app"]
  {
    hide ReplicaOf, ExtractServiceName, ServiceMatches;
    ReplicaOfDb();
    assert Replicas({"db-1", "app"}, "db") == {"db-1"};
    AscendingOne("db-1");
  }
}
