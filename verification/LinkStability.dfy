/** What becomes of resolved links when containers are taken out of a list (pkg/sorter/dependency.go):
    the exact conditions under which a shorter list has no new dependencies. */
module LinkStability {
  import opened Text
  import opened Digraph
  import opened Containers
  import opened LinkResolution
  import opened GraphBuilder
  import opened Sorter

  ghost predicate Sublist(sub: seq<Container>, cs: seq<Container>) {
    Distinct(sub) && forall c :: c in sub ==> c in cs
  }

  lemma SublistDistinct(sub: seq<Container>, cs: seq<Container>)
    requires Sublist(sub, cs) && DistinctIdentifiers(cs)
    ensures DistinctIdentifiers(sub) && KeysOf(sub) <= KeysOf(cs)
  {
    hide Identifier;
    var ids := Identifiers(sub);
    forall i, j | 0 <= i < j < |ids| ensures ids[i] != ids[j] {
      if ids[i] == ids[j] {
        UniqueByIdentifier(cs, sub[i], sub[j]);
      }
    }
    forall id | id in KeysOf(sub) ensures id in KeysOf(cs) {
      var i :| 0 <= i < |ids| && ids[i] == id;
      IdentifierListed(cs, sub[i]);
    }
  }

  lemma ListedContainer(cs: seq<Container>, id: string) returns (c: Container)
    requires id in KeysOf(cs)
    ensures c in cs && Identifier(c) == id
  {
    var i :| 0 <= i < |cs| && Identifiers(cs)[i] == id;
    c := cs[i];
  }

  // ----- one link

  /** The identifier matches the link in one of the three ways. */
  predicate Matches(k: string, link: string) {
    k == link || ReplicaOf(k, link) || ExtractServiceName(k) == link
  }

  /** No link (a) names a listed identifier while another one is its replica or of its service, (b) has
      replicas and another container of its service, or (c) has two containers of its service. */
  ghost predicate SteadyLink(keys: set<string>, link: string) {
    if link in keys then forall k :: k in keys && Matches(k, link) ==> k == link
    else if Replicas(keys, link) != {} then ServiceMatches(keys, link) <= Replicas(keys, link)
    else |ServiceMatches(keys, link)| <= 1
  }

  lemma CandidateMatches(keys: set<string>, link: string, t: string)
    requires t in Candidates(keys, link)
    ensures t in keys && Matches(t, link)
  {
    hide ReplicaOf, ExtractServiceName;
    assert t in Elements(Candidates(keys, link));
  }

  lemma OneOf<T>(s: set<T>, x: T)
    requires x in s && |s| <= 1
    ensures |s| == 1
  {
    assert s - {x} + {x} == s;
  }

  lemma SteadyMatch(keys: set<string>, link: string, t: string)
    requires SteadyLink(keys, link) && t in keys && Matches(t, link)
    ensures t in Candidates(keys, link)
  {
    hide ReplicaOf, ExtractServiceName;
    if link !in keys {
      if Replicas(keys, link) != {} {
        assert t in Replicas(keys, link);
        assert t in Elements(Ascending(Replicas(keys, link)));
      } else {
        assert t !in Replicas(keys, link);
        assert t in ServiceMatches(keys, link);
        OneOf(ServiceMatches(keys, link), t);
        assert t in Elements(Ascending(ServiceMatches(keys, link)));
      }
    }
  }

  /** A match that is listed alone is what the link stands for. */
  lemma AloneIsCandidate(link: string, t: string)
    requires Matches(t, link)
    ensures t in Candidates({t}, link)
  {
    hide ReplicaOf, ExtractServiceName;
    if t != link {
      if ReplicaOf(t, link) {
        assert Replicas({t}, link) == {t};
      } else {
        assert Replicas({t}, link) == {} && ServiceMatches({t}, link) == {t};
      }
      AscendingOne(t);
    }
  }

  /** A link keeps standing for identifiers it stood for, whatever is taken out of the list, exactly if
      it is steady. */
  lemma SteadyLinkIff(keys: set<string>, link: string)
    ensures SteadyLink(keys, link) <==>
            forall sub: set<string> | sub <= keys :: Elements(Candidates(sub, link)) <= Elements(Candidates(keys, link))
  {
    hide SteadyLink, Candidates, Matches;
    if SteadyLink(keys, link) {
      forall sub: set<string>, t | sub <= keys && t in Candidates(sub, link) ensures t in Candidates(keys, link) {
        CandidateMatches(sub, link, t);
        SteadyMatch(keys, link, t);
      }
    } else if forall sub: set<string> | sub <= keys ::
         Elements(Candidates(sub, link)) <= Elements(Candidates(keys, link))
    {
      forall t | t in keys && Matches(t, link) ensures t in Candidates(keys, link) {
        AloneIsCandidate(link, t);
        assert {t} <= keys;
        assert t in Elements(Candidates({t}, link));
      }
      MatchesListed(keys, link);
    }
  }

  lemma MatchesListed(keys: set<string>, link: string)
    requires forall t :: t in keys && Matches(t, link) ==> t in Candidates(keys, link)
    ensures SteadyLink(keys, link)
  {
    hide ReplicaOf, ExtractServiceName;
    if link !in keys && Replicas(keys, link) != {} {
      forall t | t in ServiceMatches(keys, link) ensures t in Replicas(keys, link) {
        assert Matches(t, link);
        assert t in Elements(Candidates(keys, link));
      }
    } else if link !in keys && ServiceMatches(keys, link) != {} {
      var t :| t in ServiceMatches(keys, link);
      assert Matches(t, link);
      assert t in Candidates(keys, link);
    }
  }

  // ----- the whole list

  /** The link would stand for t if only the container itself and t were listed. */
  predicate MayStandFor(self: string, link: string, t: string) {
    && link != self && t != self
    && (t == link || ReplicaOf(t, link)
        || (ExtractServiceName(t) == link && !ReplicaOf(self, link) && ExtractServiceName(self) != link))
  }

  /** Every link already leads to whatever it may come to stand for. */
  ghost predicate StableLinks(cs: seq<Container>) {
    forall c, link, t :: c in cs && link in Links(c) && t in KeysOf(cs) && MayStandFor(Identifier(c), link, t) ==>
      LinksToKey(KeysOf(cs), c, t)
  }

  lemma TargetMayStand(keys: set<string>, self: string, link: string, t: string)
    requires self in keys && t in Targets(keys, self, link)
    ensures MayStandFor(self, link, t)
  {
    hide ReplicaOf, ExtractServiceName;
    TargetsAreKeys(keys, self, link);
    assert t in Elements(Candidates(keys, link));
    if link !in keys {
      if Replicas(keys, link) == {} {
        assert self !in Replicas(keys, link) && t in ServiceMatches(keys, link);
        if self in ServiceMatches(keys, link) {
          TwoOf(ServiceMatches(keys, link), self, t);
        }
      }
    }
  }

  lemma TwoOf<T>(s: set<T>, x: T, y: T)
    requires x in s && y in s && x != y
    ensures |s| >= 2
  {
    assert s == {x, y} + (s - {x, y});
  }

  lemma PairTarget(self: string, link: string, t: string)
    requires MayStandFor(self, link, t)
    ensures t in Targets({self, t}, self, link)
  {
    hide ReplicaOf, ExtractServiceName;
    var keys := {self, t};
    if t != link {
      if ReplicaOf(t, link) {
        assert t in Replicas(keys, link);
        assert t in Elements(Ascending(Replicas(keys, link)));
      } else {
        assert Replicas(keys, link) == {} && ServiceMatches(keys, link) == {t};
        AscendingOne(t);
      }
    }
  }

  /** Two containers listed alone depend on one another wherever a link may stand for the other one. */
  lemma PairEdge(c: Container, d: Container, link: string)
    requires link in Links(c) && MayStandFor(Identifier(c), link, Identifier(d))
    ensures Edge(LinkGraph([c, d]), Identifier(d), Identifier(c))
  {
    hide Identifier, Links, LinkGraph, Targets, MayStandFor;
    var pair := [c, d];
    assert Identifiers(pair) == [Identifier(c), Identifier(d)];
    assert KeysOf(pair) == {Identifier(c), Identifier(d)};
    PairTarget(Identifier(c), link, Identifier(d));
    assert LinksToKey(KeysOf(pair), c, Identifier(d));
    assert c in pair;
    LinkGraphEdge(pair, Identifier(d), Identifier(c));
  }

  lemma StableEdge(cs: seq<Container>, sub: seq<Container>, u: string, v: string)
    requires StableLinks(cs) && DistinctIdentifiers(cs) && Sublist(sub, cs) && Edge(LinkGraph(sub), u, v)
    ensures Edge(LinkGraph(cs), u, v)
  {
    hide Identifier, Links, LinkGraph, Targets, MayStandFor, KeysOf, DistinctIdentifiers;
    SublistDistinct(sub, cs);
    LinkGraphEdge(sub, u, v);
    var c :| c in sub && v == Identifier(c) && LinksToKey(KeysOf(sub), c, u);
    var link :| link in Links(c) && u in Targets(KeysOf(sub), v, link);
    TargetMayStand(KeysOf(sub), v, link, u);
    LinkGraphEdge(cs, u, v);
  }

  /** The dependencies within every part of the list are dependencies within the whole list exactly if
      its links are stable. */
  lemma StableLinksIff(cs: seq<Container>)
    requires DistinctIdentifiers(cs)
    ensures StableLinks(cs) <==>
            forall sub: seq<Container>, u, v ::
              Sublist(sub, cs) && Edge(LinkGraph(sub), u, v) ==> Edge(LinkGraph(cs), u, v)
  {
    hide StableLinks, Identifier, Links, LinkGraph, Edge, MayStandFor, DistinctIdentifiers, KeysOf;
    if StableLinks(cs) {
      forall sub: seq<Container>, u, v | Sublist(sub, cs) && Edge(LinkGraph(sub), u, v)
        ensures Edge(LinkGraph(cs), u, v)
      {
        StableEdge(cs, sub, u, v);
      }
    } else if forall sub: seq<Container>, u, v ::
                Sublist(sub, cs) && Edge(LinkGraph(sub), u, v) ==> Edge(LinkGraph(cs), u, v) {
      forall c, link, t | c in cs && link in Links(c) && t in KeysOf(cs) && MayStandFor(Identifier(c), link, t)
        ensures LinksToKey(KeysOf(cs), c, t)
      {
        var d := ListedContainer(cs, t);
        PairEdge(c, d, link);
        MayStandForOther(Identifier(c), link, t);
        assert Sublist([c, d], cs);
        assert Edge(LinkGraph([c, d]), t, Identifier(c));
        OwnEdge(cs, c, t);
      }
      LinksAreStable(cs);
    }
  }

  lemma MayStandForOther(self: string, link: string, t: string)
    requires MayStandFor(self, link, t)
    ensures t != self
  {
  }

  lemma OwnEdge(cs: seq<Container>, c: Container, t: string)
    requires DistinctIdentifiers(cs) && c in cs && Edge(LinkGraph(cs), t, Identifier(c))
    ensures LinksToKey(KeysOf(cs), c, t)
  {
    hide Identifier, Links, LinkGraph, LinksToKey;
    LinkGraphEdge(cs, t, Identifier(c));
    var d :| d in cs && Identifier(c) == Identifier(d) && LinksToKey(KeysOf(cs), d, t);
    UniqueByIdentifier(cs, c, d);
  }

  lemma LinksAreStable(cs: seq<Container>)
    requires forall c, link, t ::
               c in cs && link in Links(c) && t in KeysOf(cs) && MayStandFor(Identifier(c), link, t) ==>
               LinksToKey(KeysOf(cs), c, t)
    ensures StableLinks(cs)
  {
  }

  /** Steady links are stable. */
  lemma SteadyIsStable(cs: seq<Container>)
    requires forall c, link :: c in cs && link in Links(c) ==> SteadyLink(KeysOf(cs), link)
    ensures StableLinks(cs)
  {
    hide Identifier, Links, ReplicaOf, ExtractServiceName, KeysOf, Candidates, SteadyLink;
    forall c, link, t | c in cs && link in Links(c) && t in KeysOf(cs) && MayStandFor(Identifier(c), link, t)
      ensures LinksToKey(KeysOf(cs), c, t)
    {
      SteadyMatch(KeysOf(cs), link, t);
      assert t in Targets(KeysOf(cs), Identifier(c), link);
    }
  }

  // ----- whether every part of a list can be sorted

  /** Some link of the container named v may come to stand for the listed container t. */
  ghost predicate MayDepend(cs: seq<Container>, t: string, v: string) {
    exists c, link :: c in cs && link in Links(c) && Identifier(c) == v && MayStandFor(v, link, t)
  }

  /** The graph of possible dependencies: what some part of the list could make of a link. */
  ghost function MayGraph(cs: seq<Container>): Adjacency {
    map t | t in KeysOf(cs) :: Ascending(set v | v in KeysOf(cs) && MayDepend(cs, t, v))
  }

  lemma MayGraphEdge(cs: seq<Container>, t: string, v: string)
    ensures Edge(MayGraph(cs), t, v) <==> t in KeysOf(cs) && MayDepend(cs, t, v)
    ensures Edge(MayGraph(cs), t, v) ==> v in KeysOf(cs) && t != v
  {
    hide Identifier, Links, KeysOf, MayStandFor;
    var dependents := set v | v in KeysOf(cs) && MayDepend(cs, t, v);
    assert forall x :: x in Ascending(dependents) <==> x in Elements(Ascending(dependents));
    if MayDepend(cs, t, v) {
      var c, link :| c in cs && link in Links(c) && Identifier(c) == v && MayStandFor(v, link, t);
      IdentifierListed(cs, c);
      MayStandForOther(v, link, t);
    }
  }

  /** A dependency within a part of the list is a possible one. */
  lemma PartEdgeIsPossible(cs: seq<Container>, sub: seq<Container>, u: string, v: string)
    requires DistinctIdentifiers(cs) && Sublist(sub, cs) && Edge(LinkGraph(sub), u, v)
    ensures Edge(MayGraph(cs), u, v)
  {
    hide Identifier, Links, LinkGraph, Targets, MayStandFor, KeysOf, DistinctIdentifiers, MayGraph;
    SublistDistinct(sub, cs);
    LinkGraphEdge(sub, u, v);
    var c :| c in sub && v == Identifier(c) && LinksToKey(KeysOf(sub), c, u);
    var link :| link in Links(c) && u in Targets(KeysOf(sub), v, link);
    TargetMayStand(KeysOf(sub), v, link, u);
    MayGraphEdge(cs, u, v);
  }

  /** If a link may stand for a listed container but does not, it may stand for another listed one. */
  lemma OtherStands(keys: set<string>, self: string, link: string, t: string) returns (other: string)
    requires self in keys && t in keys && MayStandFor(self, link, t) && t !in Targets(keys, self, link)
    ensures other in keys && other != t && MayStandFor(self, link, other)
  {
    hide ReplicaOf, ExtractServiceName;
    assert t !in Candidates(keys, link);
    if link in keys {
      other := link;
    } else if Replicas(keys, link) != {} {
      assert t in Replicas(keys, link) <==> t in Elements(Candidates(keys, link));
      other :| other in Replicas(keys, link);
    } else {
      var matches := ServiceMatches(keys, link);
      assert t !in Replicas(keys, link) && t in matches;
      if matches == {t} {
        AscendingOne(t);
      }
      assert matches != {t};
      other :| other in matches && other != t;
    }
  }

  /** The containers with these identifiers. */
  ghost function Having(cs: seq<Container>, ids: set<string>): seq<Container> {
    Filtered(cs, (c: Container) => Identifier(c) in ids)
  }

  lemma HavingMember(cs: seq<Container>, ids: set<string>)
    ensures forall c :: c in Having(cs, ids) <==> c in cs && Identifier(c) in ids
    ensures Distinct(cs) ==> Distinct(Having(cs, ids))
  {
    FilteredMember(cs, (c: Container) => Identifier(c) in ids);
  }

  lemma HavingKeys(cs: seq<Container>, ids: set<string>)
    requires DistinctIdentifiers(cs) && ids <= KeysOf(cs)
    ensures Sublist(Having(cs, ids), cs) && KeysOf(Having(cs, ids)) == ids
  {
    hide Identifier, DistinctIdentifiers;
    DistinctContainers(cs);
    HavingMember(cs, ids);
    var sub := Having(cs, ids);
    forall id | id in ids ensures id in KeysOf(sub) {
      var c := ListedContainer(cs, id);
      IdentifierListed(sub, c);
    }
    forall id | id in KeysOf(sub) ensures id in ids {
      var c := ListedContainer(sub, id);
    }
    assert KeysOf(sub) == ids;
  }

  /** A possible dependency that is none among the containers of a cycle leaves a shorter cycle. */
  lemma Shortcut(cs: seq<Container>, ids: set<string>, t: string, v: string) returns (other: string)
    requires DistinctIdentifiers(cs) && ids <= KeysOf(cs) && t in ids && v in ids
    requires Edge(MayGraph(cs), t, v) && !Edge(LinkGraph(Having(cs, ids)), t, v)
    ensures other in ids && other != t && Edge(MayGraph(cs), other, v)
  {
    hide Identifier, Links, LinkGraph, Targets, MayStandFor, KeysOf, DistinctIdentifiers, MayGraph, Having;
    HavingKeys(cs, ids);
    MayGraphEdge(cs, t, v);
    var c, link :| c in cs && link in Links(c) && Identifier(c) == v && MayStandFor(v, link, t);
    var sub := Having(cs, ids);
    HavingMember(cs, ids);
    LinkGraphEdge(sub, t, v);
    assert !LinksToKey(ids, c, t);
    other := OtherStands(ids, v, link, t);
    assert MayDepend(cs, other, v);
    MayGraphEdge(cs, other, v);
  }

  /** A cycle of possible dependencies has a part that cannot be sorted: the containers of a shortest
      one. */
  lemma {:induction false} PossibleCycleCloses(cs: seq<Container>, p: seq<string>) returns (sub: seq<Container>)
    requires DistinctIdentifiers(cs) && Cycle(MayGraph(cs), p)
    ensures Sublist(sub, cs) && HasCycle(LinkGraph(sub))
    decreases |p|
  {
    hide Identifier, LinkGraph, KeysOf, DistinctIdentifiers, MayGraph, Having, Edge;
    var ids := Elements(p);
    forall x | x in ids ensures x in KeysOf(cs) {
      CycleListed(cs, p, x);
    }
    HavingKeys(cs, ids);
    sub := Having(cs, ids);
    if !Cycle(LinkGraph(sub), p) {
      var i, j :| 0 <= i && j == i + 1 < |p| && !Edge(LinkGraph(sub), p[i], p[j]);
      assert Edge(MayGraph(cs), p[i], p[j]);
      var other := Shortcut(cs, ids, p[i], p[j]);
      var q := CutCycle(MayGraph(cs), p, i, other);
      sub := PossibleCycleCloses(cs, q);
    }
  }

  lemma CycleListed(cs: seq<Container>, p: seq<string>, x: string)
    requires Cycle(MayGraph(cs), p) && x in p
    ensures x in KeysOf(cs)
  {
    hide KeysOf, MayGraph, Edge;
    var i :| 0 <= i < |p| && p[i] == x;
    if i + 1 < |p| {
      assert Edge(MayGraph(cs), p[i], p[i + 1]);
      MayGraphEdge(cs, p[i], p[i + 1]);
    } else {
      assert Edge(MayGraph(cs), p[0], p[1]);
      MayGraphEdge(cs, p[0], p[1]);
    }
  }

  /** Every part of the list can be sorted exactly if its possible dependencies have no cycle. */
  lemma AllPartsSortIff(cs: seq<Container>)
    requires DistinctIdentifiers(cs)
    ensures (forall sub | Sublist(sub, cs) :: Sorted(sub).Some?) <==> !HasCycle(MayGraph(cs))
  {
    hide Sorted, LinkGraph, MayGraph, HasCycle, Identifier, DistinctIdentifiers;
    if HasCycle(MayGraph(cs)) {
      var p := SomeCycle(MayGraph(cs));
      var sub := PossibleCycleCloses(cs, p);
      SublistDistinct(sub, cs);
      SortExact(sub);
    } else {
      forall sub | Sublist(sub, cs) ensures Sorted(sub).Some? {
        SublistSorts(cs, sub);
      }
    }
  }

  lemma SomeCycle(g: Adjacency) returns (p: seq<string>)
    requires HasCycle(g)
    ensures Cycle(g, p)
  {
    p :| Cycle(g, p);
  }

  /** If the possible dependencies have no cycle, the list and every part of it can be sorted. */
  lemma SublistSorts(cs: seq<Container>, sub: seq<Container>)
    requires DistinctIdentifiers(cs) && Sublist(sub, cs) && !HasCycle(MayGraph(cs))
    ensures Sorted(sub).Some?
  {
    hide Sorted, LinkGraph, MayGraph, Identifier, DistinctIdentifiers, Edge;
    SublistDistinct(sub, cs);
    forall u, v | Edge(LinkGraph(sub), u, v) ensures Edge(MayGraph(cs), u, v) {
      PartEdgeIsPossible(cs, sub, u, v);
    }
    FewerEdges(LinkGraph(sub), MayGraph(cs));
    SortExact(sub);
  }

  /** In a sorted list with stable links every possible dependency is one. */
  lemma StableIsSafe(cs: seq<Container>)
    requires DistinctIdentifiers(cs) && StableLinks(cs) && Sorted(cs).Some?
    ensures !HasCycle(MayGraph(cs))
  {
    hide Sorted, LinkGraph, MayGraph, Identifier, Links, DistinctIdentifiers, Edge, KeysOf, MayStandFor, LinksToKey;
    SortExact(cs);
    forall u, v | Edge(MayGraph(cs), u, v) ensures Edge(LinkGraph(cs), u, v) {
      MayGraphEdge(cs, u, v);
      LinkGraphEdge(cs, u, v);
    }
    FewerEdges(MayGraph(cs), LinkGraph(cs));
  }
}
