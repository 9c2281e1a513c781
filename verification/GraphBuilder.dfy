/** buildDependencyGraph (pkg/sorter/dependency.go): files the containers under their
    identifiers and tallies one edge per resolved link. */
module GraphBuilder {
  import opened Text
  import opened Digraph
  import opened Containers
  import opened LinkResolution
  import opened Numerals
  import opened Kahn

  datatype SortError =
    | IdentifierCollision(identifier: string, affected: seq<Container>)
    | CircularReference(container: string, path: seq<string>)

  datatype Result<T> = Success(value: T) | Failure(error: SortError)

  lemma UniqueByIdentifier(cs: seq<Container>, c: Container, d: Container)
    requires DistinctIdentifiers(cs) && c in cs && d in cs && Identifier(c) == Identifier(d)
    ensures c == d
  {
    hide Identifier;
    var i :| 0 <= i < |cs| && cs[i] == c;
    var j :| 0 <= j < |cs| && cs[j] == d;
    assert Identifiers(cs)[i] == Identifiers(cs)[j];
  }

  datatype DependencyGraph = DependencyGraph(
    containerMap: map<string, Container>,
    indegree: map<string, int>,
    adjacency: map<string, seq<string>>,
    normalizedMap: map<Container, string>)

  /** Indegrees and adjacency lists count exactly these edges. */
  ghost predicate Tallies(keys: set<string>, edges: seq<Link>, indegree: map<string, int>,
                          adjacency: map<string, seq<string>>)
  {
    && indegree == Indegrees(keys, edges)
    && forall k :: Next(adjacency, k) == Dependents(edges, k)
  }

  ghost predicate Filed(cs: seq<Container>, containerMap: map<string, Container>,
                        normalizedMap: map<Container, string>) {
    && containerMap.Keys == KeysOf(cs)
    && (forall k :: k in containerMap ==> containerMap[k] in cs && Identifier(containerMap[k]) == k)
    && (forall c :: c in cs ==> c in normalizedMap && normalizedMap[c] == Identifier(c))
  }

  ghost predicate Represents(g: DependencyGraph, cs: seq<Container>) {
    && Filed(cs, g.containerMap, g.normalizedMap)
    && Tallies(KeysOf(cs), DependencyEdges(cs), g.indegree, g.adjacency)
  }

  function WithIdentifier(cs: seq<Container>, id: string): seq<Container> {
    if cs == [] then []
    else
      var n := |cs| - 1;
      WithIdentifier(cs[..n], id) + if Identifier(cs[n]) == id then [cs[n]] else []
  }

  lemma {:induction false} WithIdentifierMember(cs: seq<Container>, id: string)
    ensures forall c :: c in WithIdentifier(cs, id) ==> c in cs && Identifier(c) == id
  {
    hide Identifier;
    if cs != [] {
      var n := |cs| - 1;
      WithIdentifierMember(cs[..n], id);
      assert forall c :: c in cs[..n] ==> c in cs;
    }
  }

  lemma DistinctPrefix(cs: seq<Container>, n: nat)
    requires DistinctIdentifiers(cs) && n <= |cs|
    ensures DistinctIdentifiers(cs[..n])
  {
    hide Identifier;
    assert forall i :: 0 <= i < n ==> Identifiers(cs[..n])[i] == Identifiers(cs)[i];
  }

  lemma DistinctAt(cs: seq<Container>, i: nat, j: nat)
    requires DistinctIdentifiers(cs) && i < j < |cs|
    ensures Identifier(cs[i]) != Identifier(cs[j])
  {
    hide Identifier;
    assert Identifiers(cs)[i] != Identifiers(cs)[j];
  }

  lemma {:induction false} WithIdentifierSingle(cs: seq<Container>, id: string)
    requires DistinctIdentifiers(cs)
    ensures |WithIdentifier(cs, id)| <= 1
  {
    hide Identifier, DistinctIdentifiers;
    if cs != [] {
      var n := |cs| - 1;
      var prefix := WithIdentifier(cs[..n], id);
      DistinctPrefix(cs, n);
      WithIdentifierSingle(cs[..n], id);
      if prefix != [] {
        WithIdentifierMember(cs[..n], id);
        assert prefix[0] in prefix;
        var k :| 0 <= k < n && cs[..n][k] == prefix[0];
        DistinctAt(cs, k, n);
      }
    }
  }

  lemma {:induction false} WithIdentifierAll(cs: seq<Container>, c: Container)
    requires c in cs
    ensures c in WithIdentifier(cs, Identifier(c))
  {
    hide Identifier;
    var n := |cs| - 1;
    if cs[n] != c {
      assert c in cs[..n];
      WithIdentifierAll(cs[..n], c);
    }
  }

  lemma {:induction false} WithIdentifierRepeated(cs: seq<Container>, i: nat, j: nat)
    requires i < j < |cs| && Identifier(cs[i]) == Identifier(cs[j])
    ensures |WithIdentifier(cs, Identifier(cs[i]))| > 1
  {
    hide Identifier;
    var n := |cs| - 1;
    var id := Identifier(cs[i]);
    assert cs[..n][i] == cs[i] && cs[i] in cs[..n];
    if j < n {
      WithIdentifierRepeated(cs[..n], i, j);
    } else {
      WithIdentifierAll(cs[..n], cs[i]);
    }
  }

  lemma DistinctIffSingle(cs: seq<Container>)
    ensures DistinctIdentifiers(cs) <==> forall id :: id in KeysOf(cs) ==> |WithIdentifier(cs, id)| <= 1
  {
    hide Identifier;
    var ids := Identifiers(cs);
    if DistinctIdentifiers(cs) {
      forall id | id in KeysOf(cs) ensures |WithIdentifier(cs, id)| <= 1 {
        WithIdentifierSingle(cs, id);
      }
    } else {
      var i, j :| 0 <= i < j < |ids| && ids[i] == ids[j];
      WithIdentifierRepeated(cs, i, j);
      assert ids[i] in KeysOf(cs);
    }
  }

  ghost predicate Grouped(cs: seq<Container>, groups: map<string, seq<Container>>) {
    groups.Keys == KeysOf(cs) && forall id :: id in groups ==> groups[id] == WithIdentifier(cs, id)
  }

  lemma KeysNext(cs: seq<Container>, i: nat)
    requires i < |cs|
    ensures KeysOf(cs[..i + 1]) == KeysOf(cs[..i]) + {Identifier(cs[i])}
  {
    hide Identifier;
    assert Identifiers(cs[..i + 1]) == Identifiers(cs[..i]) + [Identifier(cs[i])];
  }

  lemma WithIdentifierNext(cs: seq<Container>, i: nat, id: string)
    requires i < |cs|
    ensures WithIdentifier(cs[..i + 1], id) ==
            WithIdentifier(cs[..i], id) + if Identifier(cs[i]) == id then [cs[i]] else []
    ensures id !in KeysOf(cs[..i]) ==> WithIdentifier(cs[..i], id) == []
  {
    hide Identifier;
    assert cs[..i + 1][..i] == cs[..i];
    if WithIdentifier(cs[..i], id) != [] {
      WithIdentifierMember(cs[..i], id);
      IdentifierListed(cs[..i], WithIdentifier(cs[..i], id)[0]);
    }
  }

  lemma GroupNext(cs: seq<Container>, i: nat, groups: map<string, seq<Container>>)
    requires i < |cs| && Grouped(cs[..i], groups)
    ensures var id := Identifier(cs[i]);
            Grouped(cs[..i + 1], groups[id := (if id in groups then groups[id] else []) + [cs[i]]])
  {
    hide Identifier, WithIdentifier, KeysOf;
    var id := Identifier(cs[i]);
    KeysNext(cs, i);
    var next := groups[id := (if id in groups then groups[id] else []) + [cs[i]]];
    forall k | k in next ensures next[k] == WithIdentifier(cs[..i + 1], k) {
      WithIdentifierNext(cs, i, k);
    }
  }

  method GroupByIdentifier(cs: seq<Container>) returns (groups: map<string, seq<Container>>)
    ensures Grouped(cs, groups)
  {
    groups := map[];
    for i := 0 to |cs|
      invariant Grouped(cs[..i], groups)
    {
      GroupNext(cs, i, groups);
      var id := Identifier(cs[i]);
      groups := groups[id := (if id in groups then groups[id] else []) + [cs[i]]];
    }
    assert cs[..|cs|] == cs;
  }

  /** The identifiers in done are filed, each for one container of its own. */
  ghost predicate FiledFor(cs: seq<Container>, done: set<string>, containerMap: map<string, Container>,
                           normalizedMap: map<Container, string>)
  {
    && containerMap.Keys == done
    && forall k :: k in done ==>
         && WithIdentifier(cs, k) == [containerMap[k]]
         && Identifier(containerMap[k]) == k
         && containerMap[k] in normalizedMap
         && normalizedMap[containerMap[k]] == k
  }

  lemma NothingFiled(cs: seq<Container>)
    ensures FiledFor(cs, {}, map[], map[])
  {
  }

  lemma FileNext(cs: seq<Container>, done: set<string>, containerMap: map<string, Container>,
                 normalizedMap: map<Container, string>, id: string)
    requires FiledFor(cs, done, containerMap, normalizedMap) && id in KeysOf(cs) && id !in done
    requires |WithIdentifier(cs, id)| <= 1
    ensures WithIdentifier(cs, id) != []
    ensures var c := WithIdentifier(cs, id)[0];
            FiledFor(cs, done + {id}, containerMap[id := c], normalizedMap[c := id])
  {
    hide Identifier, WithIdentifier;
    WithIdentifierMember(cs, id);
    var i :| 0 <= i < |cs| && Identifiers(cs)[i] == id;
    WithIdentifierAll(cs, cs[i]);
    var c := WithIdentifier(cs, id)[0];
    assert WithIdentifier(cs, id) == [c];
    assert c in WithIdentifier(cs, id);
    var files, names := containerMap[id := c], normalizedMap[c := id];
    forall k | k in done + {id}
      ensures WithIdentifier(cs, k) == [files[k]] && Identifier(files[k]) == k
      ensures files[k] in names && names[files[k]] == k
    {
    }
  }

  lemma AllFiled(cs: seq<Container>, containerMap: map<string, Container>, normalizedMap: map<Container, string>)
    requires FiledFor(cs, KeysOf(cs), containerMap, normalizedMap)
    ensures DistinctIdentifiers(cs) && Filed(cs, containerMap, normalizedMap)
  {
    hide Identifier;
    DistinctIffSingle(cs);
    forall k | k in containerMap ensures containerMap[k] in cs && Identifier(containerMap[k]) == k {
      WithIdentifierMember(cs, k);
      assert containerMap[k] in WithIdentifier(cs, k);
    }
    forall c | c in cs ensures c in normalizedMap && normalizedMap[c] == Identifier(c) {
      IdentifierListed(cs, c);
      UniqueByIdentifier(cs, c, containerMap[Identifier(c)]);
    }
  }

  /** Files every container under its identifier, or names an identifier used twice. */
  method FileContainers(cs: seq<Container>)
    returns (collision: Option<SortError>, containerMap: map<string, Container>, normalizedMap: map<Container, string>)
    ensures collision.None? <==> DistinctIdentifiers(cs)
    ensures collision.None? ==> Filed(cs, containerMap, normalizedMap)
    ensures collision.Some? ==> IsCollision(cs, collision.value)
  {
    hide FiledFor, WithIdentifier, Filed, DistinctIdentifiers, KeysOf;
    containerMap, normalizedMap := map[], map[];
    NothingFiled(cs);
    var groups := GroupByIdentifier(cs);
    var rest := groups.Keys;
    assert groups.Keys - rest == {};
    while rest != {}
      invariant rest <= groups.Keys
      invariant FiledFor(cs, groups.Keys - rest, containerMap, normalizedMap)
    {
      var id :| id in rest;
      if |groups[id]| > 1 {
        DistinctIffSingle(cs);
        return Some(IdentifierCollision(id, groups[id])), containerMap, normalizedMap;
      }
      FileNext(cs, groups.Keys - rest, containerMap, normalizedMap, id);
      assert groups.Keys - (rest - {id}) == groups.Keys - rest + {id};
      rest := rest - {id};
      containerMap := containerMap[id := groups[id][0]];
      normalizedMap := normalizedMap[groups[id][0] := id];
    }
    assert groups.Keys - rest == KeysOf(cs);
    AllFiled(cs, containerMap, normalizedMap);
    collision := None;
  }

  /** The error names an identifier more than one container answers to, and lists them all. */
  ghost predicate IsCollision(cs: seq<Container>, error: SortError) {
    && error.IdentifierCollision?
    && error.affected == WithIdentifier(cs, error.identifier)
    && |error.affected| > 1
  }

  /** Which listed identifiers a link stands for, in ascending order. */
  method ResolveLink(keys: set<string>, link: string) returns (matched: seq<string>)
    ensures matched == Candidates(keys, link)
    ensures Ascends(matched) && forall t :: t in matched <==> StandsFor(keys, link, t)
    ensures link !in keys ==>
              forall n :: 1 <= n <= 9223372036854775807 && link + "-" + Decimal(n) in keys ==>
                link + "-" + Decimal(n) in matched
  {
    hide Candidates, StandsFor, Decimal;
    matched := FindMatches(keys, link);
    CandidatesAscend(keys, link);
    forall t ensures t in matched <==> StandsFor(keys, link, t) {
      CandidatesIff(keys, link, t);
    }
    forall n | link !in keys && 1 <= n <= 9223372036854775807 && link + "-" + Decimal(n) in keys
      ensures link + "-" + Decimal(n) in matched
    {
      ReplicaStandsFor(keys, link, n);
    }
  }

  /** The three attempts, in order. */
  method FindMatches(keys: set<string>, link: string) returns (matched: seq<string>)
    ensures matched == Candidates(keys, link)
  {
    if link in keys {
      return [link];
    }
    matched := CollectReplicas(keys, link);
    if matched != [] {
      return;
    }
    NoElements(Ascending(Replicas(keys, link)));
    matched := CollectServiceMatches(keys, link);
    DistinctSize(matched);
    if |matched| == 1 {
      SingleListed(matched, ServiceMatches(keys, link));
    } else {
      matched := [];
    }
  }

  lemma SingleListed(s: seq<string>, members: set<string>)
    requires Lists(s, members) && |s| == 1
    ensures s == Ascending(members)
  {
    var only := Ascending(members);
    assert s[0] in Elements(s);
    assert |only| == 1 by {
      DistinctSize(s);
    }
    assert only[0] in Elements(only);
  }

  method CollectReplicas(keys: set<string>, link: string) returns (matched: seq<string>)
    ensures matched == Ascending(Replicas(keys, link))
  {
    hide Lists, SortStrings, IsPositiveInteger;
    matched := [];
    NothingListed<string>();
    var rest := keys;
    assert Replicas(keys - rest, link) == {};
    while rest != {}
      invariant rest <= keys && Lists(matched, Replicas(keys - rest, link))
    {
      var key :| key in rest;
      ghost var before := Replicas(keys - rest, link);
      rest := rest - {key};
      assert Replicas(keys - rest, link) == if ReplicaOf(key, link) then before + {key} else before;
      if link + "-" <= key && IsPositiveInteger(key[|link| + 1..]) {
        ListsNext(matched, before, key);
        matched := matched + [key];
      }
    }
    assert keys - rest == keys;
    SortStringsAscending(matched, Replicas(keys, link));
    matched := SortStrings(matched);
  }

  method CollectServiceMatches(keys: set<string>, link: string) returns (matched: seq<string>)
    ensures Lists(matched, ServiceMatches(keys, link))
  {
    hide Lists, ExtractServiceName;
    matched := [];
    NothingListed<string>();
    var rest := keys;
    assert ServiceMatches(keys - rest, link) == {};
    while rest != {}
      invariant rest <= keys && Lists(matched, ServiceMatches(keys - rest, link))
    {
      var key :| key in rest;
      ghost var before := ServiceMatches(keys - rest, link);
      rest := rest - {key};
      assert ServiceMatches(keys - rest, link) == if ExtractServiceName(key) == link then before + {key} else before;
      if ExtractServiceName(key) == link {
        ListsNext(matched, before, key);
        matched := matched + [key];
      }
    }
    assert keys - rest == keys;
  }

  lemma TallyEdge(keys: set<string>, edges: seq<Link>, e: Link, indegree: map<string, int>,
                  adjacency: map<string, seq<string>>)
    requires Tallies(keys, edges, indegree, adjacency) && e.dependent in keys
    ensures Tallies(keys, edges + [e], indegree[e.dependent := indegree[e.dependent] + 1],
                    adjacency[e.dependency := Next(adjacency, e.dependency) + [e.dependent]])
  {
    hide Remaining, Dependents;
    forall k
      ensures Remaining(edges + [e], {}, k) == Remaining(edges, {}, k) + if e.dependent == k then 1 else 0
      ensures Dependents(edges + [e], k) == Dependents(edges, k) + if e.dependency == k then [e.dependent] else []
    {
      EdgeCounts(edges, e, k);
    }
  }

  lemma TallyKeys(keys: set<string>, edges: seq<Link>, indegree: map<string, int>, adjacency: map<string, seq<string>>)
    requires Tallies(keys, edges, indegree, adjacency)
    ensures indegree.Keys == keys
  {
  }

  lemma EdgeCounts(edges: seq<Link>, e: Link, k: string)
    ensures Remaining(edges + [e], {}, k) == Remaining(edges, {}, k) + if e.dependent == k then 1 else 0
    ensures Dependents(edges + [e], k) == Dependents(edges, k) + if e.dependency == k then [e.dependent] else []
  {
    assert (edges + [e])[..|edges|] == edges;
  }

  lemma LinksToNext(edges: seq<Link>, matched: seq<string>, i: nat, self: string)
    requires i < |matched|
    ensures var before := edges + LinksTo(WithoutSelf(matched[..i], self), self);
            edges + LinksTo(WithoutSelf(matched[..i + 1], self), self)
            == if matched[i] == self then before else before + [Link(matched[i], self)]
  {
    assert matched[..i + 1][..i] == matched[..i];
    var sofar := WithoutSelf(matched[..i], self);
    assert (sofar + [matched[i]])[..|sofar|] == sofar;
    assert sofar + [] == sofar;
  }

  lemma NoLinks(edges: seq<Link>, matched: seq<string>, self: string)
    ensures edges + LinksTo(WithoutSelf(matched[..0], self), self) == edges
  {
  }

  /** Adds one edge per matched identifier, leaving out the dependent itself. */
  method AddLinks(keys: set<string>, ghost edges: seq<Link>, indegree: map<string, int>,
                  adjacency: map<string, seq<string>>, self: string, matched: seq<string>)
    returns (indegree': map<string, int>, adjacency': map<string, seq<string>>)
    requires Tallies(keys, edges, indegree, adjacency) && self in keys
    ensures Tallies(keys, edges + LinksTo(WithoutSelf(matched, self), self), indegree', adjacency')
  {
    hide Tallies, LinksTo, WithoutSelf;
    TallyKeys(keys, edges, indegree, adjacency);
    indegree', adjacency' := indegree, adjacency;
    NoLinks(edges, matched, self);
    for i := 0 to |matched|
      invariant indegree'.Keys == keys
      invariant Tallies(keys, edges + LinksTo(WithoutSelf(matched[..i], self), self), indegree', adjacency')
    {
      LinksToNext(edges, matched, i, self);
      var key := matched[i];
      if key == self {
        continue;
      }
      TallyEdge(keys, edges + LinksTo(WithoutSelf(matched[..i], self), self), Link(key, self), indegree', adjacency');
      indegree' := indegree'[self := indegree'[self] + 1];
      adjacency' := adjacency'[key := Next(adjacency', key) + [self]];
    }
    assert matched[..|matched|] == matched;
  }

  lemma LinkAdded(keys: set<string>, edges: seq<Link>, self: string, links: seq<string>, i: nat)
    requires i < |links|
    ensures var f := EdgesOfLink(keys, self);
            edges + Collect(f, links[..i]) + LinksTo(Targets(keys, self, links[i]), self)
            == edges + Collect(f, links[..i + 1])
  {
    hide Targets, LinksTo, Collect;
    CollectNext(EdgesOfLink(keys, self), links, i);
  }

  method AddContainerLinks(keys: set<string>, ghost edges: seq<Link>, indegree: map<string, int>,
                           adjacency: map<string, seq<string>>, c: Container)
    returns (indegree': map<string, int>, adjacency': map<string, seq<string>>)
    requires Tallies(keys, edges, indegree, adjacency) && Identifier(c) in keys
    ensures Tallies(keys, edges + EdgesOfContainer(keys)(c), indegree', adjacency')
  {
    hide Identifier, Tallies, Links, Candidates;
    var self := Identifier(c);
    var links := GetLinks(c);
    ghost var f := EdgesOfLink(keys, self);
    indegree', adjacency' := indegree, adjacency;
    assert edges + [] == edges;
    for i := 0 to |links|
      invariant Tallies(keys, edges + Collect(f, links[..i]), indegree', adjacency')
    {
      var matched := ResolveLink(keys, links[i]);
      LinkAdded(keys, edges, self, links, i);
      indegree', adjacency' := AddLinks(keys, edges + Collect(f, links[..i]), indegree', adjacency', self, matched);
    }
    CollectAll(f, links);
  }

  lemma NoEdges(keys: set<string>)
    ensures Tallies(keys, [], map k | k in keys :: 0, map[])
  {
    assert forall k :: k in keys ==> Remaining([], {}, k) == 0;
    assert forall k :: Next(map[], k) == Dependents([], k);
  }

  method BuildDependencyGraph(cs: seq<Container>) returns (r: Result<DependencyGraph>)
    ensures r.Success? <==> DistinctIdentifiers(cs)
    ensures r.Success? ==> Represents(r.value, cs)
    ensures r.Failure? ==> IsCollision(cs, r.error)
  {
    hide Identifier, Tallies, Links, IsCollision, DistinctIdentifiers, Represents, Filed, Collect, EdgesOfContainer;
    var collision, containerMap, normalizedMap := FileContainers(cs);
    if collision.Some? {
      return Failure(collision.value);
    }
    var keys := containerMap.Keys;
    FiledKeys(cs, containerMap, normalizedMap);
    var indegree := map k | k in keys :: 0;
    var adjacency: map<string, seq<string>> := map[];
    ghost var f := EdgesOfContainer(keys);
    NoEdges(keys);
    CollectNone(f, cs);
    for i := 0 to |cs|
      invariant Tallies(keys, Collect(f, cs[..i]), indegree, adjacency)
    {
      IdentifierListed(cs, cs[i]);
      CollectNext(f, cs, i);
      indegree, adjacency := AddContainerLinks(keys, Collect(f, cs[..i]), indegree, adjacency, cs[i]);
    }
    CollectAll(f, cs);
    r := Success(DependencyGraph(containerMap, indegree, adjacency, normalizedMap));
    GraphBuilt(cs, r.value);
  }

  lemma FiledKeys(cs: seq<Container>, containerMap: map<string, Container>, normalizedMap: map<Container, string>)
    requires Filed(cs, containerMap, normalizedMap)
    ensures containerMap.Keys == KeysOf(cs)
  {
  }

  lemma GraphBuilt(cs: seq<Container>, g: DependencyGraph)
    requires Filed(cs, g.containerMap, g.normalizedMap)
    requires Tallies(KeysOf(cs), DependencyEdges(cs), g.indegree, g.adjacency)
    ensures Represents(g, cs)
  {
  }
}
