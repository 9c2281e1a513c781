/** DetectCycles (pkg/container/cycles.go): builds the graph from dependent to dependency and
    runs the detector from every unvisited node. */
module DetectCycles {
  import opened Text
  import opened Digraph
  import opened Containers
  import opened CycleDetection

  /** Names and identifiers, each leading to an identifier; later containers win. */
  function Aliases(cs: seq<Container>): map<string, string> {
    if cs == [] then map[]
    else
      var n := |cs| - 1;
      var canonical := ResolveContainerIdentifier(cs[n]);
      Aliases(cs[..n])[cs[n].name := canonical][canonical := canonical]
  }

  function Canonical(aliases: map<string, string>): string -> seq<string> {
    link => if link in aliases then [aliases[link]] else []
  }

  ghost function RawGraph(aliases: map<string, string>, cs: seq<Container>): Adjacency {
    if cs == [] then map[]
    else
      var n := |cs| - 1;
      RawGraph(aliases, cs[..n])[ResolveContainerIdentifier(cs[n]) := Collect(Canonical(aliases), Links(cs[n]))]
  }

  function Known(keys: set<string>): string -> seq<string> {
    link => if link in keys then [link] else []
  }

  ghost function KnownOnly(raw: Adjacency): Adjacency {
    map k | k in raw :: Collect(Known(raw.Keys), raw[k])
  }

  /** The graph the detector searches: from each container to the listed containers it links to. */
  ghost function DetectorGraph(cs: seq<Container>): Adjacency {
    KnownOnly(RawGraph(Aliases(cs), cs))
  }

  lemma DetectorGraphNodes(cs: seq<Container>)
    ensures Nodes(DetectorGraph(cs)) == DetectorGraph(cs).Keys
  {
    var raw := RawGraph(Aliases(cs), cs);
    forall k, v | k in raw && v in Collect(Known(raw.Keys), raw[k]) ensures v in raw {
      CollectMember(Known(raw.Keys), raw[k], v);
    }
  }

  // ----- building the graph

  method BuildAliases(cs: seq<Container>) returns (aliases: map<string, string>)
    ensures aliases == Aliases(cs)
  {
    hide ResolveContainerIdentifier;
    aliases := map[];
    for i := 0 to |cs|
      invariant aliases == Aliases(cs[..i])
    {
      assert cs[..i + 1][..i] == cs[..i];
      var canonical := ResolveContainerIdentifier(cs[i]);
      aliases := aliases[cs[i].name := canonical];
      aliases := aliases[canonical := canonical];
    }
    assert cs[..|cs|] == cs;
  }

  method TranslateLinks(aliases: map<string, string>, links: seq<string>) returns (canonical: seq<string>)
    ensures canonical == Collect(Canonical(aliases), links)
  {
    canonical := [];
    for i := 0 to |links|
      invariant canonical == Collect(Canonical(aliases), links[..i])
    {
      CollectNext(Canonical(aliases), links, i);
      if links[i] in aliases {
        canonical := canonical + [aliases[links[i]]];
      }
    }
    CollectAll(Canonical(aliases), links);
  }

  method BuildRawGraph(aliases: map<string, string>, cs: seq<Container>) returns (graph: map<string, seq<string>>)
    ensures graph == RawGraph(aliases, cs)
  {
    hide ResolveContainerIdentifier, Links;
    graph := map[];
    for i := 0 to |cs|
      invariant graph == RawGraph(aliases, cs[..i])
    {
      assert cs[..i + 1][..i] == cs[..i];
      var links := GetLinks(cs[i]);
      var canonical := TranslateLinks(aliases, links);
      graph := graph[ResolveContainerIdentifier(cs[i]) := canonical];
    }
    assert cs[..|cs|] == cs;
  }

  method FilterKnown(keys: set<string>, neighbors: seq<string>) returns (filtered: seq<string>)
    ensures filtered == Collect(Known(keys), neighbors)
  {
    filtered := [];
    for i := 0 to |neighbors|
      invariant filtered == Collect(Known(keys), neighbors[..i])
    {
      CollectNext(Known(keys), neighbors, i);
      if neighbors[i] in keys {
        filtered := filtered + [neighbors[i]];
      }
    }
    CollectAll(Known(keys), neighbors);
  }

  method FilterGraph(raw: map<string, seq<string>>) returns (graph: map<string, seq<string>>)
    ensures graph == KnownOnly(raw)
  {
    hide Collect;
    graph := raw;
    var rest := raw.Keys;
    while rest != {}
      invariant rest <= raw.Keys == graph.Keys
      invariant forall k :: k in raw ==> graph[k] == if k in rest then raw[k] else Collect(Known(raw.Keys), raw[k])
    {
      var name :| name in rest;
      rest := rest - {name};
      var filtered := FilterKnown(raw.Keys, graph[name]);
      graph := graph[name := filtered];
    }
  }

  // ----- the search

  lemma {:induction false} DetectSnoc(g: Adjacency, roots: seq<string>, root: string, s: SearchState)
    requires forall n :: n in roots ==> n in Nodes(g)
    requires root in Nodes(g)
    ensures forall n :: n in roots + [root] ==> n in Nodes(g)
    ensures var r := Detect(g, roots, s);
            Detect(g, roots + [root], s) == if ColorOf(r, root).White? then Visit(g, root, r) else r
  {
    hide Visit, Nodes;
    if roots == [] {
      assert roots + [root] == [root];
    } else {
      var next := if ColorOf(s, roots[0]).White? then Visit(g, roots[0], s) else s;
      DetectSnoc(g, roots[1..], root, next);
      assert (roots + [root])[1..] == roots[1..] + [root];
    }
  }

  method DetectCyclesIn(cs: seq<Container>) returns (cycles: set<string>, ghost roots: seq<string>)
    ensures Lists(roots, Nodes(DetectorGraph(cs))) && forall n :: n in roots ==> n in Nodes(DetectorGraph(cs))
    ensures cycles == Detect(DetectorGraph(cs), roots, Unvisited()).cycles
    ensures Sound(DetectorGraph(cs), cycles) && HitsEveryCycle(DetectorGraph(cs), cycles)
    ensures cycles == {} <==> !HasCycle(DetectorGraph(cs))
  {
    hide Aliases, RawGraph, KnownOnly, Visit, Lists, Sound, HitsEveryCycle, HasCycle;
    var aliases := BuildAliases(cs);
    var raw := BuildRawGraph(aliases, cs);
    var graph := FilterGraph(raw);
    DetectorGraphNodes(cs);
    var detector := new CycleDetector(graph);
    var rest := graph.Keys;
    roots := [];
    NothingListed<string>();
    assert graph.Keys - rest == {};
    while rest != {}
      invariant rest <= graph.Keys && Lists(roots, graph.Keys - rest)
      invariant forall n :: n in roots ==> n in Nodes(graph)
      invariant detector.graph == graph && fresh(detector)
      invariant detector.Current() == Detect(graph, roots, Unvisited())
    {
      var name :| name in rest;
      ghost var before := graph.Keys - rest;
      ListsNext(roots, before, name);
      DetectSnoc(graph, roots, name, Unvisited());
      rest := rest - {name};
      assert graph.Keys - rest == before + {name};
      if (if name in detector.colors then detector.colors[name] else White) == White {
        detector.Dfs(name);
      }
      roots := roots + [name];
    }
    assert graph.Keys - rest == graph.Keys;
    ListedElements(roots, Nodes(graph));
    DetectionExact(graph, roots);
    cycles := detector.cycles;
  }

  lemma ListedElements(s: seq<string>, members: set<string>)
    requires Lists(s, members)
    ensures Elements(s) == members
  {
  }
}
