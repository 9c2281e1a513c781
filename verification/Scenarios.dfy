/** Inputs on which the program does less than it seems to promise, with what it does there instead. */
module Scenarios {
  import opened Text
  import opened Digraph
  import opened Compose
  import opened Containers
  import opened Session
  import opened LinkResolution
  import opened GraphBuilder
  import opened CyclePath
  import opened Sorter
  import opened CycleDetection
  import opened DetectCycles
  import opened Planner
  import opened ImplicitRestart
  import opened UpdateRun
  import opened StartPhase
  import opened BatchRun
  import opened Execution
  import opened Losses
  import opened Report
  import opened Scan
  import opened UpdateAction

  // ----- containers that depend on others by name

  /** The container has no Compose labels and depends on the named containers. */
  predicate Named(c: Container, name: string, dependsOn: string) {
    && c.id == c.name == name && c.labels == Labels("", "", "", dependsOn, NO_LABEL)
    && c.hostLinks == [] && c.connectedContainer == None
  }

  predicate Letters(text: string) {
    text != "" && forall ch :: ch in text ==> ch !in "/,:+" && !IsSpace(ch)
  }

  predicate PlainChar(ch: char) {
    'a' <= ch <= 'z' || ch == '-' || ch == '1'
  }

  lemma PlainLetters(text: string)
    requires text != "" && forall ch :: ch in text ==> PlainChar(ch)
    ensures Letters(text)
  {
    forall ch | ch in text ensures ch !in "/,:+" && !IsSpace(ch) {
      assert PlainChar(ch);
    }
  }

  /** The names used below. */
  lemma TheNames()
    ensures forall name :: name in {"a", "b", "c", "d", "e", "app", "tower", "db", "db-1"} ==> Letters(name)
  {
    hide Letters;
    PlainLetters("a");
    PlainLetters("b");
    PlainLetters("c");
    PlainLetters("d");
    PlainLetters("e");
    PlainLetters("app");
    PlainLetters("tower");
    PlainLetters("db");
    PlainLetters("db-1");
  }

  method MakeContainer(name: string, dependsOn: string, isWatchtower: bool) returns (c: Container)
    requires Letters(name)
    ensures fresh(c) && Named(c, name, dependsOn) && c.isWatchtower == isWatchtower && !c.monitorOnly && c.verifies
    ensures !c.stale && !c.linkedToRestarting && c.imageID == "image" && c.chain == None
  {
    assert name[0] in name;
    c := new Container(name, name, "image", Labels("", "", "", dependsOn, NO_LABEL), [], None, isWatchtower, false,
                       true, "", None);
  }

  lemma NamesOf(c: Container, name: string, dependsOn: string)
    requires Named(c, name, dependsOn)
    ensures c.id == c.name == name
  {
  }

  lemma NamedIdentifier(c: Container, name: string, dependsOn: string)
    requires Named(c, name, dependsOn) && Letters(name)
    ensures Identifier(c) == ResolveContainerIdentifier(c) == name
  {
    assert name[0] in name;
  }

  lemma NoDependencies(c: Container, name: string)
    requires Named(c, name, "")
    ensures Links(c) == []
  {
    assert DependsOnServices(NO_LABEL) == [];
    assert HostConfigLinks(c) == [];
  }

  lemma OneEntry(entry: string)
    requires Letters(entry)
    ensures WatchtowerEntry(entry) == [entry]
  {
    assert entry[0] in entry;
    TrimSpaceFree(entry);
  }

  lemma OneDependency(c: Container, name: string, link: string)
    requires Named(c, name, link) && Letters(link) && link != name
    ensures Links(c) == [link]
  {
    OneEntry(link);
    SplitWhole(link, ',');
    assert [link][..0] == [];
    assert Collect(WatchtowerEntry, [link]) == [link];
    assert WithoutSelf([], name) == [];
    assert WithoutSelf([link], name) == [link];
  }

  lemma TwoDependencies(c: Container, name: string, first: string, second: string)
    requires Named(c, name, first + "," + second) && Letters(first) && Letters(second) && name !in [first, second]
    ensures Links(c) == [first, second]
  {
    OneEntry(first);
    OneEntry(second);
    SplitFirst(first, second, ',');
    SplitWhole(second, ',');
    var both := [first, second];
    assert Split(first + "," + second, ',') == both;
    assert both[..1] == [first] && [first][..0] == [];
    assert Collect(WatchtowerEntry, [first]) == [first];
    assert Collect(WatchtowerEntry, both) == both;
    assert WithoutSelf([], name) == [];
    assert WithoutSelf([first], name) == [first];
    assert WithoutSelf(both, name) == both;
  }

  // ----- the container a cycle report names

  /** If every link spells a listed identifier, the edges are the links. */
  lemma ListedEdge(cs: seq<Container>, u: string, v: string)
    requires forall c, link :: c in cs && link in Links(c) ==> link in KeysOf(cs)
    ensures Edge(LinkGraph(cs), u, v) <==> u != v && exists c :: c in cs && Identifier(c) == v && u in Links(c)
  {
    hide Identifier, Links, LinkGraph, KeysOf;
    LinkGraphEdge(cs, u, v);
    if exists c :: c in cs && Identifier(c) == v && u in Links(c) {
      var c :| c in cs && Identifier(c) == v && u in Links(c);
      if u != v {
        NamedTarget(KeysOf(cs), v, u);
        assert LinksToKey(KeysOf(cs), c, u);
      }
    }
    if Edge(LinkGraph(cs), u, v) {
      var c :| c in cs && v == Identifier(c) && LinksToKey(KeysOf(cs), c, u);
      var link :| link in Links(c) && u in Targets(KeysOf(cs), v, link);
      assert link in KeysOf(cs);
    }
  }

  /** b and c depend on each other, d and e do, a depends on c, and d also depends on a. */
  ghost predicate TwoLoops(cs: seq<Container>) {
    && |cs| == 5 && Identifiers(cs) == ["a", "b", "c", "d", "e"]
    && Links(cs[0]) == ["c"] && Links(cs[1]) == ["c"] && Links(cs[2]) == ["b"] && Links(cs[3]) == ["a", "e"]
    && Links(cs[4]) == ["d"]
  }

  predicate LoopEdge(u: string, v: string) {
    (u, v) in {("c", "a"), ("c", "b"), ("b", "c"), ("a", "d"), ("e", "d"), ("d", "e")}
  }

  lemma LoopKeys(cs: seq<Container>)
    requires TwoLoops(cs)
    ensures KeysOf(cs) == {"a", "b", "c", "d", "e"} && DistinctIdentifiers(cs)
    ensures forall c, link :: c in cs && link in Links(c) ==> link in KeysOf(cs)
  {
    hide Identifier, Links, Identifiers;
    assert cs == [cs[0], cs[1], cs[2], cs[3], cs[4]];
  }

  /** The container with this identifier. */
  function LoopIndex(v: string): nat {
    if v == "a" then 0 else if v == "b" then 1 else if v == "c" then 2 else if v == "d" then 3 else 4
  }

  lemma LoopLinks(cs: seq<Container>, k: nat, u: string)
    requires TwoLoops(cs) && k < 5
    ensures u in Links(cs[k]) <==> LoopEdge(u, Identifier(cs[k]))
    ensures Identifier(cs[k]) == Identifiers(cs)[k] && LoopIndex(Identifier(cs[k])) == k
  {
    hide Identifier, Links;
    assert Identifier(cs[k]) == Identifiers(cs)[k];
  }

  lemma LoopEdges(cs: seq<Container>, u: string, v: string)
    requires TwoLoops(cs)
    ensures Edge(LinkGraph(cs), u, v) <==> LoopEdge(u, v)
    ensures KeysOf(cs) == {"a", "b", "c", "d", "e"} && DistinctIdentifiers(cs)
  {
    hide Identifier, Links, LinkGraph, Edge, KeysOf, DistinctIdentifiers, Identifiers;
    LoopKeys(cs);
    ListedEdge(cs, u, v);
    forall k: nat | k < 5
      ensures u in Links(cs[k]) <==> LoopEdge(u, Identifier(cs[k]))
      ensures Identifier(cs[k]) == Identifiers(cs)[k]
    {
      LoopLinks(cs, k, u);
    }
    if LoopEdge(u, v) {
      var c := cs[LoopIndex(v)];
      assert c in cs && Identifier(c) == v && u in Links(c);
    }
  }

  /** The report names a, the first container left over, which lies on no cycle; the path it gives is a
      cycle elsewhere. */
  lemma NamedOffCycle(cs: seq<Container>, error: SortError)
    requires TwoLoops(cs) && ReportsCycle(cs, error)
    ensures error.container == "a" && error.path != []
    ensures !OnCycle(LinkGraph(cs), "a")
  {
    hide LinkGraph, KeysOf, Order, Unsorted, TwoLoops, SimpleCycle, DistinctIdentifiers, Identifiers;
    var g := LinkGraph(cs);
    forall u, v ensures Edge(g, u, v) <==> LoopEdge(u, v) {
      LoopEdges(cs, u, v);
    }
    LoopEdges(cs, "a", "a");
    LeftOver(cs, g);
    LeastIsFirst(Unsorted(cs));
    AheadOfLoop(g);
    NotOnLoop(g);
  }

  lemma LeftOver(cs: seq<Container>, g: Adjacency)
    requires g == LinkGraph(cs) && DistinctIdentifiers(cs) && KeysOf(cs) == {"a", "b", "c", "d", "e"}
    requires forall u, v :: Edge(g, u, v) <==> LoopEdge(u, v)
    ensures "a" in Unsorted(cs) && Unsorted(cs) <= {"a", "b", "c", "d", "e"}
  {
    hide LinkGraph, KeysOf, Order, DistinctIdentifiers;
    var p := ["c", "b", "c"];
    assert Cycle(g, p) && "c" in p;
    var q := ["c", "a"];
    assert Walk(g, q) && q[0] == "c" && q[|q| - 1] == "a";
    assert OnCycle(g, "c") && Reaches(g, "c", "a");
    UnsortedIffBehindCycle(cs, "a");
  }

  lemma NotBeforeA(x: string)
    requires x != "" && x[0] >= 'a'
    ensures !Less(x, "a")
  {
  }

  lemma LeastIsFirst(names: set<string>)
    requires "a" in names && names <= {"a", "b", "c", "d", "e"}
    ensures Ascending(names)[0] == "a"
  {
    hide Less, Ascending;
    AscendingLeast(names);
    NotBeforeA(Ascending(names)[0]);
  }

  lemma AheadOfLoop(g: Adjacency)
    requires forall u, v :: Edge(g, u, v) <==> LoopEdge(u, v)
    ensures ReachesCycle(g, "a")
  {
    var p := ["d", "e", "d"];
    assert Cycle(g, p) && "d" in p;
    var q := ["a", "d"];
    assert Walk(g, q) && q[0] == "a" && q[|q| - 1] == "d";
    assert OnCycle(g, "d") && Reaches(g, "a", "d");
  }

  lemma NotOnLoop(g: Adjacency)
    requires forall u, v :: Edge(g, u, v) <==> LoopEdge(u, v)
    ensures !OnCycle(g, "a")
  {
    forall q | Cycle(g, q) ensures q[0] != "a" {
      if q[0] == "a" {
        LeavesForLoop(g, q);
      }
    }
    if OnCycle(g, "a") {
      var p :| Cycle(g, p) && "a" in p;
      CycleAt(g, p, "a");
    }
  }

  lemma LeavesForLoop(g: Adjacency, q: seq<string>)
    requires forall u, v :: Edge(g, u, v) <==> LoopEdge(u, v)
    requires Walk(g, q) && |q| > 1 && q[0] == "a"
    ensures q[|q| - 1] in {"d", "e"}
  {
    assert Edge(g, q[0], q[1]);
    WalkSlice(g, q, 1, |q|);
    var rest := q[1..|q|];
    assert rest[0] == "d";
    ClosedKeepsWalk(g, {"d", "e"}, rest);
    assert rest[|rest| - 1] in rest;
  }

  /** Such containers, sorted. */
  method SortTwoLoops() returns (cs: seq<Container>, r: Result<seq<Container>>)
    ensures r.Failure? && r.error.CircularReference? && r.error.container == "a" && r.error.path != []
    ensures !OnCycle(LinkGraph(cs), r.error.container) && SimpleCycle(LinkGraph(cs), r.error.path)
  {
    hide Identifier, Links, LinkGraph, Sorted, Letters, SimpleCycle, OnCycle, TwoLoops, DistinctIdentifiers;
    TheNames();
    var a := MakeContainer("a", "c", false);
    var b := MakeContainer("b", "c", false);
    var c := MakeContainer("c", "b", false);
    var d := MakeContainer("d", "a,e", false);
    var e := MakeContainer("e", "d", false);
    cs := [a, b, c, d, e];
    LoopContainers(cs);
    LoopsCollide(cs);
    r := SortByDependencies(cs);
    NamedOffCycle(cs, r.error);
  }

  lemma LoopContainers(cs: seq<Container>)
    requires |cs| == 5 && Named(cs[0], "a", "c") && Named(cs[1], "b", "c") && Named(cs[2], "c", "b")
    requires Named(cs[3], "d", "a,e") && Named(cs[4], "e", "d")
    ensures TwoLoops(cs)
  {
    hide Identifier, Links, Named, Letters;
    TheNames();
    NamedIdentifier(cs[0], "a", "c");
    NamedIdentifier(cs[1], "b", "c");
    NamedIdentifier(cs[2], "c", "b");
    NamedIdentifier(cs[3], "d", "a,e");
    NamedIdentifier(cs[4], "e", "d");
    OneDependency(cs[0], "a", "c");
    OneDependency(cs[1], "b", "c");
    OneDependency(cs[2], "c", "b");
    assert "a,e" == "a" + "," + "e";
    TwoDependencies(cs[3], "d", "a", "e");
    OneDependency(cs[4], "e", "d");
  }

  lemma LoopsCollide(cs: seq<Container>)
    requires TwoLoops(cs)
    ensures Sorted(cs).None? && DistinctIdentifiers(cs)
  {
    hide LinkGraph, KeysOf, Order, TwoLoops, Sorted, Identifiers;
    LoopEdges(cs, "b", "c");
    LoopEdges(cs, "c", "b");
    assert Cycle(LinkGraph(cs), ["c", "b", "c"]);
    SortExact(cs);
  }

  // ----- a failure that is not shown

  /** A container that restarts only because of a link can be removed and fail to start; with the image
      it had, it is filed as fresh whatever else happens. */
  lemma LinkedFailureIsFresh(c: Container, config: Config)
    requires c.linkedToRestarting && !c.stale && c.verifies && !c.isWatchtower
    requires !config.noRestart && !config.rollingRestart
    ensures exists events, failed ::
              && Ran([c], config, events, failed, false)
              && Stop(c.id, Removed) in events && Start(c.id, true) !in events && c.id in failed
              && forall category, before | FiledAs(c, category, before, true, config, events, failed) ::
                   category == FreshState
  {
    var events, failed := [Stop(c.id, Removed), Start(c.id, false)], {c.id};
    FailingRestart(c, config, events, failed);
    assert events[0] == Stop(c.id, Removed) && c.id in failed;
    HiddenFailure(c, config, events, failed);
  }

  lemma HiddenFailure(c: Container, config: Config, events: seq<Event>, failed: set<string>)
    requires c.id in failed
    ensures forall category, before | FiledAs(c, category, before, true, config, events, failed) ::
              category == FreshState
  {
  }

  /** Removed, and not started. */
  lemma FailingRestart(c: Container, config: Config, events: seq<Event>, failed: set<string>)
    requires c.ToRestart() && Stoppable(c) && !c.isWatchtower && !config.noRestart && !config.rollingRestart
    requires events == [Stop(c.id, Removed), Start(c.id, false)] && failed == {c.id}
    ensures Ran([c], config, events, failed, false)
  {
    hide StopVerdicts, StartVerdicts, StopsSettled, StartedUpTo, EligibleIDs, TowersStop;
    var list := [c];
    assert Distinct(IDs(list));
    var none: map<string, Failure> := map[];
    var stops, starts := [Stop(c.id, Removed)], [Start(c.id, false)];
    NoStops(list, config);
    StopVerdictNext(list, 0, config, none, {}, [], None, stops, false);
    StopSucceeds(list, 0, config, none, {}, [], stops);
    assert [] + stops == stops && [] + starts == starts && {} + {c.id} == {c.id};
    var eligible := EligibleIDs(list, {c.id}, config);
    EligibleAt(list, 0, {c.id}, config);
    NothingStarted(list, config, eligible);
    StartedNext(list, 0, config, eligible, none, {}, [], Some(StartFailed), starts);
    var failedStart := none[c.id := StartFailed];
    TowersUnaffected(list);
    assert events == stops + starts && failed == none.Keys + failedStart.Keys;
    assert RanBatch(list, config, events, failed, false, {c.id}, none, failedStart, {}, stops, starts);
  }

  lemma TowersUnaffected(cs: seq<Container>)
    ensures TowersStop(cs, map[], false)
  {
  }

  // ----- a container lost to a Watchtower update

  /** app depends on the Watchtower instance. */
  predicate LinkedToTower(app: Container, tower: Container) {
    && Named(app, "app", "tower") && Named(tower, "tower", "") && !app.isWatchtower && tower.isWatchtower
    && !app.monitorOnly && !tower.monitorOnly && app.verifies
  }

  lemma TowerLinks(app: Container, tower: Container)
    requires LinkedToTower(app, tower)
    ensures Links(app) == ["tower"] && Links(tower) == []
    ensures MatchesMember(app, {tower})
  {
    hide Links, Letters;
    TheNames();
    OneDependency(app, "app", "tower");
    NoDependencies(tower, "tower");
    assert "tower" in Links(app) && LinkMatches("tower", tower);
  }

  /** With restarts off, the update of a Watchtower instance can lose the containers that depend on it:
      app is on the restart list, and there is a run that removes it, does not start it and records no
      failure. */
  lemma TowerUpdateLosesLinked(app: Container, tower: Container, list: seq<Container>, candidates: seq<Container>,
                               config: Config)
    requires LinkedToTower(app, tower) && config.noRestart
    requires tower.stale && !app.stale && Spread([app, tower], [app, tower])
    requires RestartList([app, tower], list, candidates)
    ensures app in list
    ensures exists events, failed :: Ran(list, config, events, failed, false) && Lost(events, failed, app.id)
  {
    hide Links, Identifier, SortedInPlace, Ran, Lost, LossesExplained, LinkMatches;
    var all := [app, tower];
    TowerLinks(app, tower);
    OneRegularSorts(app, tower);
    LinkedSpreads(all, app, tower);
    SortListKeeps(candidates, list);
    assert app in candidates && app in Elements(candidates);
    assert app in list;
    forall c | c in list ensures c in all && c.ToRestart() {
      assert c in Elements(list);
      assert c in Elements(candidates);
    }
    assert UniqueIDs(all);
    SublistIDs(all, list);
    var events, failed := SmoothRun(list, config);
    RanLosses(list, config, events, failed, false);
    LosesRemoved(list, config, events, failed, app);
  }

  lemma OneRegularSorts(c: Container, tower: Container)
    requires !c.isWatchtower && tower.isWatchtower
    ensures SortedInPlace([c, tower]).Some?
  {
    hide Identifier, LinkGraph, Sorted;
    var cs := [c];
    assert [c, tower][..1] == cs && cs[..0] == [];
    assert Regular([]) == [];
    assert Regular(cs) == cs;
    assert Regular([c, tower]) == cs;
    assert Identifiers(cs) == [Identifier(c)];
    forall u, v ensures !Edge(LinkGraph(cs), u, v) {
      LinkGraphEdge(cs, u, v);
    }
    OrderedAcyclic(LinkGraph(cs), []);
    SortExact(cs);
  }

  /** A restart spreads along a link. */
  lemma LinkedSpreads(all: seq<Container>, c: Container, d: Container)
    requires Spread(all, all) && c in all && d in all && d.stale && MatchesMember(c, {d})
    requires SortedInPlace(all).Some?
    ensures c.ToRestart()
  {
    hide SortedInPlace, Links, LinkMatches;
    var link :| link in Links(c) && LinkMatches(link, d);
    assert d in StaleOnes(all);
    assert d in Restarting(all);
    assert MatchesMember(c, Restarting(all));
    assert c in Restarting(all);
  }

  // ----- a plan that fails in its second sort

  /** Only db-1 is outdated; app links to db, and db-1 to app. */
  predicate Exposed(db: Container, replica: Container, app: Container) {
    && Named(db, "db", "") && Named(replica, "db-1", "app") && Named(app, "app", "db")
    && !db.isWatchtower && !replica.isWatchtower && !app.isWatchtower
    && !db.monitorOnly && !replica.monitorOnly && !app.monitorOnly && replica.verifies
  }

  lemma ExposedLinks(db: Container, replica: Container, app: Container)
    requires Exposed(db, replica, app)
    ensures ReplicaLinks(db, replica, app)
    ensures forall c :: c in [db, replica, app] ==> c.name == ResolveContainerIdentifier(c) == Identifier(c)
  {
    hide Identifier, Links, ResolveContainerIdentifier, Letters, Named;
    TheNames();
    NamesOf(db, "db", "");
    NamesOf(replica, "db-1", "app");
    NamesOf(app, "app", "db");
    NoDependencies(db, "db");
    OneDependency(replica, "db-1", "app");
    OneDependency(app, "app", "db");
    NamedIdentifier(db, "db", "");
    NamedIdentifier(replica, "db-1", "app");
    NamedIdentifier(app, "app", "db");
  }

  /** The link to db matches db-1 by service name. */
  lemma DbMatchesReplica(replica: Container, app: Container)
    requires Named(replica, "db-1", "app") && Links(app) == ["db"]
    ensures MatchesMember(app, {replica})
  {
    hide Links;
    SplitWhole("db", '-');
    assert "db" <= "db-1"[0..];
    assert "db" in Links(app) && LinkMatches("db", replica);
  }

  /** The restart of db-1 spreads to app but not to db, so the containers to restart are exactly those
      two, and they cannot be sorted although the whole list can. */
  lemma ReplicaExposed(db: Container, replica: Container, app: Container, candidates: seq<Container>)
    requires Exposed(db, replica, app)
    requires replica.stale && !db.stale && !app.stale && Spread([db, replica, app], [db, replica, app])
    requires AreCandidates([db, replica, app], candidates)
    ensures SortedInPlace([db, replica, app]).Some? && SortedInPlace(candidates).None?
  {
    hide Identifier, Links, ResolveContainerIdentifier, Sorted, Named, ReplicaLinks, LinkMatches;
    var all := [db, replica, app];
    ExposedLinks(db, replica, app);
    WholeListSorts(db, replica, app);
    AllRegular(all);
    DependsOnDb(db, replica, app);
    DbMatchesReplica(replica, app);
    LinkedSpreads(all, app, replica);
    DbStays(all, db, replica, app);
    assert forall c :: c in candidates ==> c in [replica, app];
    assert replica in candidates && app in candidates;
    AllRegular(candidates);
    WithoutDbFails(db, replica, app, candidates);
  }

  lemma DependsOnDb(db: Container, replica: Container, app: Container)
    requires ReplicaLinks(db, replica, app)
    ensures Links(app) == ["db"] && Links(db) == []
  {
  }

  /** Nothing marks a container without links. */
  lemma DbStays(all: seq<Container>, db: Container, replica: Container, app: Container)
    requires all == [db, replica, app] && Links(db) == [] && db != app && db != replica
    requires replica.stale && !db.stale && !app.stale && Spread(all, all) && SortedInPlace(all).Some?
    ensures !db.ToRestart()
  {
    hide Links, SortedInPlace, LinkMatches, Closed;
    var others := {replica, app};
    assert StaleOnes(all) == {replica};
    ClosedWithoutDb(all, db, others);
    StaysInClosed(all, StaleOnes(all), Restarting(all), others);
    assert db in all && db !in Restarting(all);
  }

  lemma ClosedWithoutDb(all: seq<Container>, db: Container, others: set<Container>)
    requires Links(db) == [] && others <= Elements(all) && forall c :: c in all ==> c == db || c in others
    ensures Closed(all, others)
  {
    hide Links, LinkMatches;
    assert !MatchesMember(db, others);
  }

  lemma StaysInClosed(all: seq<Container>, start: set<Container>, least: set<Container>, others: set<Container>)
    requires LeastClosed(all, all, start, least)
    requires start <= others <= Elements(all) && Closed(all, others)
    ensures least <= others
  {
    hide Closed;
  }

  /** The detector marks nothing here. */
  lemma NothingMarked(db: Container, replica: Container, app: Container, marks: set<string>)
    requires Exposed(db, replica, app) && Sound(DetectorGraph([db, replica, app]), marks)
    ensures marks == {}
  {
    hide Identifier, Links, ResolveContainerIdentifier, DetectorGraph, Named, ReplicaLinks;
    var cs, order := [db, replica, app], ["db", "app", "db-1"];
    ExposedLinks(db, replica, app);
    ReplicaIdentifiers(db, replica, app);
    WholeListSorts(db, replica, app);
    assert IndexOf(order, "db") == 0 && IndexOf(order, "app") == 1 && IndexOf(order, "db-1") == 2;
    forall u, v | Edge(DetectorGraph(cs), u, v) ensures IndexOf(order, v) < IndexOf(order, u) {
      DetectorEdgeIsLink(cs, u, v);
      var c :| c in cs && ResolveContainerIdentifier(c) == u && v in Links(c);
      ReplicaLink(db, replica, app, c, v);
    }
    OrderedAcyclic(DetectorGraph(cs), order);
    MarksNeedCycles(DetectorGraph(cs), marks);
  }

  lemma MarksNeedCycles(g: Adjacency, marks: set<string>)
    requires Sound(g, marks)
    ensures marks != {} ==> HasCycle(g)
  {
    if marks != {} {
      var n :| n in marks;
      assert OnCycle(g, n);
    }
  }

  lemma ReplicaLink(db: Container, replica: Container, app: Container, c: Container, v: string)
    requires ReplicaLinks(db, replica, app) && c in [db, replica, app] && v in Links(c)
    ensures (Identifier(c) == "db-1" && v == "app") || (Identifier(c) == "app" && v == "db")
  {
    hide Identifier, Links;
  }

  lemma NoSelfDependency(c: Container, name: string, link: string)
    requires Named(c, name, link) && name != link && (link == "" || Letters(link))
    ensures !HasSelfDependency(c)
  {
    if link != "" {
      OneEntry(link);
      SplitWhole(link, ',');
      assert [link][..0] == [];
      assert Collect(WatchtowerEntry, [link]) == [link];
    }
  }

  const DEFAULTS := Config(false, false, false, false, false, "")

  /** Only the container of this name is outdated. */
  function Outdated(name: string): Answers {
    Answers((c: Container) => true, (c: Container) => NotPinned,
            (c: Container) => StaleCheck(c.name == name, "new image", false))
  }

  lemma {:induction false} AllFiltered(cs: seq<Container>, name: string)
    ensures Filtered(cs, Outdated(name).filter) == cs
  {
    if cs != [] {
      var n := |cs| - 1;
      AllFiltered(cs[..n], name);
      assert cs == cs[..n] + [cs[n]];
    }
  }

  lemma OnlyReplicaStale(db: Container, replica: Container, app: Container, plan: PlanRecord)
    requires Exposed(db, replica, app) && Scheduled([db, replica, app], DEFAULTS, Outdated("db-1"), plan)
    ensures replica.stale && !db.stale && !app.stale
  {
    hide DetectorGraph, HasSelfDependency, ResolveContainerIdentifier, Sound, HitsEveryCycle, Letters;
    TheNames();
    NothingMarked(db, replica, app, plan.marks);
    NoSelfDependency(replica, "db-1", "app");
    assert replica in [db, replica, app] && db in [db, replica, app] && app in [db, replica, app];
  }

  /** An update session over such containers: unless it is canceled, it fails in its second sort. */
  method UpdateReplica(client: Client) returns (result: UpdateResult)
    modifies client
    ensures result.SortFailed? || client.canceled
  {
    hide Carried, Scheduled, Spread, RestartList, Unplannable, ReportExact, LossesExplained, UniqueNames, AreCandidates,
         Ran, Filtered, WellNamed, Final, SessionReport.Files, IDSet, SortedInPlace, Outdated, Letters, Exposed,
         Distinct;
    TheNames();
    var db := MakeContainer("db", "", false);
    var replica := MakeContainer("db-1", "app", false);
    var app := MakeContainer("app", "db", false);
    var all := [db, replica, app];
    IsExposed(db, replica, app);
    ExposedUnique(db, replica, app);
    AllFiltered(all, "db-1");
    ghost var plan, events, failed, statuses;
    result, plan, events, failed, statuses := Update(Some(all), client, DEFAULTS, Outdated("db-1"));
    if Carried(all, all, DEFAULTS, Outdated("db-1"), plan, events, failed, client.canceled) {
      ReplicaNotCarried(db, replica, app, plan, events, failed, client.canceled);
    }
  }

  lemma IsExposed(db: Container, replica: Container, app: Container)
    requires Named(db, "db", "") && Named(replica, "db-1", "app") && Named(app, "app", "db") && replica.verifies
    requires forall c :: c in [db, replica, app] ==> !c.isWatchtower && !c.monitorOnly
    ensures Exposed(db, replica, app)
  {
    assert db in [db, replica, app] && replica in [db, replica, app] && app in [db, replica, app];
  }

  lemma ExposedUnique(db: Container, replica: Container, app: Container)
    requires Exposed(db, replica, app)
    ensures UniqueNames([db, replica, app]) && Distinct([db, replica, app])
  {
  }

  lemma ReplicaNotCarried(db: Container, replica: Container, app: Container, plan: PlanRecord, events: seq<Event>,
                          failed: set<string>, canceled: bool)
    requires Exposed(db, replica, app)
    ensures !Carried([db, replica, app], [db, replica, app], DEFAULTS, Outdated("db-1"), plan, events, failed, canceled)
  {
    hide Scheduled, Spread, AreCandidates, Ran, SortedInPlace, Outdated, Exposed;
    var all := [db, replica, app];
    if Carried(all, all, DEFAULTS, Outdated("db-1"), plan, events, failed, canceled) {
      OnlyReplicaStale(db, replica, app, plan);
      ReplicaExposed(db, replica, app, plan.candidates);
    }
  }
}
