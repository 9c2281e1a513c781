/** Deploy and update agree on one dependency graph: the labels serviceLabels writes
    (internal/actions/services.go) are resolved back by the sorter to the declared edges. */
module DeployAgreement {
  import opened Text
  import opened Digraph
  import opened Compose
  import opened Containers
  import opened LinkResolution
  import opened ImplicitRestart
  import opened Sorter
  import opened Services

  // ----- what a deployment writes

  /** The depends_on label: a JSON object for a mapping, else the comma-separated names. */
  function DependsOnValue(dependsOn: DependsOn): DependsOnLabel {
    if dependsOn.values != {} then Object(dependsOn.values)
    else if dependsOn.names != [] then Plain(Join(dependsOn.names, ','))
    else NO_LABEL
  }

  method EncodeDependsOn(dependsOn: DependsOn) returns (value: DependsOnLabel)
    ensures value == DependsOnValue(dependsOn)
    ensures dependsOn.values != {} ==> value == Object(dependsOn.values)
  {
    if dependsOn.values != {} {
      var payload, rest := {}, dependsOn.values;
      while rest != {}
        invariant payload + rest == dependsOn.values
      {
        var name :| name in rest;
        payload, rest := payload + {name}, rest - {name};
      }
      return Object(payload);
    }
    if dependsOn.names != [] {
      return Plain(Join(dependsOn.names, ','));
    }
    return NO_LABEL;
  }

  /** The labels of a service container: the user's, with the Compose ones written over them. */
  function ServiceLabels(app: string, service: string, user: Labels, dependsOn: DependsOn): Labels {
    var value := DependsOnValue(dependsOn);
    Labels(app, service, "1", user.watchtowerDependsOn, if value != NO_LABEL then value else user.composeDependsOn)
  }

  function ResolveContainerName(app: string, service: string, containerName: string): string {
    if containerName != "" then containerName else app + "-" + service + "-1"
  }

  /** c is the container deployed for the service under its default name. The daemon reports the
      name with a leading slash, which the listing strips. The user's labels set no dependencies. */
  ghost predicate Deployed(c: Container, app: string, service: string, dependsOn: DependsOn) {
    && c.name == NormalizeContainerName("/" + ResolveContainerName(app, service, ""))
    && c.labels == ServiceLabels(app, service, Labels("", "", "", "", NO_LABEL), dependsOn)
    && c.hostLinks == [] && c.connectedContainer == None
  }

  /** A name that cannot be mistaken for anything else: no hyphen, separator, slash or blank. */
  predicate PlainName(name: string) {
    name != "" && forall c :: c in name ==> c !in "-,:/{" && !IsSpace(c)
  }

  ghost predicate PlainSpec(app: string, services: DependencySpec) {
    && app != "" && app[0] != '/'
    && (forall s :: s in services ==> PlainName(s))
    && (forall s, d :: s in services && d in ServiceDependencies(services[s]) ==> PlainName(d))
  }

  function DefaultName(app: string, service: string): string {
    app + "-" + service + "-1"
  }

  /** Under whatever container name it is deployed, a service is filed like under its default name. */
  lemma CustomNameIdentifier(c: Container, app: string, service: string, user: Labels, dependsOn: DependsOn)
    requires app != "" && service != "" && c.labels == ServiceLabels(app, service, user, dependsOn)
    requires !(app + "-" + service + "-" <= c.name)
    ensures ResolveContainerIdentifier(c) == DefaultName(app, service)
  {
  }

  /** The user's own dependency labels survive, unless the deployment declares dependencies itself. */
  lemma UserLabelsKept(app: string, service: string, user: Labels, dependsOn: DependsOn)
    ensures ServiceLabels(app, service, user, dependsOn).watchtowerDependsOn == user.watchtowerDependsOn
    ensures dependsOn.values == {} && dependsOn.names == [] ==>
              ServiceLabels(app, service, user, dependsOn).composeDependsOn == user.composeDependsOn
    ensures dependsOn.values != {} ==>
              ServiceLabels(app, service, user, dependsOn).composeDependsOn == Object(dependsOn.values)
  {
  }

  // ----- reading the labels back

  lemma PlainParts(name: string)
    requires PlainName(name)
    ensures '-' !in name && ',' !in name && ':' !in name && SpaceFree(name) && NormalizeContainerName(name) == name
    ensures EntryServices(name) == [name]
  {
    assert name[0] in name;
    TrimSpaceFree(name);
    SplitWhole(name, ':');
  }

  lemma {:induction false} CollectPlain(names: seq<string>)
    requires forall d :: d in names ==> PlainName(d)
    ensures Collect(EntryServices, names) == names
  {
    hide EntryServices, PlainName, Split, NormalizeContainerName;
    if names != [] {
      var n := |names| - 1;
      CollectPlain(names[..n]);
      PlainParts(names[n]);
      assert names == names[..n] + [names[n]];
    }
  }

  /** Round trip of the label: parsing what was written gives the declared services. */
  lemma DependsOnRoundTrip(dependsOn: DependsOn)
    requires forall d :: d in ServiceDependencies(dependsOn) ==> PlainName(d)
    ensures DependsOnServices(DependsOnValue(dependsOn)) == ServiceDependencies(dependsOn)
  {
    var names := dependsOn.names;
    if dependsOn.values == {} && names != [] {
      assert names[0] in names;
      forall d | d in names ensures ',' !in d {
        PlainParts(d);
      }
      SplitJoin(names, ',');
      CollectPlain(names);
    }
  }

  lemma PrefixHasHyphen(app: string, dep: string)
    ensures app + "-" <= dep ==> '-' in dep
  {
    if app + "-" <= dep {
      assert dep[|app|] == '-';
    }
  }

  lemma QualifyPlain(app: string, dep: string)
    requires PlainName(dep) && app != ""
    ensures Qualify(app, NormalizeContainerName(dep)) == app + "-" + dep
  {
    PlainParts(dep);
    PrefixHasHyphen(app, dep);
  }

  lemma DefaultNameTail(app: string, service: string)
    ensures app + "-" <= DefaultName(app, service)
    ensures DefaultName(app, service)[|app| + 1..] == service + "-1"
  {
  }

  /** Only a service name with a hyphen could spell the default name of a container. */
  lemma SpellsDefaultName(app: string, dep: string, service: string)
    ensures app + "-" + dep == DefaultName(app, service) ==> '-' in dep
  {
    if app + "-" + dep == DefaultName(app, service) {
      assert (app + "-" + dep)[|app| + 1..] == dep;
      DefaultNameTail(app, service);
      assert (service + "-1")[|service|] == '-';
    }
  }

  /** The links of a deployed container are its declared dependencies, qualified with the project. */
  lemma DeployedLinks(c: Container, app: string, service: string, dependsOn: DependsOn, link: string)
    requires Deployed(c, app, service, dependsOn) && app != "" && PlainName(service)
    requires forall d :: d in ServiceDependencies(dependsOn) ==> PlainName(d)
    ensures link in Links(c) <==> exists d :: d in ServiceDependencies(dependsOn) && link == app + "-" + d
  {
    var deps := ServiceDependencies(dependsOn);
    var links := QualifyAll(app, deps);
    DependsOnRoundTrip(dependsOn);
    assert c.name == DefaultName(app, service);
    forall i | 0 <= i < |deps| ensures links[i] == app + "-" + deps[i] && links[i] != c.name {
      QualifyPlain(app, deps[i]);
      PlainParts(deps[i]);
      SpellsDefaultName(app, deps[i], service);
    }
  }

  // ----- resolving the links

  lemma ShorterPrefix(dep: string, service: string)
    ensures dep + "-" <= service + "-1" && |dep| < |service| ==> '-' in service
  {
    if dep + "-" <= service + "-1" && |dep| < |service| {
      assert (dep + "-")[|dep|] == (service + "-1")[|dep|] == service[|dep|];
    }
  }

  lemma LongerPrefix(dep: string, service: string)
    ensures dep + "-" <= service + "-1" && |dep| > |service| ==> '-' in dep
  {
    if dep + "-" <= service + "-1" && |dep| > |service| {
      assert dep[|service|] == (dep + "-")[|service|] == (service + "-1")[|service|];
    }
  }

  /** A hyphen-free name followed by a hyphen opens service-1 only if it is that service. */
  lemma PrefixIsService(dep: string, service: string)
    requires '-' !in dep && '-' !in service
    ensures dep + "-" <= service + "-1" <==> dep == service
  {
    ShorterPrefix(dep, service);
    LongerPrefix(dep, service);
    if dep + "-" <= service + "-1" {
      assert dep == (dep + "-")[..|dep|] == (service + "-1")[..|dep|];
      assert service == (service + "-1")[..|service|];
    }
  }

  lemma OneIsPositive()
    ensures IsPositiveInteger("1")
  {
    assert Value("1"[..0]) == 0;
    assert Value("1") == 1;
  }

  lemma CancelPrefix(a: string, b: string, c: string)
    ensures a + b <= a + c <==> b <= c
  {
    if a + b <= a + c {
      assert b == (a + b)[|a|..] && c == (a + c)[|a|..];
    }
  }

  lemma ReplicaOfDefault(app: string, dep: string, service: string)
    requires '-' !in dep && '-' !in service
    ensures ReplicaOf(DefaultName(app, service), app + "-" + dep) <==> dep == service
  {
    hide IsPositiveInteger;
    var key, link := DefaultName(app, service), app + "-" + dep;
    CancelPrefix(app + "-", dep + "-", service + "-1");
    assert link + "-" == app + "-" + (dep + "-") && key == app + "-" + (service + "-1");
    PrefixIsService(dep, service);
    OneIsPositive();
    assert dep == service ==> key[|link| + 1..] == "1";
  }

  /** A service name read off an identifier has no hyphen, so a qualified link never matches by service. */
  lemma NoServiceMatch(keys: set<string>, link: string)
    requires '-' in link
    ensures ServiceMatches(keys, link) == {}
  {
    forall k ensures ExtractServiceName(k) != link {
      SplitParts(k, '-');
    }
  }

  // ----- the two graphs

  /** cs are the containers of the deployed services, in any order. */
  ghost predicate AllDeployed(cs: seq<Container>, names: seq<string>, app: string, services: DependencySpec) {
    && Lists(names, services.Keys) && |cs| == |names|
    && forall i :: 0 <= i < |cs| ==> names[i] in services && Deployed(cs[i], app, names[i], services[names[i]])
  }

  lemma DeployedIdentifier(c: Container, app: string, service: string, dependsOn: DependsOn)
    requires Deployed(c, app, service, dependsOn) && app != "" && app[0] != '/' && service != ""
    ensures Identifier(c) == c.name == DefaultName(app, service)
  {
    var name := DefaultName(app, service);
    assert ("/" + name)[1..] == name && name[0] == app[0];
    assert app + "-" + service + "-" <= name;
  }

  lemma DefaultNameInjective(app: string, s: string, t: string)
    ensures DefaultName(app, s) == DefaultName(app, t) ==> s == t
  {
    var tail := (n: string) => n + "-1";
    DefaultNameTail(app, s);
    DefaultNameTail(app, t);
    assert s == (s + "-1")[..|s + "-1"| - 2] && t == (t + "-1")[..|t + "-1"| - 2];
  }

  ghost function DefaultNames(app: string, services: set<string>): set<string> {
    set s | s in services :: DefaultName(app, s)
  }

  lemma DeployedIdentifiers(cs: seq<Container>, names: seq<string>, app: string, services: DependencySpec)
    requires AllDeployed(cs, names, app, services) && PlainSpec(app, services)
    ensures Identifiers(cs) == Keys(DefaultNameOf(app), names)
  {
    hide Identifier, DefaultName, Deployed;
    forall i | 0 <= i < |cs| ensures Identifier(cs[i]) == DefaultName(app, names[i]) {
      DeployedIdentifier(cs[i], app, names[i], services[names[i]]);
    }
  }

  function DefaultNameOf(app: string): string -> string {
    service => DefaultName(app, service)
  }

  lemma NamesListed(app: string, names: seq<string>, services: set<string>)
    requires Lists(names, services)
    ensures Lists(Keys(DefaultNameOf(app), names), DefaultNames(app, services))
  {
    hide DefaultName;
    var ids := Keys(DefaultNameOf(app), names);
    forall i, j | 0 <= i < j < |ids| ensures ids[i] != ids[j] {
      DefaultNameInjective(app, names[i], names[j]);
    }
    forall s | s in services ensures DefaultName(app, s) in ids {
      assert s in Elements(names);
      var i :| 0 <= i < |names| && names[i] == s;
      assert ids[i] == DefaultName(app, s);
    }
    forall k | k in ids ensures k in DefaultNames(app, services) {
      var i :| 0 <= i < |ids| && ids[i] == k;
      assert names[i] in Elements(names);
    }
  }

  lemma DeployedKeys(cs: seq<Container>, names: seq<string>, app: string, services: DependencySpec)
    requires AllDeployed(cs, names, app, services) && PlainSpec(app, services)
    ensures KeysOf(cs) == DefaultNames(app, services.Keys) && DistinctIdentifiers(cs)
  {
    hide Identifiers, DefaultNames, DefaultNameOf, PlainSpec, Deployed, Keys, Distinct, Elements;
    DeployedIdentifiers(cs, names, app, services);
    NamesListed(app, names, services.Keys);
  }

  lemma QualifiedReplicas(app: string, services: set<string>, dep: string)
    requires '-' !in dep && forall s :: s in services ==> '-' !in s
    ensures Replicas(DefaultNames(app, services), app + "-" + dep) ==
            if dep in services then {DefaultName(app, dep)} else {}
  {
    hide ReplicaOf, DefaultName;
    var keys := DefaultNames(app, services);
    forall k | k in keys ensures ReplicaOf(k, app + "-" + dep) <==> dep in services && k == DefaultName(app, dep) {
      var s :| s in services && k == DefaultName(app, s);
      ReplicaOfDefault(app, dep, s);
      DefaultNameInjective(app, dep, s);
    }
  }

  /** A declared dependency resolves to the container of that very service, if the service exists. */
  lemma QualifiedCandidates(app: string, services: set<string>, dep: string)
    requires '-' !in dep && forall s :: s in services ==> '-' !in s
    ensures Candidates(DefaultNames(app, services), app + "-" + dep) ==
            if dep in services then [DefaultName(app, dep)] else []
  {
    hide Replicas, ServiceMatches, DefaultName;
    var keys, link := DefaultNames(app, services), app + "-" + dep;
    forall k | k in keys ensures k != link {
      var s :| s in services && k == DefaultName(app, s);
      SpellsDefaultName(app, dep, s);
    }
    QualifiedReplicas(app, services, dep);
    assert link[|app|] == '-';
    NoServiceMatch(keys, link);
    AscendingOne(DefaultName(app, dep));
  }

  lemma DeployedTarget(c: Container, app: string, services: DependencySpec, service: string, dep: string, t: string)
    requires PlainSpec(app, services) && service in services
    requires Deployed(c, app, service, services[service]) && dep in ServiceDependencies(services[service])
    ensures t in Targets(DefaultNames(app, services.Keys), DefaultName(app, service), app + "-" + dep) <==>
            dep in services && dep != service && t == DefaultName(app, dep)
  {
    hide DefaultName, Candidates, DefaultNames;
    PlainParts(dep);
    forall s | s in services ensures '-' !in s {
      PlainParts(s);
    }
    QualifiedCandidates(app, services.Keys, dep);
    DefaultNameInjective(app, dep, service);
  }

  /** The links of one deployed container lead to its declared, existing dependencies, itself excepted. */
  lemma DeployedLinksTo(c: Container, app: string, services: DependencySpec, service: string, t: string)
    requires PlainSpec(app, services) && service in services && Deployed(c, app, service, services[service])
    ensures Identifier(c) == DefaultName(app, service)
    ensures LinksToKey(DefaultNames(app, services.Keys), c, t) <==>
            exists d ::
              d in services && d != service && d in ServiceDependencies(services[service]) && t == DefaultName(app, d)
  {
    hide Identifier, Targets, Links, DefaultName, DefaultNames, ServiceDependencies;
    DeployedIdentifier(c, app, service, services[service]);
    var keys, self := DefaultNames(app, services.Keys), DefaultName(app, service);
    var deps := ServiceDependencies(services[service]);
    forall link ensures link in Links(c) <==> exists d :: d in deps && link == app + "-" + d {
      DeployedLinks(c, app, service, services[service], link);
    }
    forall d | d in deps
      ensures t in Targets(keys, self, app + "-" + d) <==> d in services && d != service && t == DefaultName(app, d)
    {
      DeployedTarget(c, app, services, service, d, t);
    }
  }

  ghost predicate DeclaredEdge(app: string, services: DependencySpec, u: string, v: string) {
    exists s, d :: Edge(ServiceGraph(services), s, d) && s != d && u == DefaultName(app, d) && v == DefaultName(app, s)
  }

  lemma DeployedService(cs: seq<Container>, names: seq<string>, app: string, services: DependencySpec, s: string)
    returns (c: Container)
    requires AllDeployed(cs, names, app, services) && s in services
    ensures c in cs && Deployed(c, app, s, services[s])
  {
    hide Deployed;
    assert s in Elements(names);
    var i :| 0 <= i < |names| && names[i] == s;
    c := cs[i];
  }

  lemma DeclaredToLink(cs: seq<Container>, names: seq<string>, app: string, services: DependencySpec, s: string,
                       d: string)
    requires AllDeployed(cs, names, app, services) && PlainSpec(app, services)
    requires Edge(ServiceGraph(services), s, d) && s != d
    ensures Edge(LinkGraph(cs), DefaultName(app, d), DefaultName(app, s))
  {
    hide AllDeployed, DefaultName, DefaultNames, Deployed, Edge, ServiceGraph, LinkGraph, PlainSpec, LinksToKey,
         KeysOf, ServiceDependencies, Identifier;
    ServiceGraphEdge(services, s, d);
    var c := DeployedService(cs, names, app, services, s);
    var t := DefaultName(app, d);
    DeployedLinksTo(c, app, services, s, t);
    DeployedKeys(cs, names, app, services);
    LinkGraphEdge(cs, t, DefaultName(app, s));
    assert c in cs && LinksToKey(KeysOf(cs), c, t);
  }

  lemma LinkToDeclared(cs: seq<Container>, names: seq<string>, app: string, services: DependencySpec, u: string,
                       v: string)
    requires AllDeployed(cs, names, app, services) && PlainSpec(app, services)
    requires Edge(LinkGraph(cs), u, v)
    ensures DeclaredEdge(app, services, u, v)
  {
    hide DefaultName, DefaultNames, Deployed, Edge, ServiceGraph, LinkGraph, PlainSpec, LinksToKey, KeysOf,
         ServiceDependencies, Identifier;
    LinkGraphEdge(cs, u, v);
    var c :| c in cs && v == Identifier(c) && LinksToKey(KeysOf(cs), c, u);
    var i :| 0 <= i < |cs| && cs[i] == c;
    var s := names[i];
    DeployedKeys(cs, names, app, services);
    DeployedLinksTo(c, app, services, s, u);
    var d :| d in services && d != s && d in ServiceDependencies(services[s]) && u == DefaultName(app, d);
    ServiceGraphEdge(services, s, d);
  }

  /** The graph rebuilt from the labels has exactly the declared edges between existing services,
      read from dependency to dependent; only a declared self-dependency has no counterpart. */
  lemma DeployedEdges(cs: seq<Container>, names: seq<string>, app: string, services: DependencySpec)
    requires AllDeployed(cs, names, app, services) && PlainSpec(app, services)
    ensures forall u, v :: Edge(LinkGraph(cs), u, v) <==> DeclaredEdge(app, services, u, v)
  {
    hide DefaultName, Deployed, Edge, ServiceGraph, LinkGraph, PlainSpec, AllDeployed;
    forall u, v ensures Edge(LinkGraph(cs), u, v) <==> DeclaredEdge(app, services, u, v) {
      if Edge(LinkGraph(cs), u, v) {
        LinkToDeclared(cs, names, app, services, u, v);
      }
      if DeclaredEdge(app, services, u, v) {
        var s, d :|
          Edge(ServiceGraph(services), s, d) && s != d && u == DefaultName(app, d) && v == DefaultName(app, s);
        DeclaredToLink(cs, names, app, services, s, d);
      }
    }
  }

  /** The service a default name belongs to. */
  function ServiceOf(app: string): string -> string {
    name => if |name| >= |app| + 3 then name[|app| + 1..|name| - 2] else ""
  }

  lemma ServiceOfDefault(app: string, service: string)
    ensures ServiceOf(app)(DefaultName(app, service)) == service
  {
    assert DefaultName(app, service) == app + "-" + service + "-1";
  }

  lemma LinkCycleDeclared(cs: seq<Container>, names: seq<string>, app: string, services: DependencySpec)
    requires AllDeployed(cs, names, app, services) && PlainSpec(app, services)
    requires HasCycle(LinkGraph(cs))
    ensures HasCycle(ServiceGraph(services))
  {
    hide Deployed, ServiceGraph, LinkGraph, PlainSpec, AllDeployed, Edge, DefaultName, Cycle;
    var g, h, f := LinkGraph(cs), ServiceGraph(services), ServiceOf(app);
    forall u, v | Edge(g, u, v) ensures Edge(h, f(v), f(u)) {
      LinkToDeclared(cs, names, app, services, u, v);
      var s, d :| Edge(h, s, d) && s != d && u == DefaultName(app, d) && v == DefaultName(app, s);
      ServiceOfDefault(app, s);
      ServiceOfDefault(app, d);
    }
    var p :| Cycle(g, p);
    MappedCycle(g, h, f, p);
  }

  lemma DeclaredCycleLinks(cs: seq<Container>, names: seq<string>, app: string, services: DependencySpec)
    requires AllDeployed(cs, names, app, services) && PlainSpec(app, services)
    requires HasCycle(ServiceGraph(services)) && !SelfDependent(services)
    ensures HasCycle(LinkGraph(cs))
  {
    hide Deployed, ServiceGraph, LinkGraph, PlainSpec, AllDeployed, Edge, DefaultName, Cycle;
    var g, h, f := ServiceGraph(services), LinkGraph(cs), DefaultNameOf(app);
    forall s, d | Edge(g, s, d) ensures Edge(h, f(d), f(s)) {
      assert s != d;
      DeclaredToLink(cs, names, app, services, s, d);
    }
    var p :| Cycle(g, p);
    MappedCycle(g, h, f, p);
  }

  /** Some service lists itself under depends_on. */
  ghost predicate SelfDependent(services: DependencySpec) {
    exists s :: Edge(ServiceGraph(services), s, s)
  }

  /** Whatever orderedServiceNames accepts sorts at update time. The two sides disagree only on a
      service that depends on itself, which a deployment rejects and an update ignores. */
  lemma AcceptedSpecSorts(cs: seq<Container>, names: seq<string>, app: string, services: DependencySpec)
    requires AllDeployed(cs, names, app, services) && PlainSpec(app, services)
    ensures DistinctIdentifiers(cs)
    ensures !HasCycle(ServiceGraph(services)) ==> Sorted(cs).Some?
    ensures !SelfDependent(services) ==> (HasCycle(ServiceGraph(services)) <==> Sorted(cs).None?)
  {
    hide Deployed, ServiceGraph, LinkGraph, PlainSpec, AllDeployed, Edge, Sorted, HasCycle, SelfDependent;
    DeployedKeys(cs, names, app, services);
    SortExact(cs);
    if HasCycle(LinkGraph(cs)) {
      LinkCycleDeclared(cs, names, app, services);
    }
    if HasCycle(ServiceGraph(services)) && !SelfDependent(services) {
      DeclaredCycleLinks(cs, names, app, services);
    }
  }

  // ----- restarts follow the declared dependencies

  /** The link to a declared dependency follows the container deployed for it, whatever hyphens the
      application's name has. */
  lemma DeployedFollows(d: Container, app: string, dep: string, dependsOn: DependsOn)
    requires Deployed(d, app, dep, dependsOn) && app != "" && app[0] != '/' && '-' !in dep
    ensures Follows(app + "-" + dep, d)
  {
    hide ServiceLabels;
    var link, name := app + "-" + dep, DefaultName(app, dep);
    assert ("/" + name)[1..] == name && d.name == name;
    assert d.labels.project == app by { LabelledProject(app, dep, dependsOn); }
    assert name == app + "-" + dep + "-1" && name == "" + link + "-1";
    if '-' in app {
      forall p, s ensures !Reads(link, p, s) {
        TwoHyphens(app, dep, p, s);
      }
    } else {
      assert Reads(link, app, dep);
    }
  }

  lemma LabelledProject(app: string, service: string, dependsOn: DependsOn)
    ensures ServiceLabels(app, service, Labels("", "", "", "", NO_LABEL), dependsOn).project == app
  {
  }

  lemma TwoHyphens(app: string, dep: string, p: string, s: string)
    requires '-' in app
    ensures !Reads(app + "-" + dep, p, s)
  {
    var i := FirstHyphen(app);
    assert app == app[..i] + "-" + app[i + 1..];
    SplitConcat(app[..i], app[i + 1..], '-');
    SplitConcat(app, dep, '-');
    ReadsSplit(app + "-" + dep, p, s);
  }

  /** If the container deployed for a service is to restart, so is the one of every service that
      declares a dependency on it. */
  lemma DeployedRestarts(all: seq<Container>, cs: seq<Container>, start: set<Container>, least: set<Container>,
                         app: string, services: DependencySpec, s: string, d: string, c: Container, e: Container)
    requires PlainSpec(app, services) && Edge(ServiceGraph(services), s, d)
    requires s in services && Deployed(c, app, s, services[s]) && d in services && Deployed(e, app, d, services[d])
    requires LeastClosed(all, cs, start, least) && c in cs && e in least
    ensures c in least
  {
    hide Links, Follows, Deployed, ServiceGraph, LeastClosed, ServiceDependencies;
    ServiceGraphEdge(services, s, d);
    DeployedLinks(c, app, s, services[s], app + "-" + d);
    PlainParts(d);
    DeployedFollows(e, app, d, services[d]);
    FollowersRestart(all, cs, start, least, c, app + "-" + d, e);
  }

  /** ... and so is the one of every service that depends on it through others. */
  lemma {:induction false} DependentsRestart(all: seq<Container>, cs: seq<Container>, start: set<Container>,
                                             least: set<Container>, names: seq<string>, app: string,
                                             services: DependencySpec, walk: seq<string>)
    requires AllDeployed(cs, names, app, services) && PlainSpec(app, services)
    requires LeastClosed(all, cs, start, least)
    requires Walk(ServiceGraph(services), walk) && forall s :: s in walk ==> s in services
    requires exists e :: e in least && Deployed(e, app, walk[|walk| - 1], services[walk[|walk| - 1]])
    ensures forall c :: c in cs && Deployed(c, app, walk[0], services[walk[0]]) && |walk| > 1 ==> c in least
  {
    hide Deployed, ServiceGraph, LeastClosed, PlainSpec, Edge;
    if |walk| > 1 {
      var rest := walk[1..];
      WalkSlice(ServiceGraph(services), walk, 1, |walk|);
      assert rest == walk[1..|walk|] && rest[|rest| - 1] == walk[|walk| - 1];
      assert Edge(ServiceGraph(services), walk[0], walk[1]);
      DependentsRestart(all, cs, start, least, names, app, services, rest);
      var next := DeployedService(cs, names, app, services, walk[1]);
      forall c | c in cs && Deployed(c, app, walk[0], services[walk[0]]) ensures c in least {
        if |rest| > 1 {
          DeployedRestarts(all, cs, start, least, app, services, walk[0], walk[1], c, next);
        } else {
          var e :| e in least && Deployed(e, app, walk[1], services[walk[1]]);
          DeployedRestarts(all, cs, start, least, app, services, walk[0], walk[1], c, e);
        }
      }
    }
  }
}
