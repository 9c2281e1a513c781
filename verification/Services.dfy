/** The deploy-side service order (internal/actions/services.go): a depth-first topological
    sort of the declared depends_on lists. */
module Services {
  import opened Text
  import opened Digraph
  import opened CyclePath

  /** depends_on of one service: a mapping (its key set) or a list of names. */
  datatype DependsOn = DependsOn(values: set<string>, names: seq<string>)

  type DependencySpec = map<string, DependsOn>

  ghost function ServiceDependencies(spec: DependsOn): seq<string> {
    if spec.values != {} then Ascending(spec.values) else spec.names
  }

  function Defined(services: set<string>): string -> seq<string> {
    name => if name in services then [name] else []
  }

  /** From each service to the defined services it depends on; self-loops stay. */
  ghost function ServiceGraph(services: DependencySpec): Adjacency {
    map name | name in services :: Collect(Defined(services.Keys), ServiceDependencies(services[name]))
  }

  lemma ServiceGraphEdge(services: DependencySpec, name: string, dep: string)
    ensures Edge(ServiceGraph(services), name, dep) <==>
            name in services && dep in services && dep in ServiceDependencies(services[name])
  {
    if name in services {
      CollectMember(Defined(services.Keys), ServiceDependencies(services[name]), dep);
    }
  }

  /** A mapping wins over a list. */
  method GetServiceDependencies(spec: DependsOn) returns (deps: seq<string>)
    ensures deps == ServiceDependencies(spec)
    ensures spec.values != {} ==> Ascends(deps) && Elements(deps) == spec.values
    ensures spec.values == {} ==> deps == spec.names
  {
    if spec.values == {} {
      return spec.names;
    }
    deps := SortedKeys(spec.values);
  }

  datatype VisitError = NoError | Circular(service: string) | Unknown(service: string)

  function Mark(visited: map<string, int>, name: string): int {
    if name in visited then visited[name] else 0
  }

  /** path holds the services being visited, outermost first; ordered those that are done. */
  ghost predicate Consistent(services: DependencySpec, visited: map<string, int>, ordered: seq<string>,
                             path: seq<string>) {
    && Distinct(path)
    && (path != [] ==> Walk(ServiceGraph(services), path))
    && (forall n :: Mark(visited, n) == 1 <==> n in path)
    && (forall n :: Mark(visited, n) == 2 <==> n in ordered)
    && (forall n :: 0 <= Mark(visited, n) <= 2)
    && Distinct(ordered)
    && Elements(ordered) <= services.Keys
    && Finished(ServiceGraph(services), ordered)
  }

  lemma EnterService(services: DependencySpec, visited: map<string, int>, ordered: seq<string>, path: seq<string>,
                     name: string)
    requires Consistent(services, visited, ordered, path) && Mark(visited, name) == 0
    requires path != [] ==> Edge(ServiceGraph(services), path[|path| - 1], name)
    ensures Consistent(services, visited[name := 1], ordered, path + [name])
    ensures name !in path && name !in ordered
    ensures Elements(path + [name]) == Elements(path) + {name}
  {
    hide ServiceGraph, Finished;
  }

  lemma LeaveService(services: DependencySpec, visited: map<string, int>, ordered: seq<string>, path: seq<string>,
                     name: string)
    requires Consistent(services, visited, ordered, path + [name]) && name in services
    requires forall v :: v in services && v in ServiceDependencies(services[name]) ==> v in ordered
    ensures Consistent(services, visited[name := 2], ordered + [name], path)
  {
    hide ServiceGraph, Finished, ServiceDependencies;
    var inner := path + [name];
    assert inner[|path|] == name && name in inner;
    assert forall i :: 0 <= i < |path| ==> inner[i] == path[i];
    assert name !in path;
    forall n ensures n in inner <==> n in path || n == name {
    }
    assert name !in ordered;
    forall v | Edge(ServiceGraph(services), name, v) ensures v in ordered {
      ServiceGraphEdge(services, name, v);
    }
    FinishedGrows(ServiceGraph(services), ordered, name);
    if path != [] {
      WalkSlice(ServiceGraph(services), inner, 0, |path|);
      assert inner[..|path|] == path;
    }
    var done, marks := ordered + [name], visited[name := 2];
    assert Elements(done) == Elements(ordered) + {name};
    assert Distinct(path);
    assert forall n :: Mark(marks, n) == 1 <==> n in path;
    assert forall n :: Mark(marks, n) == 2 <==> n in done;
    assert Distinct(done);
    assert Finished(ServiceGraph(services), done);
  }

  class ServiceVisitor {
    const services: DependencySpec
    var visited: map<string, int>
    var ordered: seq<string>

    constructor (services: DependencySpec)
      ensures this.services == services && Valid([]) && ordered == []
    {
      this.services, visited, ordered := services, map[], [];
    }

    ghost predicate Valid(path: seq<string>)
      reads this
    {
      Consistent(services, visited, ordered, path)
    }

    method Visit(name: string, ghost path: seq<string>) returns (error: VisitError)
      requires Valid(path)
      requires path != [] ==> Edge(ServiceGraph(services), path[|path| - 1], name)
      modifies this
      ensures error.Unknown? ==> name !in services
      ensures error.Circular? ==> HasCycle(ServiceGraph(services))
      ensures error.NoError? ==> Valid(path) && name in ordered && old(ordered) <= ordered
      decreases services.Keys - Elements(path) - Elements(ordered)
    {
      match Mark(visited, name) {
        case 1 =>
          GrayClosesCycle(services, visited, ordered, path, name);
          return Circular(name);
        case 2 =>
          assert Consistent(services, visited, ordered, path);
          return NoError;
        case _ =>
      }
      EnterService(services, visited, ordered, path, name);
      visited := visited[name := 1];
      if name !in services {
        return Unknown(name);
      }
      error := VisitDependencies(name, path);
      if error.NoError? {
        LeaveService(services, visited, ordered, path, name);
        visited := visited[name := 2];
        ordered := ordered + [name];
      }
    }

    /** The loop over the dependencies of a service that has just been entered. */
    method VisitDependencies(name: string, ghost path: seq<string>) returns (error: VisitError)
      requires Valid(path + [name]) && name in services && name !in path && name !in ordered
      modifies this
      ensures !error.Unknown?
      ensures error.Circular? ==> HasCycle(ServiceGraph(services))
      ensures error.NoError? ==> Valid(path + [name]) && old(ordered) <= ordered
      ensures error.NoError? ==>
                forall v :: v in services && v in ServiceDependencies(services[name]) ==> v in ordered
      decreases services.Keys - Elements(path) - Elements(ordered), 0
    {
      hide Consistent, ServiceGraph, HasCycle, ServiceDependencies;
      ghost var inner := path + [name];
      ghost var room := services.Keys - Elements(path) - Elements(ordered);
      assert name in room && Elements(inner) == Elements(path) + {name};
      var deps := GetServiceDependencies(services[name]);
      for i := 0 to |deps|
        invariant Valid(inner) && old(ordered) <= ordered
        invariant forall k :: 0 <= k < i && deps[k] in services ==> deps[k] in ordered
      {
        if deps[i] !in services {
          continue;
        }
        ServiceGraphEdge(services, name, deps[i]);
        assert services.Keys - Elements(inner) - Elements(ordered) <= room - {name};
        error := Visit(deps[i], inner);
        if !error.NoError? {
          return;
        }
      }
      error := NoError;
    }

    method VisitAll(keys: seq<string>) returns (error: VisitError)
      requires Valid([]) && Elements(keys) == services.Keys
      modifies this
      ensures !error.Unknown?
      ensures error.Circular? ==> HasCycle(ServiceGraph(services))
      ensures error.NoError? ==> Valid([]) && forall name :: name in services ==> name in ordered
    {
      hide Consistent, ServiceGraph, HasCycle;
      for i := 0 to |keys|
        invariant Valid([])
        invariant forall k :: 0 <= k < i ==> keys[k] in ordered
      {
        assert keys[i] in Elements(keys);
        error := Visit(keys[i], []);
        if !error.NoError? {
          return;
        }
      }
      forall name | name in services ensures name in ordered {
        assert name in Elements(keys);
      }
      error := NoError;
    }
  }

  lemma GrayClosesCycle(services: DependencySpec, visited: map<string, int>, ordered: seq<string>, path: seq<string>,
                        name: string)
    requires Consistent(services, visited, ordered, path) && Mark(visited, name) == 1
    requires path != [] ==> Edge(ServiceGraph(services), path[|path| - 1], name)
    ensures HasCycle(ServiceGraph(services))
  {
    hide ServiceGraph, Finished;
    PathCloses(ServiceGraph(services), path, name);
  }

  /** Fails exactly on a cycle among the defined services, and never on an unknown one; otherwise
      lists every service once, each after the services it depends on. */
  method OrderedServiceNames(services: DependencySpec) returns (error: VisitError, ordered: seq<string>)
    ensures !error.Unknown?
    ensures error.Circular? <==> HasCycle(ServiceGraph(services))
    ensures error.NoError? ==> Lists(ordered, services.Keys) && ReverseTopological(ServiceGraph(services), ordered)
  {
    hide Consistent, ServiceGraph, HasCycle, Lists, ReverseTopological;
    var visitor := new ServiceVisitor(services);
    var keys := SortedKeys(services.Keys);
    error := visitor.VisitAll(keys);
    if error.NoError? {
      ordered := visitor.ordered;
      AllOrdered(services, visitor.visited, ordered);
    } else {
      ordered := [];
    }
  }

  lemma AllOrdered(services: DependencySpec, visited: map<string, int>, ordered: seq<string>)
    requires Consistent(services, visited, ordered, [])
    requires forall name :: name in services ==> name in ordered
    ensures Lists(ordered, services.Keys) && ReverseTopological(ServiceGraph(services), ordered)
    ensures !HasCycle(ServiceGraph(services))
  {
    assert Elements(ordered) == services.Keys;
    FinishedOrders(services, ordered);
    OrderedAcyclic(ServiceGraph(services), ordered);
  }

  lemma FinishedOrders(services: DependencySpec, ordered: seq<string>)
    requires Finished(ServiceGraph(services), ordered) && Elements(ordered) == services.Keys
    ensures ReverseTopological(ServiceGraph(services), ordered)
  {
    var g := ServiceGraph(services);
    forall u, v | Edge(g, u, v) ensures IndexOf(ordered, v) < IndexOf(ordered, u) {
      assert u in Elements(ordered);
      var i := IndexOf(ordered, u);
      assert v in ordered[..i];
      IndexOfPrefix(ordered, i, v);
    }
  }
}
