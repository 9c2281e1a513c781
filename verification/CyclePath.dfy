/** findCyclePath (pkg/sorter/dependency.go): the depth-first search that illustrates a
    circular-reference error with an actual cycle. */
module CyclePath {
  import opened Text
  import opened Digraph

  /** A cycle that repeats only its first node, as its last. */
  ghost predicate SimpleCycle(g: Adjacency, c: seq<string>) {
    Cycle(g, c) && Distinct(c[1..])
  }

  /** Finish order: all successors of a finished node finished before it. */
  ghost predicate Finished(g: Adjacency, order: seq<string>) {
    forall i, v :: 0 <= i < |order| && Edge(g, order[i], v) ==> v in order[..i]
  }

  lemma FinishedGrows(g: Adjacency, order: seq<string>, node: string)
    requires Finished(g, order)
    requires forall v :: Edge(g, node, v) ==> v in order
    ensures Finished(g, order + [node])
  {
    var order' := order + [node];
    forall i, v | 0 <= i < |order'| && Edge(g, order'[i], v) ensures v in order'[..i] {
      assert order'[..i] == order[..i];
      assert order[..|order|] == order;
    }
  }

  /** Nothing finished can reach a cycle. */
  lemma FinishedReachesNoCycle(g: Adjacency, order: seq<string>, u: string)
    requires Finished(g, order) && u in order
    ensures !ReachesCycle(g, u)
  {
    forall c | OnCycle(g, c) && Reaches(g, u, c) ensures false {
      forall x, y | x in Elements(order) && Edge(g, x, y)
        ensures y in Elements(order) && IndexOf(order, y) < IndexOf(order, x)
      {
        var i := IndexOf(order, x);
        assert y in order[..i];
        IndexOfPrefix(order, i, y);
      }
      var p :| Walk(g, p) && p[0] == u && p[|p| - 1] == c;
      ClosedKeepsWalk(g, Elements(order), p);
      var q :| Cycle(g, q) && c in q;
      CycleAt(g, q, c);
      var k :| Cycle(g, k) && k[0] == c;
      ClosedKeepsWalk(g, Elements(order), k);
      WalkRises(g, (x: string) => -(IndexOf(order, x) as int), k);
    }
  }

  /** The closing step: the node is already on the current path. */
  lemma PathCloses(g: Adjacency, path: seq<string>, node: string)
    requires path != [] && Walk(g, path) && Distinct(path) && node in path && Edge(g, path[|path| - 1], node)
    ensures SimpleCycle(g, path[IndexOf(path, node)..] + [node])
  {
    var i := IndexOf(path, node);
    WalkSlice(g, path, i, |path|);
    ClosedWalk(g, path[i..], node);
  }

  lemma ClosedWalk(g: Adjacency, p: seq<string>, node: string)
    requires Walk(g, p) && Distinct(p) && p[0] == node && Edge(g, p[|p| - 1], node)
    ensures SimpleCycle(g, p + [node])
  {
    WalkAppend(g, p, node);
    var c := p + [node];
    assert c[1..] == p[1..] + [node];
    assert forall k :: 0 < k < |p| ==> p[k] != p[0];
  }

  lemma PathReaches(g: Adjacency, path: seq<string>, i: nat)
    requires Walk(g, path) && i < |path|
    ensures Reaches(g, path[0], path[i])
  {
    WalkSlice(g, path, 0, i + 1);
    var p := path[..i + 1];
    assert Walk(g, p) && p[0] == path[0] && p[|p| - 1] == path[i];
  }

  class CycleSearch {
    const adjacency: Adjacency
    var visiting: set<string>
    var visited: set<string>
    ghost var order: seq<string>

    constructor (adjacency: Adjacency, visited: set<string>)
      requires visited == {}
      ensures this.adjacency == adjacency && Valid([])
    {
      this.adjacency, this.visiting, this.visited, order := adjacency, {}, visited, [];
    }

    /** The current path is a walk without repetition and holds exactly the visiting nodes. */
    ghost predicate Valid(path: seq<string>)
      reads this
    {
      && (path != [] ==> Walk(adjacency, path))
      && Distinct(path)
      && visiting == Elements(path)
      && visited == Elements(order)
      && visiting !! visited
      && Finished(adjacency, order)
    }

    method Dfs(node: string, path: seq<string>, ghost root: string) returns (cycle: seq<string>)
      requires Valid(path)
      requires path != [] ==> path[0] == root && Edge(adjacency, path[|path| - 1], node)
      requires path == [] ==> root == node
      modifies this
      ensures cycle == [] ==> Valid(path) && visiting == old(visiting) && old(visited) <= visited && node in visited
      ensures cycle != [] ==> SimpleCycle(adjacency, cycle) && Reaches(adjacency, root, cycle[0])
      decreases Nodes(adjacency) + {root} - visiting - visited
    {
      hide Cycle, SimpleCycle, Reaches, Finished, Nodes;
      if node in visiting {
        PathCloses(adjacency, path, node);
        PathReaches(adjacency, path, IndexOf(path, node));
        return path[IndexOf(path, node)..] + [node];
      }
      if node in visited {
        return [];
      }
      if path != [] {
        EdgeInNodes(adjacency, path[|path| - 1], node);
      }
      ghost var room := Nodes(adjacency) + {root} - visiting - visited;
      assert node in room;
      visiting := visiting + {node};
      var longer := path + [node];
      assert longer[0] == root;
      var neighbors := Next(adjacency, node);
      for i := 0 to |neighbors|
        invariant Valid(longer) && visiting == old(visiting) + {node} && old(visited) <= visited
        invariant forall k :: 0 <= k < i ==> neighbors[k] in visited
      {
        assert Edge(adjacency, node, neighbors[i]);
        assert Nodes(adjacency) + {root} - visiting - visited <= room - {node};
        cycle := Dfs(neighbors[i], longer, root);
        if cycle != [] {
          return cycle;
        }
      }
      visiting := visiting - {node};
      visited := visited + {node};
      FinishedGrows(adjacency, order, node);
      order := order + [node];
      cycle := [];
    }
  }

  method FindCyclePath(start: string, adjacency: Adjacency) returns (path: seq<string>)
    ensures path != [] <==> ReachesCycle(adjacency, start)
    ensures path != [] ==> SimpleCycle(adjacency, path) && Reaches(adjacency, start, path[0])
  {
    var search := new CycleSearch(adjacency, {});
    path := search.Dfs(start, [], start);
    if path == [] {
      FinishedReachesNoCycle(adjacency, search.order, start);
    } else {
      assert OnCycle(adjacency, path[0]);
    }
  }
}
