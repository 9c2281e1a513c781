/** Session progress and report (pkg/session): one status per container, filed by category
    when the report is made. */
module Session {
  import opened Text
  import opened Containers

  datatype State =
    | UnknownState | SkippedState | ScannedState | UpdatedState
    | FailedState | FreshState | StaleState | RestartedState

  /** Why a container was skipped or failed. */
  datatype Failure =
    | SelfDependency | CircularDependency | CheckFailed
    | Canceled | VerifyConfigFailed | PreUpdateFailed | SkipUpdate | StopFailed | RenameFailed | StartFailed

  class ContainerStatus {
    const containerID: string
    const oldImage: string
    const newImage: string
    const containerName: string
    const monitorOnly: bool
    var state: State
    var error: Option<Failure>
    var newContainerID: string

    constructor (c: Container, newImage: string, state: State)
      ensures containerID == c.id && oldImage == c.imageID && this.newImage == newImage
      ensures containerName == c.name && monitorOnly == c.monitorOnly
      ensures this.state == state && error == None && newContainerID == ""
    {
      containerID, oldImage, this.newImage := c.id, c.imageID, newImage;
      containerName, monitorOnly := c.name, c.monitorOnly;
      this.state, error, newContainerID := state, None, "";
    }
  }

  type Statuses = map<string, ContainerStatus>

  ghost predicate Keyed(statuses: Statuses) {
    forall id :: id in statuses ==> statuses[id].containerID == id
  }

  class Progress {
    var statuses: Statuses

    constructor ()
      ensures statuses == map[]
    {
      statuses := map[];
    }

    /** The state of every container in the map. */
    ghost function States(): map<string, State>
      reads this, statuses.Values
    {
      map id | id in statuses :: statuses[id].state
    }

    method Add(update: ContainerStatus)
      requires Keyed(statuses)
      modifies this
      ensures statuses == old(statuses)[update.containerID := update] && Keyed(statuses)
    {
      statuses := statuses[update.containerID := update];
    }

    method AddSkipped(c: Container, error: Failure)
      requires Keyed(statuses)
      modifies this
      ensures Keyed(statuses) && c.id in statuses
      ensures statuses == old(statuses)[c.id := statuses[c.id]]
      ensures fresh(statuses[c.id]) && statuses[c.id].oldImage == statuses[c.id].newImage == c.imageID
      ensures statuses[c.id].error == Some(error)
      ensures fresh(statuses.Values - old(statuses.Values))
      ensures States() == old(States())[c.id := SkippedState]
    {
      var update := new ContainerStatus(c, c.imageID, SkippedState);
      update.error := Some(error);
      Add(update);
    }

    method AddScanned(c: Container, newImage: string)
      requires Keyed(statuses)
      modifies this
      ensures Keyed(statuses) && c.id in statuses
      ensures statuses == old(statuses)[c.id := statuses[c.id]]
      ensures fresh(statuses[c.id]) && statuses[c.id].oldImage == c.imageID && statuses[c.id].newImage == newImage
      ensures fresh(statuses.Values - old(statuses.Values))
      ensures States() == old(States())[c.id := ScannedState]
    {
      var update := new ContainerStatus(c, newImage, ScannedState);
      Add(update);
    }

    method SetState(id: string, state: State)
      requires Keyed(statuses)
      modifies set k | k in statuses && k == id :: statuses[k]
      ensures States() == if id in statuses then old(States())[id := state] else old(States())
    {
      if id in statuses {
        var update := statuses[id];
        update.state := state;
      }
    }

    method MarkForUpdate(id: string)
      requires Keyed(statuses)
      modifies set k | k in statuses && k == id :: statuses[k]
      ensures States() == if id in statuses then old(States())[id := UpdatedState] else old(States())
    {
      SetState(id, UpdatedState);
    }

    method MarkRestarted(id: string)
      requires Keyed(statuses)
      modifies set k | k in statuses && k == id :: statuses[k]
      ensures States() == if id in statuses then old(States())[id := RestartedState] else old(States())
    {
      SetState(id, RestartedState);
    }

    /** Every failure whose container is known turns its status to failed, in any order. */
    method UpdateFailed(failures: map<string, Failure>)
      requires Keyed(statuses)
      modifies statuses.Values
      ensures States() == WithFailures(old(States()), failures)
      ensures forall id :: id in statuses && id in failures ==> statuses[id].error == Some(failures[id])
    {
      var rest := failures.Keys;
      while rest != {}
        invariant rest <= failures.Keys
        invariant forall id :: id in statuses ==>
                    statuses[id].state == if id in failures && id !in rest then FailedState else old(statuses[id].state)
        invariant forall id :: id in statuses && id in failures && id !in rest ==>
                    statuses[id].error == Some(failures[id])
      {
        var id :| id in rest;
        rest := rest - {id};
        if id in statuses {
          statuses[id].error := Some(failures[id]);
          statuses[id].state := FailedState;
        }
      }
    }
  }

  function WithFailures(states: map<string, State>, failures: map<string, Failure>): map<string, State> {
    map id | id in states :: if id in failures then FailedState else states[id]
  }

  // ----- categories

  /** The category a status is filed under, which also becomes its state. */
  function Category(state: State, sameImage: bool): State {
    if state == SkippedState then SkippedState
    else if sameImage && state != RestartedState then FreshState
    else if state in {UpdatedState, FailedState, StaleState, RestartedState} then state
    else StaleState
  }

  predicate SameImage(status: ContainerStatus) {
    status.newImage == status.oldImage
  }

  function CategoryOf(status: ContainerStatus): State
    reads status
  {
    Category(status.state, SameImage(status))
  }

  /** Where a status goes when it is filed. A skipped one and a restarted one stay; any other one counts
      as fresh if its newest image is its own. Otherwise updated, failed and stale ones stay what they
      are, and one that was only scanned is stale. */
  predicate FiledRight(before: State, sameImage: bool, after: State) {
    && (before in {SkippedState, RestartedState} ==> after == before)
    && (before !in {SkippedState, RestartedState} && sameImage ==> after == FreshState)
    && (before in {UpdatedState, FailedState, StaleState} && !sameImage ==> after == before)
    && (before in {UnknownState, ScannedState, FreshState} && !sameImage ==> after == StaleState)
  }

  lemma CategoryFilesRight(state: State, sameImage: bool)
    ensures FiledRight(state, sameImage, Category(state, sameImage))
  {
  }

  /** Filing a status again changes nothing: a second report equals the first. */
  lemma CategoryIdempotent(state: State, sameImage: bool)
    ensures Category(Category(state, sameImage), sameImage) == Category(state, sameImage)
  {
  }

  function IDOf(status: ContainerStatus): string { status.containerID }

  ghost function Pick(statuses: Statuses, ids: seq<string>): (r: seq<ContainerStatus>)
    requires forall id :: id in ids ==> id in statuses
    ensures |r| == |ids| && forall i :: 0 <= i < |ids| ==> r[i] == statuses[ids[i]]
  {
    if ids == [] then [] else [statuses[ids[0]]] + Pick(statuses, ids[1..])
  }

  /** The list holds the statuses of exactly these containers, each once. */
  ghost predicate Collected(list: seq<ContainerStatus>, statuses: Statuses, members: set<string>) {
    && Lists(Keys(IDOf, list), members)
    && forall s :: s in list ==> s.containerID in statuses && statuses[s.containerID] == s
  }

  /** ... and they are sorted by container ID. */
  ghost predicate Listing(list: seq<ContainerStatus>, statuses: Statuses, members: set<string>) {
    && Keys(IDOf, list) == Ascending(members)
    && forall s :: s in list ==> s.containerID in statuses && statuses[s.containerID] == s
  }

  /** The same entries, by container ID. */
  ghost predicate SortedFrom(sorted: seq<ContainerStatus>, list: seq<ContainerStatus>) {
    Ordered(Keys(IDOf, sorted)) && multiset(sorted) == multiset(list)
  }

  lemma CollectedSorts(list: seq<ContainerStatus>, sorted: seq<ContainerStatus>, statuses: Statuses,
                       members: set<string>)
    requires Collected(list, statuses, members) && SortedFrom(sorted, list)
    ensures Listing(sorted, statuses, members)
  {
    forall s ensures s in sorted <==> s in list {
      assert s in sorted <==> s in multiset(sorted);
      assert s in list <==> s in multiset(list);
    }
    SameEntriesSameKeys(list, sorted, statuses);
    DistinctOrdered(Keys(IDOf, sorted));
    AscendingUnique(Keys(IDOf, sorted), Ascending(members));
  }

  lemma SameEntriesSameKeys(list: seq<ContainerStatus>, sorted: seq<ContainerStatus>, statuses: Statuses)
    requires Distinct(Keys(IDOf, list)) && multiset(sorted) == multiset(list)
    requires forall s :: s in sorted <==> s in list
    requires forall s :: s in list ==> s.containerID in statuses && statuses[s.containerID] == s
    ensures Distinct(Keys(IDOf, sorted)) && Elements(Keys(IDOf, sorted)) == Elements(Keys(IDOf, list))
  {
    hide Elements;
    var a, b := Keys(IDOf, list), Keys(IDOf, sorted);
    forall i, j | 0 <= i < j < |list| ensures list[i] != list[j] {
      assert a[i] != a[j];
    }
    DistinctMultiset(list);
    SameMultisetDistinct(list, sorted);
    forall i, j | 0 <= i < j < |b| ensures b[i] != b[j] {
      assert sorted[i] in list && sorted[j] in list;
    }
    SameEntriesKeys(IDOf, list, sorted);
    SameEntriesKeys(IDOf, sorted, list);
  }

  ghost function Filed(cats: map<string, State>, done: set<string>, cat: State): set<string> {
    set id | id in done && id in cats && cats[id] == cat
  }

  lemma CollectedNext(list: seq<ContainerStatus>, statuses: Statuses, members: set<string>, id: string)
    requires Collected(list, statuses, members) && Keyed(statuses) && id in statuses && id !in members
    ensures Collected(list + [statuses[id]], statuses, members + {id})
  {
    var list' := list + [statuses[id]];
    assert Keys(IDOf, list') == Keys(IDOf, list) + [id];
    ListsNext(Keys(IDOf, list), members, id);
  }

  lemma FiledNext(list: seq<ContainerStatus>, statuses: Statuses, cats: map<string, State>, done: set<string>,
                  id: string, cat: State)
    requires Keyed(statuses) && cats.Keys == statuses.Keys && id in statuses && id !in done
    requires Collected(list, statuses, Filed(cats, done, cat))
    ensures Collected(list + if cats[id] == cat then [statuses[id]] else [], statuses, Filed(cats, done + {id}, cat))
  {
    hide Collected;
    if cats[id] == cat {
      CollectedNext(list, statuses, Filed(cats, done, cat), id);
      assert Filed(cats, done + {id}, cat) == Filed(cats, done, cat) + {id};
    } else {
      assert Filed(cats, done + {id}, cat) == Filed(cats, done, cat);
      assert list + [] == list;
    }
  }
}
