/** The session report (pkg/session/report.go): statuses filed by category, each list sorted by
    container ID, and the deduplicated list of all of them. */
module Report {
  import opened Text
  import opened Session

  /** `sort.Sort` on a list of container reports. */
  method SortByID(list: seq<ContainerStatus>) returns (sorted: seq<ContainerStatus>)
    ensures SortedFrom(sorted, list)
  {
    SortByOrders(IDOf, list);
    sorted := SortBy(IDOf, list);
  }

  lemma NothingToSort()
    ensures SortedFrom([], [])
  {
  }

  class SessionReport {
    var scanned: seq<ContainerStatus>
    var updated: seq<ContainerStatus>
    var failed: seq<ContainerStatus>
    var skipped: seq<ContainerStatus>
    var stale: seq<ContainerStatus>
    var fresh_: seq<ContainerStatus>
    var restarted: seq<ContainerStatus>

    constructor ()
      ensures forall cat :: List(cat) == []
      ensures scanned == []
    {
      scanned, updated, failed, skipped, stale, fresh_, restarted := [], [], [], [], [], [], [];
    }

    /** The list of a category; the two states that are no category have none. */
    function List(cat: State): seq<ContainerStatus>
      reads this
    {
      match cat
      case UpdatedState => updated
      case FailedState => failed
      case SkippedState => skipped
      case StaleState => stale
      case FreshState => fresh_
      case RestartedState => restarted
      case ScannedState => []
      case UnknownState => []
    }

    /** Files one status and settles its state. */
    method CategorizeContainer(update: ContainerStatus)
      modifies this, update`state
      ensures update.state == old(CategoryOf(update))
      ensures FiledRight(old(update.state), update.newImage == update.oldImage, update.state)
      ensures skipped == old(skipped) + if old(update.state) == SkippedState then [update] else []
      ensures scanned == old(scanned) + if old(update.state) == SkippedState then [] else [update]
      ensures forall cat :: List(cat) == old(List(cat)) + if cat == update.state then [update] else []
      ensures scanned == old(scanned) + if update.state == SkippedState then [] else [update]
    {
      if update.state == SkippedState {
        skipped := skipped + [update];
        return;
      }
      scanned := scanned + [update];
      if update.newImage == update.oldImage && update.state != RestartedState {
        update.state := FreshState;
        fresh_ := fresh_ + [update];
        return;
      }
      if update.state == UpdatedState {
        updated := updated + [update];
      } else if update.state == FailedState {
        failed := failed + [update];
      } else if update.state == StaleState {
        stale := stale + [update];
      } else if update.state == RestartedState {
        restarted := restarted + [update];
      } else {
        update.state := StaleState;
        stale := stale + [update];
      }
    }

    /** Sorts every list by container ID. */
    method SortCategories()
      modifies this
      ensures forall cat :: SortedFrom(List(cat), old(List(cat)))
      ensures SortedFrom(scanned, old(scanned))
    {
      hide SortedFrom;
      scanned := SortByID(scanned);
      updated := SortByID(updated);
      failed := SortByID(failed);
      skipped := SortByID(skipped);
      stale := SortByID(stale);
      fresh_ := SortByID(fresh_);
      restarted := SortByID(restarted);
      NothingToSort();
      forall cat ensures SortedFrom(List(cat), old(List(cat))) {
        match cat
        case UpdatedState =>
        case FailedState =>
        case SkippedState =>
        case StaleState =>
        case FreshState =>
        case RestartedState =>
        case ScannedState =>
        case UnknownState =>
      }
    }

    /** Every category list holds the filed statuses of that category. */
    ghost predicate Holds(statuses: Statuses, cats: map<string, State>, done: set<string>)
      reads this
    {
      && (forall cat :: Collected(List(cat), statuses, Filed(cats, done, cat)))
      && Collected(scanned, statuses, done - Filed(cats, done, SkippedState))
    }

    /** The finished report: per category the sorted listing of the containers in that state, and
        scanned lists everything that was not skipped. */
    ghost predicate Files(statuses: Statuses)
      reads this, statuses.Values
    {
      && (forall cat :: Listing(List(cat), statuses, InState(statuses, cat)))
      && Listing(scanned, statuses, statuses.Keys - InState(statuses, SkippedState))
    }
  }

  ghost function InState(statuses: Statuses, cat: State): set<string>
    reads statuses.Values
  {
    set id | id in statuses && statuses[id].state == cat
  }

  /** The final categories of all statuses, as they stand before filing. */
  ghost function Categories(statuses: Statuses): map<string, State>
    reads statuses.Values
  {
    map id | id in statuses :: CategoryOf(statuses[id])
  }

  lemma EmptyHolds(report: SessionReport, statuses: Statuses, cats: map<string, State>)
    requires report.scanned == [] && forall cat :: report.List(cat) == []
    ensures report.Holds(statuses, cats, {})
  {
    NothingListed<string>();
    forall cat ensures Filed(cats, {}, cat) == {} {
    }
  }

  lemma ScannedNext(list: seq<ContainerStatus>, statuses: Statuses, cats: map<string, State>, done: set<string>,
                    id: string)
    requires Keyed(statuses) && cats.Keys == statuses.Keys && id in statuses && id !in done
    requires Collected(list, statuses, done - Filed(cats, done, SkippedState))
    ensures Collected(list + (if cats[id] == SkippedState then [] else [statuses[id]]), statuses,
                      done + {id} - Filed(cats, done + {id}, SkippedState))
  {
    hide Collected;
    var members := done - Filed(cats, done, SkippedState);
    if cats[id] == SkippedState {
      assert done + {id} - Filed(cats, done + {id}, SkippedState) == members;
      assert list + [] == list;
    } else {
      CollectedNext(list, statuses, members, id);
      assert done + {id} - Filed(cats, done + {id}, SkippedState) == members + {id};
    }
  }

  /** Files one more status. */
  method FileStatus(report: SessionReport, statuses: Statuses, update: ContainerStatus,
                    ghost cats: map<string, State>, ghost done: set<string>)
    requires Keyed(statuses) && update.containerID in statuses && statuses[update.containerID] == update
    requires update.containerID !in done && cats.Keys == statuses.Keys && cats[update.containerID] == CategoryOf(update)
    requires report.Holds(statuses, cats, done)
    modifies report, update`state
    ensures report.Holds(statuses, cats, done + {update.containerID})
    ensures update.state == cats[update.containerID]
  {
    hide Collected, Filed, CategoryOf;
    ghost var id := update.containerID;
    report.CategorizeContainer(update);
    forall cat ensures Collected(report.List(cat), statuses, Filed(cats, done + {id}, cat)) {
      FiledNext(old(report.List(cat)), statuses, cats, done, id, cat);
    }
    ScannedNext(old(report.scanned), statuses, cats, done, id);
  }

  /** Sorting the collected lists gives the listings of the final states. */
  method SortReport(report: SessionReport, statuses: Statuses, ghost cats: map<string, State>)
    requires cats.Keys == statuses.Keys && report.Holds(statuses, cats, statuses.Keys)
    requires forall id :: id in statuses ==> statuses[id].state == cats[id]
    modifies report
    ensures report.Files(statuses)
  {
    hide Collected, Listing, SortedFrom;
    assert forall cat :: Filed(cats, statuses.Keys, cat) == InState(statuses, cat);
    report.SortCategories();
    forall cat ensures Listing(report.List(cat), statuses, InState(statuses, cat)) {
      CollectedSorts(old(report.List(cat)), report.List(cat), statuses, Filed(cats, statuses.Keys, cat));
    }
    CollectedSorts(old(report.scanned), report.scanned, statuses,
                   statuses.Keys - Filed(cats, statuses.Keys, SkippedState));
  }

  lemma OtherStatuses(statuses: Statuses, id: string)
    requires Keyed(statuses) && id in statuses
    ensures statuses[id].containerID == id
    ensures forall other :: other in statuses && other != id ==> statuses[other] != statuses[id]
  {
  }

  lemma MoreDone(keys: set<string>, rest: set<string>, id: string)
    ensures id in rest && rest <= keys ==> keys - (rest - {id}) == (keys - rest) + {id} && id !in keys - rest
    ensures keys - {} == keys && keys - keys == {}
  {
  }

  /** Ranges over the statuses in any order; the report does not depend on it. */
  method NewReport(statuses: Statuses) returns (report: SessionReport)
    requires Keyed(statuses)
    modifies statuses.Values`state
    ensures fresh(report) && report.Files(statuses)
    ensures forall id :: id in statuses ==> statuses[id].state == old(CategoryOf(statuses[id]))
    ensures Final(statuses)
    ensures forall id :: id in statuses ==>
              FiledRight(old(statuses[id].state), statuses[id].newImage == statuses[id].oldImage, statuses[id].state)
    ensures ListsByState(report, statuses)
  {
    hide CategoryOf, SessionReport.Holds, SessionReport.Files, Keyed, Final, FiledRight, ListsByState;
    ghost var cats := Categories(statuses);
    forall id | id in statuses
      ensures cats[id] == Category(statuses[id].state, SameImage(statuses[id]))
    {
      CategoryIs(statuses[id]);
    }
    report := new SessionReport();
    EmptyHolds(report, statuses, cats);
    var rest := statuses.Keys;
    MoreDone(statuses.Keys, rest, "");
    while rest != {}
      invariant rest <= statuses.Keys
      invariant report.Holds(statuses, cats, statuses.Keys - rest)
      invariant forall id :: id in statuses && id !in rest ==> statuses[id].state == cats[id]
      invariant forall id :: id in rest ==> CategoryOf(statuses[id]) == cats[id]
    {
      var id :| id in rest;
      ghost var done := statuses.Keys - rest;
      OtherStatuses(statuses, id);
      FileStatus(report, statuses, statuses[id], cats, done);
      MoreDone(statuses.Keys, rest, id);
      rest := rest - {id};
    }
    MoreDone(statuses.Keys, {}, "");
    SortReport(report, statuses, cats);
    AllFinal(statuses, cats, map id | id in statuses :: old(statuses[id].state));
    FilesByState(report, statuses);
    forall id | id in statuses
      ensures FiledRight(old(statuses[id].state), statuses[id].newImage == statuses[id].oldImage, statuses[id].state)
    {
      CategoryFilesRight(old(statuses[id].state), SameImage(statuses[id]));
    }
  }

  /** A status is on the list of its state, and on no other one but scanned. */
  ghost predicate ListsByState(report: SessionReport, statuses: Statuses)
    reads report, statuses.Values
  {
    forall id :: id in statuses ==>
      var s := statuses[id];
      && (s in report.fresh_ <==> s.state == FreshState)
      && (s in report.stale <==> s.state == StaleState)
      && (s in report.updated <==> s.state == UpdatedState)
      && (s in report.restarted <==> s.state == RestartedState)
      && (s in report.failed <==> s.state == FailedState)
      && (s in report.skipped <==> s.state == SkippedState)
      && (s in report.scanned <==> s.state != SkippedState)
  }

  lemma OnListing(list: seq<ContainerStatus>, statuses: Statuses, members: set<string>, id: string)
    requires Listing(list, statuses, members) && Keyed(statuses) && id in statuses
    ensures statuses[id] in list <==> id in members
  {
    var ids := Keys(IDOf, list);
    if statuses[id] in list {
      var i :| 0 <= i < |list| && list[i] == statuses[id];
      assert ids[i] == id && ids[i] in Elements(Ascending(members));
    }
    if id in members {
      assert id in Elements(Ascending(members));
      var i :| 0 <= i < |ids| && ids[i] == id;
      assert list[i] in list;
    }
  }

  lemma OnList(report: SessionReport, statuses: Statuses, cat: State, id: string)
    requires report.Files(statuses) && Keyed(statuses) && id in statuses
    ensures statuses[id] in report.List(cat) <==> statuses[id].state == cat
  {
    hide Listing, Keyed;
    OnListing(report.List(cat), statuses, InState(statuses, cat), id);
  }

  lemma OnScanned(report: SessionReport, statuses: Statuses, id: string)
    requires report.Files(statuses) && Keyed(statuses) && id in statuses
    ensures statuses[id] in report.scanned <==> statuses[id].state != SkippedState
  {
    hide Listing, Keyed;
    OnListing(report.scanned, statuses, statuses.Keys - InState(statuses, SkippedState), id);
  }

  lemma FilesByState(report: SessionReport, statuses: Statuses)
    requires report.Files(statuses) && Keyed(statuses)
    ensures ListsByState(report, statuses)
  {
    hide SessionReport.Files, Keyed;
    forall id | id in statuses
      ensures forall cat :: statuses[id] in report.List(cat) <==> statuses[id].state == cat
      ensures statuses[id] in report.scanned <==> statuses[id].state != SkippedState
    {
      forall cat ensures statuses[id] in report.List(cat) <==> statuses[id].state == cat {
        OnList(report, statuses, cat, id);
      }
      OnScanned(report, statuses, id);
    }
    assert report.List(FreshState) == report.fresh_ && report.List(StaleState) == report.stale;
    assert report.List(UpdatedState) == report.updated && report.List(RestartedState) == report.restarted;
    assert report.List(FailedState) == report.failed && report.List(SkippedState) == report.skipped;
  }

  lemma AllFinal(statuses: Statuses, cats: map<string, State>, before: map<string, State>)
    requires Keyed(statuses) && cats.Keys == before.Keys == statuses.Keys
    requires forall id :: id in statuses ==> statuses[id].state == cats[id]
    requires forall id :: id in statuses ==> cats[id] == Category(before[id], SameImage(statuses[id]))
    ensures Final(statuses)
  {
    hide CategoryOf, Category;
    forall id | id in statuses ensures CategoryOf(statuses[id]) == statuses[id].state {
      FiledAgain(statuses[id], cats[id], before[id]);
    }
  }

  lemma ListingUnique(a: seq<ContainerStatus>, b: seq<ContainerStatus>, statuses: Statuses, members: set<string>)
    requires Listing(a, statuses, members) && Listing(b, statuses, members)
    ensures a == b
  {
    var ids := Ascending(members);
    assert Keys(IDOf, a) == ids && Keys(IDOf, b) == ids;
    forall i | 0 <= i < |ids| ensures a[i] == b[i] {
      assert a[i] in a && b[i] in b;
      assert a[i].containerID == ids[i] == b[i].containerID;
    }
  }

  /** A second report on statuses that have been filed already moves no state and lists the same. */
  method ReportAgain(report: SessionReport, statuses: Statuses) returns (again: SessionReport)
    requires report.Files(statuses) && Final(statuses)
    modifies statuses.Values`state
    ensures forall id :: id in statuses ==> statuses[id].state == old(statuses[id].state)
    ensures forall cat :: again.List(cat) == report.List(cat)
    ensures again.scanned == report.scanned && Final(statuses)
  {
    hide CategoryOf, Listing;
    again := NewReport(statuses);
    assert forall cat :: InState(statuses, cat) == old(InState(statuses, cat));
    forall cat ensures again.List(cat) == report.List(cat) {
      ListingUnique(again.List(cat), report.List(cat), statuses, InState(statuses, cat));
    }
    ListingUnique(again.scanned, report.scanned, statuses, statuses.Keys - InState(statuses, SkippedState));
  }

  lemma CategoryIs(status: ContainerStatus)
    ensures CategoryOf(status) == Category(status.state, SameImage(status))
  {
  }

  lemma FiledAgain(status: ContainerStatus, cat: State, before: State)
    requires status.state == cat == Category(before, SameImage(status))
    ensures CategoryOf(status) == status.state
  {
    CategoryIdempotent(before, SameImage(status));
  }

  // ----- all containers

  /** s is the first entry of the list for its container ID. */
  ghost predicate First(list: seq<ContainerStatus>, s: ContainerStatus) {
    exists i :: 0 <= i < |list| && list[i] == s && IDOf(s) !in Keys(IDOf, list[..i])
  }

  /** One entry per container ID of the list, the first one. */
  ghost predicate FirstPerID(list: seq<ContainerStatus>, all: seq<ContainerStatus>) {
    && Lists(Keys(IDOf, all), Elements(Keys(IDOf, list)))
    && forall s :: s in all ==> First(list, s)
  }

  /** ... sorted by container ID. */
  ghost predicate Prioritized(list: seq<ContainerStatus>, all: seq<ContainerStatus>) {
    && Keys(IDOf, all) == Ascending(Elements(Keys(IDOf, list)))
    && forall s :: s in all ==> First(list, s)
  }

  lemma FirstStays(list: seq<ContainerStatus>, s: ContainerStatus, next: ContainerStatus)
    requires First(list, s)
    ensures First(list + [next], s)
  {
    var i :| 0 <= i < |list| && list[i] == s && IDOf(s) !in Keys(IDOf, list[..i]);
    assert (list + [next])[..i] == list[..i];
  }

  lemma FirstPerIDNext(list: seq<ContainerStatus>, all: seq<ContainerStatus>, next: ContainerStatus)
    requires FirstPerID(list, all)
    ensures FirstPerID(list + [next], if IDOf(next) in Elements(Keys(IDOf, list)) then all else all + [next])
  {
    hide Lists, First, Elements;
    var ids := Elements(Keys(IDOf, list));
    KeysAppend(IDOf, list, next);
    forall s | s in all ensures First(list + [next], s) {
      FirstStays(list, s, next);
    }
    if IDOf(next) in ids {
      assert ids + {IDOf(next)} == ids;
    } else {
      ListsNext(Keys(IDOf, all), ids, IDOf(next));
      KeysAppend(IDOf, all, next);
      NotListedID(list, next);
      NewIsFirst(list, next);
    }
  }

  lemma NotListedID(list: seq<ContainerStatus>, next: ContainerStatus)
    ensures IDOf(next) in Elements(Keys(IDOf, list)) <==> IDOf(next) in Keys(IDOf, list)
  {
  }

  lemma NewIsFirst(list: seq<ContainerStatus>, next: ContainerStatus)
    requires IDOf(next) !in Keys(IDOf, list)
    ensures First(list + [next], next)
  {
    var longer := list + [next];
    assert longer[..|list|] == list && longer[|list|] == next;
  }

  /** Appends the reports of containers that are not present yet. */
  method AppendUnique(ghost seen: seq<ContainerStatus>, all: seq<ContainerStatus>, present: set<string>,
                      reports: seq<ContainerStatus>)
    returns (all': seq<ContainerStatus>, present': set<string>)
    requires FirstPerID(seen, all) && present == Elements(Keys(IDOf, seen))
    ensures FirstPerID(seen + reports, all') && present' == Elements(Keys(IDOf, seen + reports))
  {
    hide FirstPerID, Elements;
    all', present' := all, present;
    assert seen + reports[..0] == seen;
    for i := 0 to |reports|
      invariant FirstPerID(seen + reports[..i], all') && present' == Elements(Keys(IDOf, seen + reports[..i]))
    {
      ghost var before := seen + reports[..i];
      var report := reports[i];
      FirstPerIDNext(before, all', report);
      assert seen + reports[..i + 1] == before + [report];
      KeysAppend(IDOf, before, report);
      if report.containerID !in present' {
        all' := all' + [report];
      }
      present' := present' + {report.containerID};
    }
    assert seen + reports[..|reports|] == seen + reports;
  }

  lemma FirstPerIDSorts(list: seq<ContainerStatus>, all: seq<ContainerStatus>)
    requires FirstPerID(list, all)
    ensures Prioritized(list, SortBy(IDOf, all))
  {
    hide First;
    var sorted := SortBy(IDOf, all);
    SortByAscends(IDOf, all);
    AscendingUnique(Keys(IDOf, sorted), Ascending(Elements(Keys(IDOf, list))));
    forall s | s in sorted ensures First(list, s) {
      assert s in multiset(sorted);
      assert s in multiset(all);
    }
  }

  /** One entry per container, from the most significant list that has it, sorted by ID. */
  method AllFromSlices(scanned: seq<ContainerStatus>, updated: seq<ContainerStatus>, restarted: seq<ContainerStatus>,
                       failed: seq<ContainerStatus>, skipped: seq<ContainerStatus>, stale: seq<ContainerStatus>,
                       fresh_: seq<ContainerStatus>)
    returns (all: seq<ContainerStatus>)
    ensures Prioritized(updated + restarted + failed + skipped + stale + fresh_ + scanned, all)
  {
    hide FirstPerID, Prioritized, SortBy;
    var present: set<string> := {};
    NothingSeen();
    all, present := AppendUnique([], [], present, updated);
    assert [] + updated == updated;
    all, present := AppendUnique(updated, all, present, restarted);
    all, present := AppendUnique(updated + restarted, all, present, failed);
    all, present := AppendUnique(updated + restarted + failed, all, present, skipped);
    all, present := AppendUnique(updated + restarted + failed + skipped, all, present, stale);
    all, present := AppendUnique(updated + restarted + failed + skipped + stale, all, present, fresh_);
    all, present := AppendUnique(updated + restarted + failed + skipped + stale + fresh_, all, present, scanned);
    FirstPerIDSorts(updated + restarted + failed + skipped + stale + fresh_ + scanned, all);
    all := SortBy(IDOf, all);
  }

  lemma NothingSeen()
    ensures FirstPerID([], []) && Elements(Keys(IDOf, [])) == {}
  {
    NothingListed<string>();
  }

  ghost function Concatenated(report: SessionReport): seq<ContainerStatus>
    reads report
  {
    report.updated + report.restarted + report.failed + report.skipped + report.stale + report.fresh_ + report.scanned
  }

  method All(report: SessionReport) returns (all: seq<ContainerStatus>)
    ensures Prioritized(Concatenated(report), all)
  {
    all := AllFromSlices(report.scanned, report.updated, report.restarted, report.failed, report.skipped,
                         report.stale, report.fresh_);
  }

  /** Every status has been filed, so that filing it again would not move it. */
  ghost predicate Final(statuses: Statuses)
    reads statuses.Values
  {
    Keyed(statuses) && forall id :: id in statuses ==> CategoryOf(statuses[id]) == statuses[id].state
  }

  /** Conservation: scanned is the disjoint union of the five outcome lists, skipped is the rest. */
  lemma ScannedIsUnion(statuses: Statuses)
    requires Final(statuses)
    ensures statuses.Keys - InState(statuses, SkippedState) ==
            InState(statuses, UpdatedState) + InState(statuses, FailedState) + InState(statuses, StaleState)
            + InState(statuses, FreshState) + InState(statuses, RestartedState)
    ensures forall a, b :: a != b ==> InState(statuses, a) !! InState(statuses, b)
  {
  }

  /** Conservation: every container of the session occurs exactly once among all reports, in order. */
  lemma AllConserves(report: SessionReport, statuses: Statuses, all: seq<ContainerStatus>)
    requires report.Files(statuses) && Prioritized(Concatenated(report), all)
    ensures Listing(all, statuses, statuses.Keys)
  {
    hide First, Ascending;
    var list := Concatenated(report);
    ConcatenatedIDs(report, statuses);
    forall s | s in all ensures s.containerID in statuses && statuses[s.containerID] == s {
      assert First(list, s);
      FirstListed(list, s);
    }
  }

  lemma FirstListed(list: seq<ContainerStatus>, s: ContainerStatus)
    requires First(list, s)
    ensures s in list
  {
  }

  /** Some order of the statuses of exactly these containers, repetitions allowed. */
  ghost predicate Covers(list: seq<ContainerStatus>, statuses: Statuses, members: set<string>) {
    && Elements(Keys(IDOf, list)) == members
    && forall s :: s in list ==> s.containerID in statuses && statuses[s.containerID] == s
  }

  lemma ListingCovers(list: seq<ContainerStatus>, statuses: Statuses, members: set<string>)
    requires Listing(list, statuses, members)
    ensures Covers(list, statuses, members)
  {
  }

  lemma CoversAppend(a: seq<ContainerStatus>, b: seq<ContainerStatus>, statuses: Statuses, m: set<string>,
                     n: set<string>)
    requires Covers(a, statuses, m) && Covers(b, statuses, n)
    ensures Covers(a + b, statuses, m + n)
  {
    KeysConcat(IDOf, a, b);
    forall s | s in a + b ensures s.containerID in statuses && statuses[s.containerID] == s {
      assert s in a || s in b;
    }
  }

  lemma ConcatenatedIDs(report: SessionReport, statuses: Statuses)
    requires report.Files(statuses)
    ensures Covers(Concatenated(report), statuses, statuses.Keys)
  {
    hide Covers, Listing, InState;
    forall cat ensures Covers(report.List(cat), statuses, InState(statuses, cat)) {
      ListingCovers(report.List(cat), statuses, InState(statuses, cat));
    }
    var notSkipped := statuses.Keys - InState(statuses, SkippedState);
    ListingCovers(report.scanned, statuses, notSkipped);
    var u, r, f, k := InState(statuses, UpdatedState), InState(statuses, RestartedState),
                      InState(statuses, FailedState), InState(statuses, SkippedState);
    var s, h := InState(statuses, StaleState), InState(statuses, FreshState);
    var sofar := report.List(UpdatedState) + report.List(RestartedState);
    CoversAppend(report.List(UpdatedState), report.List(RestartedState), statuses, u, r);
    CoversAppend(sofar, report.List(FailedState), statuses, u + r, f);
    sofar := sofar + report.List(FailedState);
    CoversAppend(sofar, report.List(SkippedState), statuses, u + r + f, k);
    sofar := sofar + report.List(SkippedState);
    CoversAppend(sofar, report.List(StaleState), statuses, u + r + f + k, s);
    sofar := sofar + report.List(StaleState);
    CoversAppend(sofar, report.List(FreshState), statuses, u + r + f + k + s, h);
    sofar := sofar + report.List(FreshState);
    CoversAppend(sofar, report.scanned, statuses, u + r + f + k + s + h, notSkipped);
    InStateKnown(statuses);
    assert u + r + f + k + s + h + notSkipped == statuses.Keys;
  }

  lemma InStateKnown(statuses: Statuses)
    ensures forall cat :: InState(statuses, cat) <= statuses.Keys
  {
  }
}
