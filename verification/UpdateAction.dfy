/** Update (internal/actions/update.go) as a whole: scan, plan, execute, report. */
module UpdateAction {
  import opened Text
  import opened Containers
  import opened Digraph
  import opened Session
  import opened Report
  import opened LinkResolution
  import opened GraphBuilder
  import opened Sorter
  import opened CycleDetection
  import opened DetectCycles
  import opened LinkStability
  import opened Planner
  import opened ImplicitRestart
  import opened UpdateRun
  import opened StartPhase
  import opened BatchRun
  import opened Execution
  import opened Scan

  // ----- the plan

  /** The in-place sort of a list of containers. */
  method SortList(cs: seq<Container>) returns (error: Option<SortError>, sorted: seq<Container>)
    ensures error.None? <==> SortedInPlace(cs).Some?
    ensures sorted == if error.None? then SortedInPlace(cs).value else cs
    ensures error.Some? ==> (error.value.CircularReference? <==> DistinctIdentifiers(Regular(cs)))
  {
    hide SortedInPlace, DistinctIdentifiers, Regular, Unsorted, LinkGraph;
    var a := new Container[|cs|](i requires 0 <= i < |cs| => cs[i]);
    assert a[..] == cs;
    error := Sort(a);
    sorted := a[..];
  }

  lemma SortListKeeps(cs: seq<Container>, sorted: seq<Container>)
    requires sorted == (if SortedInPlace(cs).Some? then SortedInPlace(cs).value else cs)
    ensures multiset(sorted) == multiset(cs) && Elements(sorted) == Elements(cs) && (Distinct(cs) ==> Distinct(sorted))
  {
    hide SortedInPlace;
    if SortedInPlace(cs).Some? {
      SortPermutes(cs);
    }
    assert forall c :: c in sorted <==> c in multiset(sorted);
    assert forall c :: c in cs <==> c in multiset(cs);
    if Distinct(cs) {
      DistinctMultiset(cs);
      SameMultisetDistinct(cs, sorted);
    }
  }

  /** The flags of the listed containers reach all containers; these are the same objects. */
  method PropagateStale(all: seq<Container>, cs: seq<Container>)
    requires UniqueNames(all) && forall c :: c in cs ==> c in all
    modifies Elements(all)`stale
    ensures forall c :: c in all ==> c.stale == old(c.stale)
  {
    var byID: map<string, Container> := map[];
    for i := 0 to |all|
      invariant forall c :: c in all[..i] ==> c.id in byID && byID[c.id] == c
      invariant forall id :: id in byID ==> byID[id] in all
    {
      byID := byID[all[i].id := all[i]];
    }
    assert all[..|all|] == all;
    for i := 0 to |cs|
      invariant forall c :: c in all ==> c.stale == old(c.stale)
    {
      if cs[i].stale && cs[i].id in byID {
        byID[cs[i].id].stale := true;
      }
    }
  }

  /** After a circular-reference error: skips the named container if it has no status yet. */
  method SkipReported(cs: seq<Container>, name: string, progress: Progress, ghost ids: set<string>)
    requires Accounted(progress, ids)
    modifies progress
    ensures ids <= progress.statuses.Keys <= ids + IDSet(cs) && Accounted(progress, progress.statuses.Keys)
    ensures fresh(progress.statuses.Values - old(progress.statuses.Values))
    ensures forall id :: id in ids ==> progress.statuses[id] == old(progress.statuses[id])
  {
    for i := 0 to |cs|
      invariant Accounted(progress, ids) && progress.statuses == old(progress.statuses)
    {
      if cs[i].name == name {
        if cs[i].id !in progress.statuses {
          SkipOne(cs[i], CircularDependency, progress, ids);
        }
        return;
      }
    }
  }

  method RestartCandidates(cs: seq<Container>) returns (list: seq<Container>)
    requires Distinct(cs)
    ensures Distinct(list) && forall c :: c in list <==> c in cs && c.ToRestart() && !c.monitorOnly
  {
    list := [];
    for i := 0 to |cs|
      invariant Distinct(list) && forall c :: c in list <==> c in cs[..i] && c.ToRestart() && !c.monitorOnly
    {
      assert cs[..i + 1] == cs[..i] + [cs[i]];
      if cs[i].ToRestart() && !cs[i].monitorOnly {
        assert cs[i] !in cs[..i];
        list := list + [cs[i]];
      }
    }
    assert cs[..|cs|] == cs;
  }

  /** Names and links under which every list of restartable containers can be sorted. */
  ghost predicate WellNamed(cs: seq<Container>, marks: set<string>) {
    DistinctIdentifiers(Regular(cs)) && !HasCycle(MayGraph(Regular(Restartable(cs, marks))))
  }

  lemma WellNamedIsDistinct(cs: seq<Container>, marks: set<string>)
    ensures WellNamed(cs, marks) ==> DistinctIdentifiers(Regular(cs))
  {
  }

  lemma SortedIsDistinct(cs: seq<Container>)
    requires SortedInPlace(cs).Some?
    ensures DistinctIdentifiers(Regular(cs))
  {
    hide Sorted, DistinctIdentifiers;
    DistinctIfSorted(Regular(cs));
  }

  /** Exact links and plain, distinct names are always enough. */
  lemma ExactIsWellNamed(cs: seq<Container>, marks: set<string>)
    requires ExactLinks(cs) && PlainNames(cs) && DistinctIdentifiers(cs)
    requires HitsEveryCycle(DetectorGraph(cs), marks)
    ensures WellNamed(cs, marks)
  {
    hide ExactLinks, PlainNames, DistinctIdentifiers, MayGraph, HasCycle, Restartable;
    ExactIsSafe(cs, marks);
  }

  lemma StaleUnmarked(c: Container, progress: Progress, config: Config, answers: Answers, marks: set<string>)
    requires StaleSound(c, progress, config, answers, marks) && c.stale
    ensures ResolveContainerIdentifier(c) !in marks
  {
  }

  /** The stale containers, from which the restarts spread. */
  ghost function StaleOnes(all: seq<Container>): set<Container>
    reads all`stale
  {
    set c | c in all && c.stale
  }

  lemma SameMembersSameIDs(cs: seq<Container>, ds: seq<Container>)
    requires Elements(cs) == Elements(ds)
    ensures IDSet(cs) == IDSet(ds) && forall c :: c in cs <==> c in ds
  {
    assert forall c :: c in cs <==> c in Elements(cs);
    assert forall c :: c in ds <==> c in Elements(ds);
  }

  /** The first sort; a circular reference is tolerated and skips the implicit restarts. */
  method FirstSort(all: seq<Container>, filtered: seq<Container>, progress: Progress)
    returns (error: Option<SortError>, sorted: seq<Container>)
    requires UniqueNames(all) && Distinct(filtered) && (forall c :: c in filtered ==> c in all)
    requires Accounted(progress, IDSet(filtered))
    modifies progress, Elements(all)`linkedToRestarting
    ensures Accounted(progress, IDSet(filtered)) && progress.statuses == old(progress.statuses)
    ensures Distinct(sorted) && forall c :: c in sorted <==> c in filtered
    ensures error.None? <==> DistinctIdentifiers(Regular(filtered))
    ensures SortedInPlace(filtered).Some? || forall c :: c in all ==> c.linkedToRestarting == old(c.linkedToRestarting)
    ensures StaleOnes(all) == old(StaleOnes(all))
    ensures error.None? && SortedInPlace(filtered).Some? ==>
              LeastClosed(all, sorted, old(Restarting(all)), Restarting(all))
  {
    hide UniqueNames, SortedInPlace, LeastClosed, DistinctIdentifiers, Regular, Distinct, StaleOnes, Restarting,
         Accounted, IDSet;
    error, sorted := SortList(filtered);
    SortListKeeps(filtered, sorted);
    SameMembersSameIDs(filtered, sorted);
    if error.None? {
      SortedIsDistinct(filtered);
      UpdateImplicitRestart(all, sorted);
    } else if error.value.CircularReference? {
      AccountedKeyed(progress, IDSet(filtered));
      SkipReported(sorted, error.value.container, progress, IDSet(filtered));
      assert progress.statuses == old(progress.statuses);
      error := None;
    }
  }

  /** The restarts spread from the stale containers along the links to the least closed set, unless
      the list cannot be sorted; then none does. */
  ghost predicate Spread(all: seq<Container>, filtered: seq<Container>)
    reads all`stale, all`linkedToRestarting
  {
    if SortedInPlace(filtered).Some? then LeastClosed(all, filtered, StaleOnes(all), Restarting(all))
    else Restarting(all) == StaleOnes(all)
  }

  /** The candidates are the containers of filtered that are to restart and may be touched, each once. */
  ghost predicate AreCandidates(filtered: seq<Container>, candidates: seq<Container>)
    reads filtered`stale, filtered`linkedToRestarting
  {
    && Distinct(candidates)
    && (forall c :: c in candidates ==> c in filtered && c.ToRestart() && !c.monitorOnly)
    && (forall c :: c in filtered && c.ToRestart() && !c.monitorOnly ==> c in candidates)
  }

  /** The list holds the candidates in sorted order. */
  ghost predicate RestartList(filtered: seq<Container>, list: seq<Container>, candidates: seq<Container>)
    reads filtered`stale, filtered`linkedToRestarting
  {
    AreCandidates(filtered, candidates) && SortedInPlace(candidates) == Some(list)
  }

  /** A plan fails on a repeated identifier, or because the candidates cannot be sorted. */
  ghost predicate Unplannable(all: seq<Container>, filtered: seq<Container>, candidates: seq<Container>)
    reads all`stale, all`linkedToRestarting, filtered`stale, filtered`linkedToRestarting
  {
    || !DistinctIdentifiers(Regular(filtered))
    || (Spread(all, filtered) && AreCandidates(filtered, candidates) && SortedInPlace(candidates).None?)
  }

  /** ... and the latter exactly if the links among the regular candidates form a cycle. */
  lemma UnplannableIff(all: seq<Container>, filtered: seq<Container>, candidates: seq<Container>)
    requires Distinct(filtered) && Spread(all, filtered) && AreCandidates(filtered, candidates)
    ensures Unplannable(all, filtered, candidates) <==>
            !DistinctIdentifiers(Regular(filtered)) || HasCycle(LinkGraph(Regular(candidates)))
  {
    hide Spread, DistinctIdentifiers, Regular, Sorted, LinkGraph, HasCycle;
    if DistinctIdentifiers(Regular(filtered)) {
      RegularSublist(candidates, filtered);
      SublistDistinct(Regular(candidates), Regular(filtered));
      SortExact(Regular(candidates));
    }
  }

  lemma RestartingStale(all: seq<Container>)
    requires forall c :: c in all ==> !c.linkedToRestarting
    ensures Restarting(all) == StaleOnes(all)
  {
  }

  lemma SpreadSorted(all: seq<Container>, filtered: seq<Container>, sorted: seq<Container>)
    requires Elements(sorted) == Elements(filtered) && SortedInPlace(filtered).Some?
    requires LeastClosed(all, sorted, StaleOnes(all), Restarting(all))
    ensures Spread(all, filtered)
  {
    hide SortedInPlace, MatchesMember;
    assert forall c :: c in sorted <==> c in Elements(sorted);
    assert forall c :: c in filtered <==> c in Elements(filtered);
    forall members ensures Closed(sorted, members) <==> Closed(filtered, members) {
    }
  }

  /** The first sort and the implicit restarts, in terms of the stale containers. */
  method SpreadRestarts(all: seq<Container>, filtered: seq<Container>, progress: Progress)
    returns (error: Option<SortError>, sorted: seq<Container>)
    requires UniqueNames(all) && Distinct(filtered) && (forall c :: c in filtered ==> c in all)
    requires Accounted(progress, IDSet(filtered)) && forall c :: c in all ==> !c.linkedToRestarting
    modifies progress, Elements(all)`linkedToRestarting
    ensures Accounted(progress, IDSet(filtered)) && progress.statuses == old(progress.statuses)
    ensures Distinct(sorted) && forall c :: c in sorted <==> c in filtered
    ensures error.None? <==> DistinctIdentifiers(Regular(filtered))
    ensures SortedInPlace(filtered).Some? || forall c :: c in all ==> !c.linkedToRestarting
    ensures error.None? ==> Spread(all, filtered)
  {
    hide UniqueNames, SortedInPlace, LeastClosed, Accounted, Distinct, Restarting, StaleOnes, DistinctIdentifiers,
         Regular;
    RestartingStale(all);
    ghost var stale := StaleOnes(all);
    error, sorted := FirstSort(all, filtered, progress);
    if error.None? {
      if SortedInPlace(filtered).Some? {
        assert Elements(sorted) == Elements(filtered);
        SpreadSorted(all, filtered, sorted);
      } else {
        RestartingStale(all);
      }
    }
  }

  lemma CandidatesSort(filtered: seq<Container>, candidates: seq<Container>, marks: set<string>, progress: Progress,
                       config: Config, answers: Answers)
    requires WellNamed(filtered, marks) && Distinct(filtered)
    requires Distinct(candidates) && forall c :: c in candidates ==> c in filtered && c.ToRestart()
    requires forall c :: c in filtered ==> StaleSound(c, progress, config, answers, marks)
    requires SortedInPlace(filtered).Some? || forall c :: c in filtered ==> !c.linkedToRestarting
    ensures SortedInPlace(candidates).Some?
  {
    hide SortedInPlace, StaleSound, ResolveContainerIdentifier, DistinctIdentifiers, MayGraph, HasCycle, Unmarked,
         Regular;
    if !SortedInPlace(filtered).Some? {
      forall c | c in candidates ensures ResolveContainerIdentifier(c) !in marks {
        StaleUnmarked(c, progress, config, answers, marks);
      }
      UnmarkedMember(filtered, marks);
    }
    SecondSortIff(filtered, marks);
    assert Sublist(candidates, Restartable(filtered, marks));
  }

  /** Picks the containers to restart and sorts them. */
  method SortCandidates(filtered: seq<Container>, sorted: seq<Container>, progress: Progress, config: Config,
                        answers: Answers, ghost marks: set<string>)
    returns (error: Option<SortError>, list: seq<Container>, ghost candidates: seq<Container>)
    requires Distinct(filtered) && Distinct(sorted) && forall c :: c in sorted <==> c in filtered
    requires forall c :: c in filtered ==> StaleSound(c, progress, config, answers, marks)
    requires SortedInPlace(filtered).Some? || forall c :: c in filtered ==> !c.linkedToRestarting
    ensures AreCandidates(filtered, candidates)
    ensures if error.None? then RestartList(filtered, list, candidates) else SortedInPlace(candidates).None?
    ensures Distinct(list) && forall c :: c in list <==> c in candidates
    ensures WellNamed(filtered, marks) ==> error.None?
  {
    hide SortedInPlace, WellNamed, Distinct, StaleSound;
    var found := RestartCandidates(sorted);
    candidates := found;
    error, list := SortList(found);
    SortListKeeps(found, list);
    SameMembersSameIDs(found, list);
    if WellNamed(filtered, marks) {
      CandidatesSort(filtered, candidates, marks, progress, config, answers);
    }
  }

  /** Sorts, spreads the implicit restarts and sorts the containers to restart. A well-named list
      never fails. */
  method Plan(all: seq<Container>, filtered: seq<Container>, progress: Progress, config: Config, answers: Answers,
              ghost marks: set<string>)
    returns (error: Option<SortError>, list: seq<Container>, ghost candidates: seq<Container>)
    requires UniqueNames(all) && Distinct(filtered) && (forall c :: c in filtered ==> c in all)
    requires Accounted(progress, IDSet(filtered)) && HitsEveryCycle(DetectorGraph(filtered), marks)
    requires forall c :: c in filtered ==> StaleSound(c, progress, config, answers, marks)
    requires forall c :: c in all ==> !c.linkedToRestarting
    modifies progress, Elements(all)`stale, Elements(all)`linkedToRestarting
    ensures Accounted(progress, IDSet(filtered)) && progress.statuses == old(progress.statuses)
    ensures forall c :: c in all ==> c.stale == old(c.stale)
    ensures forall c :: c in filtered ==> StaleSound(c, progress, config, answers, marks)
    ensures error.None? ==> Spread(all, filtered) && RestartList(filtered, list, candidates)
    ensures error.Some? ==> Unplannable(all, filtered, candidates)
    ensures error.None? ==>
              Distinct(list) && forall c :: c in list <==> c in filtered && c.ToRestart() && !c.monitorOnly
    ensures error.None? ==> DistinctIdentifiers(Regular(filtered))
    ensures WellNamed(filtered, marks) ==> error.None?
  {
    hide UniqueNames, Accounted, HitsEveryCycle, DetectorGraph, SortedInPlace, WellNamed, IDSet, LeastClosed,
         ShouldUpdateContainer, ResolveContainerIdentifier, Spread, Restarting, Distinct;
    PropagateStale(all, filtered);
    RestartingStale(all);
    var sorted;
    error, sorted := SpreadRestarts(all, filtered, progress);
    list, candidates := sorted, sorted;
    forall c | c in filtered ensures StaleSound(c, progress, config, answers, marks) {
      assert old(StaleSound(c, progress, config, answers, marks));
    }
    WellNamedIsDistinct(filtered, marks);
    if error.Some? {
      return;
    }
    error, list, candidates := SortCandidates(filtered, sorted, progress, config, answers, marks);
  }

  // ----- the run

  datatype UpdateResult =
    | CanceledEarly
    | ListFailed
    | SortFailed(error: SortError)
    | Reported(report: SessionReport, cleanup: seq<RemovedImageInfo>, completed: bool)

  lemma UniqueIDsDistinct(cs: seq<Container>)
    requires UniqueIDs(cs) && Distinct(cs)
    ensures Distinct(IDs(cs))
  {
    var ids := IDs(cs);
    forall i, j | 0 <= i < j < |ids| ensures ids[i] != ids[j] {
      assert cs[i] != cs[j];
    }
  }

  /** A dependency on itself or on a marked cycle keeps the container from being checked. */
  predicate Skips(c: Container, marks: set<string>) {
    HasSelfDependency(c) || ResolveContainerIdentifier(c) in marks
  }

  /** The scan recorded every container as expected. */
  ghost predicate ScanRecorded(cs: seq<Container>, states: map<string, State>, statuses: Statuses, marks: set<string>,
                               config: Config, answers: Answers) {
    forall c :: c in cs && c.id in statuses ==> RecordedOne(c, states, statuses, Skips(c, marks), config, answers)
  }

  /** The containers an update picks: not skipped for a dependency on themselves or on a cycle, and
      chosen by their checks. */
  predicate Picked(c: Container, config: Config, answers: Answers, marks: set<string>) {
    !Skips(c, marks) && Chosen(c, config, answers)
  }

  lemma FlaggedIsPicked(cs: seq<Container>, cycles: set<string>, config: Config, answers: Answers)
    requires UniqueIDs(cs)
    requires Flagged(cs, |cs|, IDsWhere(cs, HasSelfDependency) + IDsWhere(cs, Marked(cycles)), config, answers)
    ensures forall c :: c in cs ==> (c.stale <==> Picked(c, config, answers, cycles))
  {
    hide IDsWhere, HasSelfDependency, ResolveContainerIdentifier, Chosen;
    IDsWhereMember(cs, HasSelfDependency);
    IDsWhereMember(cs, Marked(cycles));
    forall c | c in cs ensures c.stale <==> Picked(c, config, answers, cycles) {
      assert Marked(cycles)(c) <==> ResolveContainerIdentifier(c) in cycles;
      var k :| 0 <= k < |cs| && cs[k] == c;
    }
  }

  lemma RecordedIsScan(cs: seq<Container>, states: map<string, State>, statuses: Statuses, cycles: set<string>,
                       config: Config, answers: Answers)
    requires UniqueIDs(cs)
    requires Recorded(cs, states, statuses, IDsWhere(cs, HasSelfDependency) + IDsWhere(cs, Marked(cycles)), config,
                      answers)
    ensures ScanRecorded(cs, states, statuses, cycles, config, answers)
  {
    hide IDsWhere, HasSelfDependency, ResolveContainerIdentifier, RecordedOne;
    IDsWhereMember(cs, HasSelfDependency);
    IDsWhereMember(cs, Marked(cycles));
    var skipped := IDsWhere(cs, HasSelfDependency) + IDsWhere(cs, Marked(cycles));
    forall c | c in cs && c.id in statuses
      ensures RecordedOne(c, states, statuses, Skips(c, cycles), config, answers)
    {
      assert Marked(cycles)(c) <==> ResolveContainerIdentifier(c) in cycles;
      assert c.id in skipped <==> Skips(c, cycles);
    }
  }

  /** Skips what must not be updated and classifies the rest. */
  method ScanContainers(filtered: seq<Container>, client: Client, config: Config, answers: Answers)
    returns (canceled: bool, progress: Progress, ghost marks: set<string>, ghost reached: set<string>)
    requires UniqueIDs(filtered) && Distinct(filtered)
    requires forall c :: c in filtered ==> !c.stale && !c.linkedToRestarting
    modifies client`canceled, Elements(filtered)`stale
    ensures fresh(progress) && fresh(progress.statuses.Values)
    ensures Sound(DetectorGraph(filtered), marks) && HitsEveryCycle(DetectorGraph(filtered), marks)
    ensures canceled ==> client.canceled
    ensures !canceled ==> forall c :: c in filtered ==> (c.stale <==> Picked(c, config, answers, marks))
    ensures ScanRecorded(filtered, progress.States(), progress.statuses, marks, config, answers)
    ensures reached <= IDSet(filtered) && Accounted(progress, reached) && (!canceled ==> reached == IDSet(filtered))
    ensures forall c :: c in filtered ==> StaleSound(c, progress, config, answers, marks) && !c.linkedToRestarting
  {
    hide Sound, HitsEveryCycle, DetectorGraph, HasSelfDependency, StaleSound, ResolveContainerIdentifier, UniqueIDs,
         Accounted;
    hide IDsWhere, IDSet, Marked, Flagged, Picked, Recorded, ScanRecorded, Progress.States;
    progress := new Progress();
    SkipSelfDependent(filtered, progress, config, answers);
    ghost var own := IDsWhere(filtered, HasSelfDependency);
    var cycles;
    ghost var roots;
    cycles, roots := DetectCyclesIn(filtered);
    marks := cycles;
    SkipCyclic(filtered, cycles, progress, own, config, answers);
    ghost var skipped := own + IDsWhere(filtered, Marked(cycles));
    MarkedSkipped(filtered, cycles);
    ghost var n;
    canceled, n := Classify(filtered, client, config, answers, progress, skipped, marks);
    reached := skipped + IDSet(filtered[..n]);
    ReachedWithin(filtered, cycles, n);
    RecordedIsScan(filtered, progress.States(), progress.statuses, cycles, config, answers);
    if !canceled {
      FlaggedIsPicked(filtered, cycles, config, answers);
    }
  }

  lemma MarkedSkipped(cs: seq<Container>, cycles: set<string>)
    ensures forall c :: c in cs && ResolveContainerIdentifier(c) in cycles ==> c.id in IDsWhere(cs, Marked(cycles))
  {
    hide IDsWhere, ResolveContainerIdentifier;
    IDsWhereMember(cs, Marked(cycles));
    forall c | c in cs && ResolveContainerIdentifier(c) in cycles ensures c.id in IDsWhere(cs, Marked(cycles)) {
      assert Marked(cycles)(c);
    }
  }

  lemma ReachedWithin(cs: seq<Container>, cycles: set<string>, n: nat)
    requires n <= |cs|
    ensures var reached := IDsWhere(cs, HasSelfDependency) + IDsWhere(cs, Marked(cycles)) + IDSet(cs[..n]);
            reached <= IDSet(cs) && (n == |cs| ==> reached == IDSet(cs))
  {
    hide IDsWhere, HasSelfDependency, Marked;
    IDsWhereMember(cs, HasSelfDependency);
    IDsWhereMember(cs, Marked(cycles));
    assert n == |cs| ==> cs[..n] == cs;
  }

  /** Every status records the images and the filed state that the scan and the run call for. */
  ghost predicate ReportExact(cs: seq<Container>, statuses: Statuses, marks: set<string>, config: Config,
                              answers: Answers, events: seq<Event>, failed: set<string>)
    reads cs`stale, statuses.Values
  {
    forall c :: c in cs && c.id in statuses ==>
      var (before, newImage) := Expected(c, Skips(c, marks), config, answers);
      && statuses[c.id].oldImage == c.imageID && statuses[c.id].newImage == newImage
      && FiledAs(c, statuses[c.id].state, before, SameImage(statuses[c.id]), config, events, failed)
  }

  /** Makes the report. Categories become states, which a further report would not change. */
  method MakeReport(progress: Progress, filtered: seq<Container>, ghost before: map<string, State>,
                    ghost marks: set<string>, ghost config: Config, ghost answers: Answers, ghost events: seq<Event>,
                    ghost failed: set<string>)
    returns (report: SessionReport)
    requires Keyed(progress.statuses) && Accurate(filtered, progress, before, config, events, failed)
    requires ScanRecorded(filtered, before, progress.statuses, marks, config, answers)
    modifies progress.statuses.Values`state
    ensures fresh(report) && report.Files(progress.statuses) && Final(progress.statuses)
    ensures ReportExact(filtered, progress.statuses, marks, config, answers, events, failed)
  {
    hide SessionReport.Files, FiledAs, Final, Expected, Skips;
    report := NewReport(progress.statuses);
    forall c | c in filtered && c.id in progress.statuses
      ensures c.id in before
      ensures FiledAs(c, progress.statuses[c.id].state, before[c.id], SameImage(progress.statuses[c.id]), config,
                      events, failed)
    {
      assert progress.statuses[c.id].state == old(CategoryOf(progress.statuses[c.id]));
      assert old(FiledAs(c, CategoryOf(progress.statuses[c.id]), before[c.id], SameImage(progress.statuses[c.id]),
                         config, events, failed));
    }
    forall c | c in filtered && c.id in progress.statuses
      ensures RecordedOne(c, before, progress.statuses, Skips(c, marks), config, answers)
    {
    }
  }

  /** The scan's guarantees, carried over to the containers to restart. */
  lemma ListScanned(filtered: seq<Container>, list: seq<Container>, progress: Progress, config: Config,
                    answers: Answers, marks: set<string>)
    requires Accounted(progress, IDSet(filtered)) && forall c :: c in list ==> c in filtered && c.ToRestart()
    requires forall c :: c in filtered ==> StaleSound(c, progress, config, answers, marks)
    ensures Scanned(list, progress, config)
  {
  }

  lemma SublistIDs(filtered: seq<Container>, list: seq<Container>)
    requires UniqueIDs(filtered) && Distinct(list) && forall c :: c in list ==> c in filtered
    ensures Distinct(IDs(list))
  {
    UniqueIDsDistinct(list);
  }

  lemma PickedMay(filtered: seq<Container>, config: Config, answers: Answers, marks: set<string>)
    requires forall c :: c in filtered ==> (c.stale <==> Picked(c, config, answers, marks))
    ensures forall c :: c in filtered && c.stale ==> c.verifies && Permitted(c, config)
  {
    hide Chosen, HasSelfDependency, ResolveContainerIdentifier;
    forall c | c in filtered && c.stale ensures c.verifies && Permitted(c, config) {
      ChosenIff(c, config, answers);
    }
  }

  /** Exactly the picked containers are stale; all of them verify and may be updated. */
  ghost predicate Scheduled(filtered: seq<Container>, config: Config, answers: Answers, plan: PlanRecord)
    reads filtered`stale
  {
    && Sound(DetectorGraph(filtered), plan.marks) && HitsEveryCycle(DetectorGraph(filtered), plan.marks)
    && (forall c :: c in filtered ==> (c.stale <==> Picked(c, config, answers, plan.marks)))
    && forall c :: c in filtered && c.stale ==> c.verifies && Permitted(c, config)
  }

  /** The run as a whole: which containers were found stale, how the restarts spread from them, and
      that exactly the resulting list was run. */
  ghost predicate Carried(all: seq<Container>, filtered: seq<Container>, config: Config, answers: Answers,
                          plan: PlanRecord, events: seq<Event>, failed: set<string>, canceled: bool)
    reads all`stale, all`linkedToRestarting, filtered`stale, filtered`linkedToRestarting
    reads plan.list`stale, plan.list`linkedToRestarting
  {
    && Scheduled(filtered, config, answers, plan)
    && (forall c :: c in all && c.stale ==> c in filtered)
    && Spread(all, filtered) && DistinctIdentifiers(Regular(filtered))
    && RestartList(filtered, plan.list, plan.candidates)
    && Ran(plan.list, config, events, failed, canceled)
  }

  /** The marks of the cycle detector, the containers to restart, and their sorted list. */
  datatype PlanRecord = PlanRecord(marks: set<string>, candidates: seq<Container>, list: seq<Container>)

  lemma AccountedKeyed(progress: Progress, ids: set<string>)
    requires Accounted(progress, ids)
    ensures Keyed(progress.statuses) && progress.statuses.Keys == ids
  {
  }

  lemma NoImages()
    ensures Distinct(ImageIDs([]))
  {
  }

  lemma StatesAre(progress: Progress, states: map<string, State>)
    ensures progress.States() == states <==>
            && states.Keys == progress.statuses.Keys
            && forall id :: id in progress.statuses ==> states[id] == progress.statuses[id].state
  {
    if states.Keys == progress.statuses.Keys &&
       forall id :: id in progress.statuses ==> states[id] == progress.statuses[id].state
    {
      assert progress.States() == states;
    }
  }

  /** Runs the list and makes the report. */
  method ExecuteAndReport(filtered: seq<Container>, list: seq<Container>, client: Client, progress: Progress,
                          config: Config, ghost answers: Answers, ghost marks: set<string>)
    returns (result: UpdateResult, ghost events: seq<Event>, ghost failed: set<string>)
    requires Distinct(IDs(list)) && Scanned(list, progress, config) && TakenFrom(list, filtered)
    requires ScanRecorded(filtered, progress.States(), progress.statuses, marks, config, answers)
    modifies client, progress.statuses.Values, Elements(list)`chain
    ensures client.trace == old(client.trace) + events
    ensures result.Reported? && result.report.Files(progress.statuses) && Final(progress.statuses)
    ensures Ran(list, config, events, failed, client.canceled)
    ensures LossesExplained(list, config, events, failed)
    ensures Collects([], result.cleanup, BackInfos(list, config, events, failed))
    ensures result.completed || (config.rollingRestart && client.canceled)
    ensures ReportExact(filtered, progress.statuses, marks, config, answers, events, failed)
  {
    hide LossesExplained, Accurate, SessionReport.Files, IDs, ReportExact, ScanRecorded, Ran, Final, Distinct,
         Progress.States, TakenFrom, Collects, BackInfos;
    NoImages();
    ghost var before := progress.States();
    var canceled, cleanup;
    canceled, cleanup, failed, events := Execute(list, filtered, client, config, [], progress);
    var report := MakeReport(progress, filtered, before, marks, config, answers, events, failed);
    result := Reported(report, cleanup, !canceled);
  }

  /** Plans and executes after a complete scan. */
  method PlanAndExecute(all: seq<Container>, filtered: seq<Container>, client: Client, progress: Progress,
                        config: Config, answers: Answers, ghost marks: set<string>)
    returns (result: UpdateResult, ghost plan: PlanRecord, ghost events: seq<Event>, ghost failed: set<string>)
    requires UniqueNames(all) && UniqueIDs(filtered) && Distinct(filtered) && (forall c :: c in filtered ==> c in all)
    requires Accounted(progress, IDSet(filtered))
    requires ScanRecorded(filtered, progress.States(), progress.statuses, marks, config, answers)
    requires Sound(DetectorGraph(filtered), marks) && HitsEveryCycle(DetectorGraph(filtered), marks)
    requires forall c :: c in filtered ==> StaleSound(c, progress, config, answers, marks)
    requires forall c :: c in filtered ==> (c.stale <==> Picked(c, config, answers, marks))
    requires forall c :: c in all ==> !c.linkedToRestarting && (c.stale ==> c in filtered)
    modifies client, progress, progress.statuses.Values, Elements(all)`stale, Elements(all)`linkedToRestarting
    modifies Elements(all)`chain
    ensures client.trace == old(client.trace) + events
    ensures progress.statuses == old(progress.statuses) && plan.marks == marks
    ensures result.Reported? || (result.SortFailed? && events == [] && !WellNamed(filtered, marks))
    ensures result.SortFailed? ==>
              Scheduled(filtered, config, answers, plan) && Unplannable(all, filtered, plan.candidates)
    ensures result.Reported? ==> result.report.Files(progress.statuses) && Final(progress.statuses)
    ensures result.Reported? ==> Carried(all, filtered, config, answers, plan, events, failed, client.canceled)
    ensures result.Reported? ==> LossesExplained(plan.list, config, events, failed)
    ensures result.Reported? ==> Collects([], result.cleanup, BackInfos(plan.list, config, events, failed))
    ensures result.Reported? && !result.completed ==> config.rollingRestart && client.canceled
    ensures result.Reported? ==> ReportExact(filtered, progress.statuses, marks, config, answers, events, failed)
  {
    hide UniqueNames, Sound, HitsEveryCycle, DetectorGraph, WellNamed, SortedInPlace, LossesExplained, Scanned,
         Accurate, SessionReport.Files, StaleSound, UniqueIDs, IDs, ReportExact, ScanRecorded, Picked, Spread,
         RestartList, Ran, Accounted, Final, Distinct, IDSet, Unplannable, Progress.States, Collects, BackInfos,
         DistinctIdentifiers, Regular, Permitted;
    AccountedKeyed(progress, IDSet(filtered));
    events, failed, plan := [], {}, PlanRecord(marks, [], []);
    ghost var before := progress.States();
    StatesAre(progress, before);
    var error, list;
    ghost var candidates;
    error, list, candidates := Plan(all, filtered, progress, config, answers, marks);
    plan := PlanRecord(marks, candidates, list);
    PickedMay(filtered, config, answers, marks);
    if error.Some? {
      return SortFailed(error.value), plan, events, failed;
    }
    ListScanned(filtered, list, progress, config, answers, marks);
    SublistIDs(filtered, list);
    StatesAre(progress, before);
    result, events, failed := ExecuteAndReport(filtered, list, client, progress, config, answers, marks);
  }

  lemma FilteredUnique(all: seq<Container>, filter: Container -> bool)
    requires UniqueNames(all) && Distinct(all)
    ensures var filtered := Filtered(all, filter);
            UniqueIDs(filtered) && Distinct(filtered) && forall c :: c in filtered ==> c in all
  {
    FilteredMember(all, filter);
  }

  function Listed(listing: Option<seq<Container>>): seq<Container> {
    if listing.Some? then listing.value else []
  }

  /** One update session over freshly listed containers, whose restart flags are clear.
      - It ends early only if the listing fails, the context is canceled or the plan fails, and the
        plan never fails on a well-named list.
      - Unless canceled during the scan, it runs exactly the containers the plan calls for.
      - Every filtered container the scan reached has exactly one status, whose images and filed state
        say what the scan found and what the run did; all were reached unless the scan was canceled.
      - The containers the run lost are exactly explained, and the images handed over for cleanup are
        those of the stale containers that are back without a rename, once each. */
  method Update(listing: Option<seq<Container>>, client: Client, config: Config, answers: Answers)
    returns (result: UpdateResult, ghost plan: PlanRecord, ghost events: seq<Event>, ghost failed: set<string>,
             ghost statuses: Statuses)
    requires var all := Listed(listing);
             UniqueNames(all) && Distinct(all) && forall c :: c in all ==> !c.stale && !c.linkedToRestarting
    modifies client, Elements(Listed(listing))`stale, Elements(Listed(listing))`linkedToRestarting
    modifies Elements(Listed(listing))`chain
    ensures client.trace == old(client.trace) + events
    ensures var all := Listed(listing);
            var filtered := Filtered(all, answers.filter);
            match result
            case CanceledEarly => events == [] && client.canceled
            case ListFailed => events == [] && listing.None?
            case SortFailed(_) =>
              && events == [] && !WellNamed(filtered, plan.marks)
              && Scheduled(filtered, config, answers, plan) && Unplannable(all, filtered, plan.candidates)
            case Reported(report, cleanup, completed) =>
              && report.Files(statuses) && Final(statuses) && (completed || client.canceled)
              && ReportExact(filtered, statuses, plan.marks, config, answers, events, failed)
              && LossesExplained(plan.list, config, events, failed)
              && Collects([], cleanup, BackInfos(plan.list, config, events, failed))
              && (|| (statuses.Keys == IDSet(filtered)
                      && Carried(all, filtered, config, answers, plan, events, failed, client.canceled))
                  || (statuses.Keys <= IDSet(filtered) && events == [] && failed == {} && cleanup == [] && !completed))
  {
    hide UniqueNames, Sound, HitsEveryCycle, DetectorGraph, WellNamed, LossesExplained, Filtered, SessionReport.Files,
         StaleSound, UniqueIDs, ReportExact, ScanRecorded, Distinct, IDSet, Picked, Carried, Scheduled, Unplannable,
         Accounted, Accurate, Final, Progress.States, Collects, BackInfos;
    events, failed, statuses, plan := [], {}, map[], PlanRecord({}, [], []);
    var early := client.Canceled();
    if early {
      return CanceledEarly, plan, events, failed, statuses;
    }
    if listing.None? {
      return ListFailed, plan, events, failed, statuses;
    }
    var all := listing.value;
    var filtered := FilterContainers(all, answers.filter);
    FilteredUnique(all, answers.filter);
    var canceled, progress;
    ghost var marks, reached;
    canceled, progress, marks, reached := ScanContainers(filtered, client, config, answers);
    statuses := progress.statuses;
    AccountedKeyed(progress, reached);
    if canceled {
      ghost var before := progress.States();
      NothingRun(filtered, progress, before, config, reached);
      plan := PlanRecord(marks, [], []);
      var report := MakeReport(progress, filtered, before, marks, config, answers, events, failed);
      NothingLost(config);
      result := Reported(report, [], false);
      return;
    }
    result, plan, events, failed := PlanAndExecute(all, filtered, client, progress, config, answers, marks);
  }

  lemma NothingLost(config: Config)
    ensures LossesExplained([], config, [], {})
    ensures Collects([], [], BackInfos([], config, [], {}))
  {
    CollectsNothing([]);
    assert BackInfos([], config, [], {}) == {};
  }

  /** With nothing run, every status is filed from the state the scan gave it. */
  lemma NothingRun(cs: seq<Container>, progress: Progress, before: map<string, State>, config: Config, ids: set<string>)
    requires Accounted(progress, ids) && before == progress.States()
    ensures Accurate(cs, progress, before, config, [], {})
  {
    forall c | c in cs && c.id in progress.statuses
      ensures c.id in before
      ensures FiledAs(c, CategoryOf(progress.statuses[c.id]), before[c.id], SameImage(progress.statuses[c.id]), config,
                      [], {})
    {
      assert before[c.id] == progress.statuses[c.id].state;
    }
  }
}
