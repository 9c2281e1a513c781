/** The batch update (internal/actions/update.go): mark, stop all in reverse, start all in order,
    and what its trace guarantees. */
module BatchRun {
  import opened Text
  import opened Digraph
  import opened Containers
  import opened Session
  import opened LinkResolution
  import opened GraphBuilder
  import opened Sorter
  import opened UpdateRun
  import opened StartPhase
  import opened RollingRestart

  /** The statuses after a batch run, from those before it. */
  ghost function BatchStates(cs: seq<Container>, before: map<string, State>, failedStop: map<string, Failure>,
                             failedStart: map<string, Failure>, done: set<string>): map<string, State>
    reads cs`stale
  {
    WithFailures(WithState(WithFailures(WithState(before, StaleIDs(cs), UpdatedState), failedStop),
                           NonStaleDone(cs, done), RestartedState),
                 failedStart)
  }

  /** The phases' outcomes fit together. */
  ghost predicate BatchOutcome(cs: seq<Container>, config: Config, stopped: set<string>,
                               failedStop: map<string, Failure>,
                               failedStart: map<string, Failure>, done: set<string>, stops: seq<Event>,
                               starts: seq<Event>)
    reads cs`stale, cs`linkedToRestarting
  {
    && StopsSettled(cs, 0, failedStop, stopped, stops)
    && StartedUpTo(cs, |cs|, config, EligibleIDs(cs, stopped, config), failedStart, done, starts)
    && (TowersStop(cs, failedStop, false) || done == {})
  }

  method MarkStale(cs: seq<Container>, progress: Progress)
    requires Keyed(progress.statuses)
    modifies progress.statuses.Values
    ensures progress.States() == WithState(old(progress.States()), StaleIDs(cs), UpdatedState)
  {
    hide StaleIDs, WithState;
    NoneMarked(cs, progress.States());
    for i := 0 to |cs|
      invariant progress.States() == WithState(old(progress.States()), StaleIDs(cs[..i]), UpdatedState)
    {
      MarkNext(cs, i, old(progress.States()));
      if cs[i].stale {
        progress.MarkForUpdate(cs[i].id);
      }
    }
    assert cs[..|cs|] == cs;
  }

  /** The first half: mark the stale containers, stop everything, record the failures. */
  method StopBatch(cs: seq<Container>, client: Client, config: Config, progress: Progress)
    returns (failedStop: map<string, Failure>, stopped: seq<RemovedImageInfo>, ghost stops: seq<Event>)
    requires Distinct(IDs(cs)) && Keyed(progress.statuses)
    modifies client, progress.statuses.Values
    ensures client.trace == old(client.trace) + stops
    ensures StopsSettled(cs, 0, failedStop, StoppedIDs(stopped), stops)
    ensures StopVerdicts(cs, 0, config, failedStop, stops, client.canceled)
    ensures TowersStop(cs, failedStop, client.canceled)
    ensures progress.States() == WithFailures(WithState(old(progress.States()), StaleIDs(cs), UpdatedState), failedStop)
  {
    hide StopsSettled, IDs, StaleIDs, WithState, WithFailures, StoppedIDs, TowersStop, StopVerdicts, Progress.States;
    MarkStale(cs, progress);
    failedStop, stopped, stops := StopContainersInReversedOrder(cs, client, config);
    progress.UpdateFailed(failedStop);
  }

  /** The second half: start what may start, record the failures. */
  method StartBatch(cs: seq<Container>, client: Client, config: Config, stopped: seq<RemovedImageInfo>,
                    cleanup: seq<RemovedImageInfo>, progress: Progress)
    returns (failedStart: map<string, Failure>, cleanup': seq<RemovedImageInfo>, ghost done: set<string>,
             ghost starts: seq<Event>)
    requires Distinct(IDs(cs)) && Keyed(progress.statuses) && Distinct(ImageIDs(cleanup))
    modifies client, Elements(cs)`chain, progress.statuses.Values
    ensures client.trace == old(client.trace) + starts
    ensures StartedUpTo(cs, |cs|, config, EligibleIDs(cs, StoppedIDs(stopped), config), failedStart, done, starts)
    ensures StartVerdicts(cs, |cs|, config, EligibleIDs(cs, StoppedIDs(stopped), config), failedStart, starts,
                          client.canceled)
    ensures old(client.canceled) ==> client.canceled && done == {}
    ensures progress.States() == WithFailures(WithState(old(progress.States()), NonStaleDone(cs, done),
                                                        RestartedState), failedStart)
    ensures Collects(cleanup, cleanup', Cleaned(cs, done, config))
  {
    hide StartedUpTo, IDs, ImageIDs, NonStaleDone, Cleaned, Collects, WithState, WithFailures, EligibleIDs, StoppedIDs,
         StartVerdicts, Progress.States;
    failedStart, cleanup', done, starts :=
      RestartContainersInSortedOrder(cs, client, config, stopped, cleanup, progress);
    progress.UpdateFailed(failedStart);
  }

  method RunBatch(cs: seq<Container>, client: Client, config: Config, cleanup: seq<RemovedImageInfo>,
                  progress: Progress)
    returns (failedStop: map<string, Failure>, failedStart: map<string, Failure>, cleanup': seq<RemovedImageInfo>,
             ghost stopped: set<string>, ghost done: set<string>, ghost stops: seq<Event>, ghost starts: seq<Event>)
    requires Distinct(IDs(cs)) && Keyed(progress.statuses) && Distinct(ImageIDs(cleanup))
    modifies client, Elements(cs)`chain, progress.statuses.Values
    ensures client.trace == old(client.trace) + stops + starts
    ensures BatchOutcome(cs, config, stopped, failedStop, failedStart, done, stops, starts)
    ensures StopVerdicts(cs, 0, config, failedStop, stops, client.canceled)
    ensures StartVerdicts(cs, |cs|, config, EligibleIDs(cs, stopped, config), failedStart, starts, client.canceled)
    ensures progress.States() == BatchStates(cs, old(progress.States()), failedStop, failedStart, done)
    ensures Collects(cleanup, cleanup', Cleaned(cs, done, config))
  {
    hide StopsSettled, StartedUpTo, IDs, ImageIDs, StaleIDs, NonStaleDone, Cleaned, Collects, WithState, WithFailures,
         EligibleIDs, StoppedIDs, TowersStop, StopVerdicts, StartVerdicts, Progress.States;
    var stoppedImages;
    failedStop, stoppedImages, stops := StopBatch(cs, client, config, progress);
    if !client.canceled {
      StopVerdictsLater(cs, 0, config, failedStop, stops);
    }
    stopped := StoppedIDs(stoppedImages);
    failedStart, cleanup', done, starts := StartBatch(cs, client, config, stoppedImages, cleanup, progress);
  }

  // ----- which containers are lost

  /** The run removed the container, did not start it anew and recorded no failure for it. */
  ghost predicate Lost(events: seq<Event>, failed: set<string>, id: string) {
    Stop(id, Removed) in events && Start(id, true) !in events && id !in failed
  }

  ghost predicate NoneLost(events: seq<Event>, failed: set<string>) {
    forall id :: !Lost(events, failed, id)
  }

  ghost predicate RegularID(cs: seq<Container>, id: string) {
    exists c :: c in cs && !c.isWatchtower && c.id == id
  }

  /** A container is lost exactly if restarts are off and it is a regular one that was removed
      without a failure. */
  ghost predicate LossesExplained(cs: seq<Container>, config: Config, events: seq<Event>, failed: set<string>) {
    forall id :: Lost(events, failed, id) <==>
      config.noRestart && RegularID(cs, id) && Stop(id, Removed) in events && id !in failed
  }

  lemma BatchLosses(cs: seq<Container>, config: Config, stopped: set<string>, failedStop: map<string, Failure>,
                    failedStart: map<string, Failure>, done: set<string>, stops: seq<Event>, starts: seq<Event>)
    requires Distinct(IDs(cs)) && (forall c :: c in cs ==> c.ToRestart())
    requires BatchOutcome(cs, config, stopped, failedStop, failedStart, done, stops, starts)
    ensures LossesExplained(cs, config, stops + starts, failedStop.Keys + failedStart.Keys)
  {
    hide BatchOutcome, IDs;
    var events, failed := stops + starts, failedStop.Keys + failedStart.Keys;
    forall id
      ensures Lost(events, failed, id) <==>
              config.noRestart && RegularID(cs, id) && Stop(id, Removed) in events && id !in failed
    {
      BatchLoss(cs, config, stopped, failedStop, failedStart, done, stops, starts, id);
    }
  }

  lemma BatchLoss(cs: seq<Container>, config: Config, stopped: set<string>, failedStop: map<string, Failure>,
                  failedStart: map<string, Failure>, done: set<string>, stops: seq<Event>, starts: seq<Event>,
                  id: string)
    requires Distinct(IDs(cs)) && (forall c :: c in cs ==> c.ToRestart())
    requires BatchOutcome(cs, config, stopped, failedStop, failedStart, done, stops, starts)
    ensures Lost(stops + starts, failedStop.Keys + failedStart.Keys, id) <==>
            && config.noRestart && RegularID(cs, id)
            && Stop(id, Removed) in stops + starts && id !in failedStop.Keys + failedStart.Keys
  {
    hide BatchOutcome, IDs;
    if Stop(id, Removed) in stops + starts && id !in failedStop.Keys + failedStart.Keys {
      var k := RemovedInBatch(cs, config, stopped, failedStop, failedStart, done, stops, starts, id);
      StartInBatch(cs, config, stopped, failedStop, failedStart, done, stops, starts, k);
      SameRegular(cs, k);
    }
  }

  /** A container removed without a failure is a regular one of the list, and its restart succeeded. */
  lemma RemovedInBatch(cs: seq<Container>, config: Config, stopped: set<string>, failedStop: map<string, Failure>,
                       failedStart: map<string, Failure>, done: set<string>, stops: seq<Event>, starts: seq<Event>,
                       id: string) returns (k: nat)
    requires Distinct(IDs(cs)) && (forall c :: c in cs ==> c.ToRestart())
    requires BatchOutcome(cs, config, stopped, failedStop, failedStart, done, stops, starts)
    requires Stop(id, Removed) in stops + starts && id !in failedStop && id !in failedStart
    ensures k < |cs| && cs[k].id == id && !cs[k].isWatchtower && id in done
  {
    hide EligibleIDs, Settled;
    assert Stop(id, Removed).outcome == Removed && Stop(id, Removed).Stop?;
    assert Stop(id, Removed) in stops;
    k := Position(cs, id);
    assert cs[k].id == id && id in stopped;
    EligibleAt(cs, k, stopped, config);
    EligibleSettles(cs, |cs|, EligibleIDs(cs, stopped, config), failedStart, done, k);
  }

  lemma StartInBatch(cs: seq<Container>, config: Config, stopped: set<string>, failedStop: map<string, Failure>,
                     failedStart: map<string, Failure>, done: set<string>, stops: seq<Event>, starts: seq<Event>,
                     k: nat)
    requires BatchOutcome(cs, config, stopped, failedStop, failedStart, done, stops, starts) && k < |cs|
    ensures Start(cs[k].id, true) in stops + starts <==> cs[k].id in done && Starts(cs[k], config)
  {
    hide Settled, EligibleIDs;
    assert !Start(cs[k].id, true).Stop?;
  }

  lemma SameRegular(cs: seq<Container>, k: nat)
    requires Distinct(IDs(cs)) && k < |cs|
    ensures RegularID(cs, cs[k].id) <==> !cs[k].isWatchtower
  {
    hide IDs;
    assert cs[k] in cs;
    forall c | c in cs && c.id == cs[k].id ensures c == cs[k] {
      ContainerOfID(cs, c, cs[k]);
    }
  }

  lemma EligibleSettles(cs: seq<Container>, i: nat, eligible: set<string>, failed: map<string, Failure>,
                        done: set<string>, k: nat)
    requires Settled(cs, i, eligible, failed, done) && k < i <= |cs| && cs[k].id in eligible
    ensures cs[k].id in failed || cs[k].id in done
  {
  }

  // ----- the nested order

  /** Dependencies stand before their dependents in the sorted restart list. */
  lemma DependencyFirst(list: seq<Container>, c: Container, d: Container)
    requires SortedInPlace(list).Some? && Distinct(IDs(SortedInPlace(list).value))
    requires c in Regular(list) && d in Regular(list)
    requires Edge(LinkGraph(Regular(list)), Identifier(d), Identifier(c))
    ensures var cs := SortedInPlace(list).value; Position(cs, d.id) < Position(cs, c.id) < |cs|
  {
    hide Identifier, LinkGraph, Sorted, IDs;
    var regular := Regular(list);
    var r, cs := Sorted(regular).value, SortedInPlace(list).value;
    DistinctIfSorted(regular);
    SortExact(regular);
    var i, j := IndexOf(Identifiers(r), Identifier(d)), IndexOf(Identifiers(r), Identifier(c));
    SortedHolds(regular, r, c);
    SortedHolds(regular, r, d);
    assert cs[i] == r[i] && cs[j] == r[j];
    PositionOf(cs, i);
    PositionOf(cs, j);
  }

  lemma SortedHolds(regular: seq<Container>, r: seq<Container>, c: Container)
    requires DistinctIdentifiers(regular) && multiset(r) == multiset(regular) && c in regular
    ensures Identifier(c) in Identifiers(r) && r[IndexOf(Identifiers(r), Identifier(c))] == c
  {
    hide Identifier;
    assert c in multiset(r);
    var k :| 0 <= k < |r| && r[k] == c;
    assert Identifiers(r)[k] == Identifier(c);
    var i := IndexOf(Identifiers(r), Identifier(c));
    assert r[i] in multiset(r);
    assert r[i] in regular;
    UniqueByIdentifier(regular, r[i], c);
  }

  /** d is wrapped by c: c stops before d, neither stops after anything has started, and d starts
      before c. */
  ghost predicate Nested(events: seq<Event>, c: Container, d: Container) {
    && (forall p, q | IsStop(events, p, {c.id}) && IsStop(events, q, {d.id}) :: p < q)
    && (forall p, r | IsStop(events, p, {c.id, d.id}) && 0 <= r < |events| && events[r].Start? :: p < r)
    && (forall r, s | IsStart(events, r, d.id) && IsStart(events, s, c.id) :: r < s)
  }

  predicate IsStop(events: seq<Event>, p: int, ids: set<string>) {
    0 <= p < |events| && events[p].Stop? && events[p].id in ids
  }

  predicate IsStart(events: seq<Event>, p: int, id: string) {
    0 <= p < |events| && events[p].Start? && events[p].id == id
  }

  /** Regular containers stop before anything starts, dependents before dependencies, and start
      again in the opposite order. */
  lemma NestedTrace(cs: seq<Container>, config: Config, stopped: set<string>, failedStop: map<string, Failure>,
                    failedStart: map<string, Failure>, done: set<string>, stops: seq<Event>, starts: seq<Event>,
                    c: Container, d: Container)
    requires BatchOutcome(cs, config, stopped, failedStop, failedStart, done, stops, starts)
    requires c in cs && d in cs && !c.isWatchtower && !d.isWatchtower && Position(cs, d.id) < Position(cs, c.id)
    ensures Nested(stops + starts, c, d)
  {
    hide Position, Verdicts, StopsAsked, Settled, EligibleIDs, StopsAmong, TowersStop, OnlyTowersStop, Starts;
    var e, n := stops + starts, |stops|;
    forall p | 0 <= p < |e|
      ensures p < n ==> e[p] == stops[p] && e[p].Stop?
      ensures p >= n ==> e[p] == starts[p - n]
      ensures e[p].Stop? && e[p].id in {c.id, d.id} ==> p < n
    {
      NestedEvent(cs, config, stopped, failedStop, failedStart, done, stops, starts, c, p);
      NestedEvent(cs, config, stopped, failedStop, failedStart, done, stops, starts, d, p);
    }
  }

  /** A regular container is asked to stop in the first phase only, in which nothing starts. */
  lemma NestedEvent(cs: seq<Container>, config: Config, stopped: set<string>, failedStop: map<string, Failure>,
                    failedStart: map<string, Failure>, done: set<string>, stops: seq<Event>, starts: seq<Event>,
                    c: Container, p: nat)
    requires BatchOutcome(cs, config, stopped, failedStop, failedStart, done, stops, starts)
    requires c in cs && !c.isWatchtower && p < |stops + starts|
    ensures p < |stops| ==> (stops + starts)[p].Stop?
    ensures (stops + starts)[p].Stop? && (stops + starts)[p].id == c.id ==> p < |stops|
  {
    hide Position, Verdicts, StopsAsked, Settled, EligibleIDs, StopsAmong, TowersStop, Climbs, Descends, StartsMatch;
    var e := (stops + starts)[p];
    if p < |stops| {
      assert e in stops;
    } else if e.Stop? {
      assert e in starts && e == Stop(e.id, e.outcome);
    }
  }

  // ----- report accuracy

  lemma ContainerOfID(cs: seq<Container>, c: Container, d: Container)
    requires Distinct(IDs(cs)) && c in cs && d in cs && c.id == d.id
    ensures c == d
  {
    var i :| 0 <= i < |cs| && cs[i] == c;
    var j :| 0 <= j < |cs| && cs[j] == d;
    SameIDSame(cs, i, j);
  }

  /** Where a batch run leaves one restart candidate: it restarted, or one of the phases failed it,
      and never both. */
  lemma BatchVerdict(cs: seq<Container>, config: Config, stopped: set<string>, failedStop: map<string, Failure>,
                     failedStart: map<string, Failure>, done: set<string>, stops: seq<Event>, starts: seq<Event>,
                     k: nat)
    requires Distinct(IDs(cs)) && k < |cs| && cs[k].ToRestart()
    requires cs[k].isWatchtower && cs[k].stale ==> config.currentContainerID in {"", cs[k].id}
    requires BatchOutcome(cs, config, stopped, failedStop, failedStart, done, stops, starts)
    ensures cs[k].id in done ==> cs[k].id !in failedStop && cs[k].id !in failedStart
    ensures cs[k].stale ==> cs[k].id in done || cs[k].id in failedStop || cs[k].id in failedStart
  {
    hide EligibleIDs, StopsOnly, StopsAsked, Descends, StartsMatch, StopsAmong, OnlyTowersStop;
    EligibleAt(cs, k, stopped, config);
    PositionOf(cs, k);
  }

  lemma StaleAt(cs: seq<Container>, done: set<string>, c: Container)
    requires Distinct(IDs(cs)) && c in cs
    ensures c.id in StaleIDs(cs) <==> c.stale
    ensures c.id in NonStaleDone(cs, done) <==> !c.stale && c.id in done
  {
    hide IDs;
    forall d | d in cs && d.id == c.id ensures d == c {
      ContainerOfID(cs, c, d);
    }
  }

  lemma BatchStateAt(cs: seq<Container>, before: map<string, State>, failedStop: map<string, Failure>,
                     failedStart: map<string, Failure>, done: set<string>, id: string)
    requires id in before
    ensures id in BatchStates(cs, before, failedStop, failedStart, done)
    ensures BatchStates(cs, before, failedStop, failedStart, done)[id] ==
            if id in failedStart then FailedState
            else if id in NonStaleDone(cs, done) then RestartedState
            else if id in failedStop then FailedState
            else if id in StaleIDs(cs) then UpdatedState
            else before[id]
  {
    hide NonStaleDone, StaleIDs;
  }

  /** The container is back: started anew or, where nothing is to be started, stopped without a failure. */
  ghost predicate Back(c: Container, config: Config, events: seq<Event>, failed: set<string>) {
    if Starts(c, config) then Start(c.id, true) in events
    else c.id !in failed && (Stop(c.id, Removed) in events || Stop(c.id, NotFound) in events)
  }

  /** The category of a container's status says what the run did: failed are exactly the failures that
      are not hidden by an equal image, updated the stale containers that are back under another
      image, restarted the other ones that are back. A container the run left alone is filed from the
      state the scan gave it. */
  ghost predicate FiledAs(c: Container, category: State, before: State, sameImage: bool, config: Config,
                          events: seq<Event>, failed: set<string>)
    reads c`stale
  {
    && (c.id !in failed && !Back(c, config, events, failed) ==> category == Category(before, sameImage))
    && (category == FailedState <==> c.id in failed && !sameImage)
    && (c.id in failed && sameImage ==> category == FreshState)
    && (category == UpdatedState <==> c.stale && Back(c, config, events, failed) && !sameImage)
    && (category == RestartedState <==> !c.stale && Back(c, config, events, failed))
  }

  lemma BackInBatch(cs: seq<Container>, config: Config, stopped: set<string>, failedStop: map<string, Failure>,
                    failedStart: map<string, Failure>, done: set<string>, stops: seq<Event>, starts: seq<Event>, k: nat)
    requires Distinct(IDs(cs)) && k < |cs| && cs[k].ToRestart()
    requires BatchOutcome(cs, config, stopped, failedStop, failedStart, done, stops, starts)
    ensures Back(cs[k], config, stops + starts, failedStop.Keys + failedStart.Keys) <==> cs[k].id in done
  {
    hide IDs, Position, EligibleIDs, Climbs, Descends;
    var c := cs[k];
    StartInBatch(cs, config, stopped, failedStop, failedStart, done, stops, starts, k);
    EligibleAt(cs, k, stopped, config);
    if !Starts(c, config) {
      assert forall o :: Stop(c.id, o) in stops + starts ==> Stop(c.id, o) in stops;
      assert Stop(c.id, Removed).outcome == Removed && Stop(c.id, NotFound).outcome == NotFound;
    }
  }

  /** The cleanup entries of the stale containers that are back without a rename. */
  ghost function BackInfos(cs: seq<Container>, config: Config, events: seq<Event>,
                           failed: set<string>): set<RemovedImageInfo>
    reads cs`stale
  {
    set c | c in cs && Cleans(c, config) && Back(c, config, events, failed) :: InfoOf(c)
  }

  lemma SameBackInfos(cs: seq<Container>, done: set<string>, config: Config, events: seq<Event>, failed: set<string>)
    requires forall k :: 0 <= k < |cs| ==> (Back(cs[k], config, events, failed) <==> cs[k].id in done)
    ensures Cleaned(cs, done, config) == BackInfos(cs, config, events, failed)
  {
    hide Cleans, Back;
  }

  lemma BatchInfos(cs: seq<Container>, config: Config, stopped: set<string>, failedStop: map<string, Failure>,
                    failedStart: map<string, Failure>, done: set<string>, stops: seq<Event>, starts: seq<Event>)
    requires Distinct(IDs(cs)) && forall c :: c in cs ==> c.ToRestart()
    requires BatchOutcome(cs, config, stopped, failedStop, failedStart, done, stops, starts)
    ensures Cleaned(cs, done, config) ==
            BackInfos(cs, config, stops + starts, failedStop.Keys + failedStart.Keys)
  {
    hide IDs, BatchOutcome, Back, Cleaned, BackInfos;
    forall k | 0 <= k < |cs|
      ensures Back(cs[k], config, stops + starts, failedStop.Keys + failedStart.Keys) <==> cs[k].id in done
    {
      BackInBatch(cs, config, stopped, failedStop, failedStart, done, stops, starts, k);
    }
    SameBackInfos(cs, done, config, stops + starts, failedStop.Keys + failedStart.Keys);
  }

  /** The report of a batch run files every container of the list as what was done to it. */
  lemma BatchReportExact(cs: seq<Container>, config: Config, stopped: set<string>, failedStop: map<string, Failure>,
                         failedStart: map<string, Failure>, done: set<string>, stops: seq<Event>, starts: seq<Event>,
                         before: map<string, State>, sameImage: bool, c: Container)
    requires Distinct(IDs(cs)) && c in cs && c.ToRestart()
    requires c.isWatchtower && c.stale ==> config.currentContainerID in {"", c.id}
    requires BatchOutcome(cs, config, stopped, failedStop, failedStart, done, stops, starts)
    requires c.id in before && before[c.id] in {SkippedState, ScannedState}
    ensures FiledAs(c, Category(BatchStates(cs, before, failedStop, failedStart, done)[c.id], sameImage), before[c.id],
                    sameImage, config, stops + starts, failedStop.Keys + failedStart.Keys)
  {
    hide NonStaleDone, StaleIDs, BatchStates, IDs, BatchOutcome, Back;
    var k :| 0 <= k < |cs| && cs[k] == c;
    BatchVerdict(cs, config, stopped, failedStop, failedStart, done, stops, starts, k);
    BackInBatch(cs, config, stopped, failedStop, failedStart, done, stops, starts, k);
    StaleAt(cs, done, c);
    BatchStateAt(cs, before, failedStop, failedStart, done, c.id);
  }

  /** A batch run has nothing to do with a container outside the list. */
  lemma OutsideBatch(cs: seq<Container>, config: Config, stopped: set<string>, failedStop: map<string, Failure>,
                     failedStart: map<string, Failure>, done: set<string>, stops: seq<Event>, starts: seq<Event>,
                     id: string)
    requires BatchOutcome(cs, config, stopped, failedStop, failedStart, done, stops, starts) && id !in IDs(cs)
    ensures id !in failedStop && id !in failedStart && id !in done
    ensures forall e :: e in stops + starts ==> e.id != id
  {
    hide EligibleIDs, Climbs, Descends, StopsAsked, TowersStop, StopsAmong, OnlyTowersStop;
    assert Position(cs, id) >= |cs|;
  }

  /** ... and a container outside the list as what the scan made of it. */
  lemma BatchReportsNoOthers(cs: seq<Container>, config: Config, stopped: set<string>, failedStop: map<string, Failure>,
                             failedStart: map<string, Failure>, done: set<string>, stops: seq<Event>,
                             starts: seq<Event>, before: map<string, State>, sameImage: bool, c: Container)
    requires BatchOutcome(cs, config, stopped, failedStop, failedStart, done, stops, starts)
    requires c.id in before && before[c.id] in {SkippedState, ScannedState} && c.id !in IDs(cs)
    ensures FiledAs(c, Category(BatchStates(cs, before, failedStop, failedStart, done)[c.id], sameImage), before[c.id],
                    sameImage, config, stops + starts, failedStop.Keys + failedStart.Keys)
    ensures c.id !in failedStop && c.id !in failedStart
  {
    hide BatchOutcome, BatchStates, IDs;
    OutsideBatch(cs, config, stopped, failedStop, failedStart, done, stops, starts, c.id);
    OtherIDs(cs, c.id);
    assert Start(c.id, true).id == Stop(c.id, Removed).id == Stop(c.id, NotFound).id == c.id;
    assert c.id !in StaleIDs(cs) && c.id !in NonStaleDone(cs, done);
    BatchStateAt(cs, before, failedStop, failedStart, done, c.id);
  }

  lemma OtherIDs(cs: seq<Container>, id: string)
    requires id !in IDs(cs)
    ensures forall c :: c in cs ==> c.id != id
  {
    forall c | c in cs ensures c.id != id {
      var k :| 0 <= k < |cs| && cs[k] == c;
      assert IDs(cs)[k] == c.id;
    }
  }

  // ----- the same for rolling runs

  /** The statuses after a rolling run, from those before it. */
  ghost function RollingStates(cs: seq<Container>, reached: nat, before: map<string, State>,
                               failed: map<string, Failure>, done: set<string>): map<string, State>
    requires reached <= |cs|
    reads cs`stale
  {
    WithFailures(WithState(WithState(before, StaleIDs(cs[..reached]), UpdatedState), NonStaleDone(cs, done),
                           RestartedState), failed)
  }

  lemma RollingLosses(cs: seq<Container>, config: Config, failed: map<string, Failure>, done: set<string>,
                      events: seq<Event>)
    requires Distinct(IDs(cs))
    requires RolledUpTo(cs, |cs|, config, RestartIDs(cs), failed, done, events)
    requires RollVerdicts(cs, |cs|, config, failed, events, true)
    ensures LossesExplained(cs, config, events, failed.Keys)
  {
    hide RolledUpTo, IDs, RollVerdicts, RestartIDs;
    forall id
      ensures Lost(events, failed.Keys, id) <==>
              config.noRestart && RegularID(cs, id) && Stop(id, Removed) in events && id !in failed.Keys
    {
      if Stop(id, Removed) in events && id !in failed {
        var k := RemovedInRoll(cs, config, failed, done, events, id);
        StartInRoll(cs, config, failed, done, events, k);
        SameRegular(cs, k);
      }
    }
  }

  lemma RemovedInRoll(cs: seq<Container>, config: Config, failed: map<string, Failure>, done: set<string>,
                      events: seq<Event>, id: string) returns (k: nat)
    requires Distinct(IDs(cs)) && RolledUpTo(cs, |cs|, config, RestartIDs(cs), failed, done, events)
    requires RollVerdicts(cs, |cs|, config, failed, events, true)
    requires Stop(id, Removed) in events && id !in failed
    ensures k < |cs| && cs[k].id == id && !cs[k].isWatchtower && id in done
  {
    hide RestartIDs, RollVerdicts, Climbs;
    assert Stop(id, Removed).Stop? && Stop(id, Removed).id == id;
    k := Position(cs, id);
    assert cs[k].id == id;
    OwnEvent(events, Stop(id, Removed));
    RolledRegular(cs, config, failed, events, k);
  }

  lemma {:induction false} OwnEvent(events: seq<Event>, e: Event)
    requires e in events
    ensures e in EventsOf(events, e.id)
  {
    var n := |events| - 1;
    if events[n] != e {
      assert events == events[..n] + [events[n]];
      OwnEvent(events[..n], e);
    }
  }

  /** Without a failure no Watchtower is asked to stop. */
  lemma RolledRegular(cs: seq<Container>, config: Config, failed: map<string, Failure>, events: seq<Event>, k: nat)
    requires k < |cs| && RollVerdicts(cs, |cs|, config, failed, events, true) && cs[k].id !in failed
    ensures cs[k].isWatchtower ==> Stop(cs[k].id, Removed) !in EventsOf(events, cs[k].id)
  {
    assert RollVerdict(cs[k], config, failed, events, true);
    var own := EventsOf(events, cs[k].id);
    if cs[k].ToRestart() {
      var stops, restart :| own == stops + restart && Rolled(cs[k], config, None, stops, restart);
      RestartStepEvents(cs[k], config, None, restart);
      assert Stop(cs[k].id, Removed).Stop?;
    }
  }

  lemma StartInRoll(cs: seq<Container>, config: Config, failed: map<string, Failure>, done: set<string>,
                    events: seq<Event>, k: nat)
    requires RolledUpTo(cs, |cs|, config, RestartIDs(cs), failed, done, events) && k < |cs|
    ensures Start(cs[k].id, true) in events <==> cs[k].id in done && Starts(cs[k], config)
  {
    hide Settled, RestartIDs;
  }

  lemma BackInRoll(cs: seq<Container>, config: Config, failed: map<string, Failure>, done: set<string>,
                   events: seq<Event>, k: nat)
    requires Distinct(IDs(cs)) && k < |cs| && cs[k].ToRestart()
    requires RolledUpTo(cs, |cs|, config, RestartIDs(cs), failed, done, events)
    requires RollVerdicts(cs, |cs|, config, failed, events, true)
    ensures Back(cs[k], config, events, failed.Keys) <==> cs[k].id in done
    ensures cs[k].id in done <==> cs[k].id !in failed
  {
    hide RollVerdicts, Climbs, IDs;
    StartInRoll(cs, config, failed, done, events, k);
    RestartIDAt(cs, k);
    EligibleSettles(cs, |cs|, RestartIDs(cs), failed, done, k);
    if !Starts(cs[k], config) && cs[k].id in done {
      RolledStopped(cs, config, failed, events, k);
    }
  }

  /** A regular container without a failure was asked to stop, and did. */
  lemma RolledStopped(cs: seq<Container>, config: Config, failed: map<string, Failure>, events: seq<Event>, k: nat)
    requires k < |cs| && RollVerdicts(cs, |cs|, config, failed, events, true)
    requires cs[k].id !in failed && cs[k].ToRestart() && !cs[k].isWatchtower
    ensures Stop(cs[k].id, Removed) in events || Stop(cs[k].id, NotFound) in events
  {
    assert RollVerdict(cs[k], config, failed, events, true);
    var own := EventsOf(events, cs[k].id);
    var stops, restart :| own == stops + restart && Rolled(cs[k], config, None, stops, restart);
    assert stops[0] in own;
    OwnEvents(events, cs[k].id, stops[0]);
  }

  lemma {:induction false} OwnEvents(events: seq<Event>, id: string, e: Event)
    requires e in EventsOf(events, id)
    ensures e in events
  {
    var n := |events| - 1;
    if e in EventsOf(events[..n], id) {
      OwnEvents(events[..n], id, e);
    }
  }

  lemma RollingInfos(cs: seq<Container>, config: Config, failed: map<string, Failure>, done: set<string>,
                     events: seq<Event>)
    requires Distinct(IDs(cs)) && forall c :: c in cs ==> c.ToRestart()
    requires RolledUpTo(cs, |cs|, config, RestartIDs(cs), failed, done, events)
    requires RollVerdicts(cs, |cs|, config, failed, events, true)
    ensures Cleaned(cs, done, config) == BackInfos(cs, config, events, failed.Keys)
  {
    hide IDs, RolledUpTo, RollVerdicts, Back, Cleaned, BackInfos, RestartIDs;
    forall k | 0 <= k < |cs| ensures Back(cs[k], config, events, failed.Keys) <==> cs[k].id in done {
      BackInRoll(cs, config, failed, done, events, k);
    }
    SameBackInfos(cs, done, config, events, failed.Keys);
  }

  /** The report of a rolling run, completed or cut short, files every container of the list as what
      was done to it. */
  lemma RollingReportExact(cs: seq<Container>, reached: nat, config: Config, failed: map<string, Failure>,
                           done: set<string>, events: seq<Event>, before: map<string, State>, sameImage: bool,
                           c: Container)
    requires Distinct(IDs(cs)) && c in cs && c.ToRestart()
    requires RolledUpTo(cs, |cs|, config, RestartIDs(cs), failed, done, events)
    requires RollVerdicts(cs, |cs|, config, failed, events, true)
    requires reached <= |cs| && forall k :: reached <= k < |cs| ==> cs[k].id in failed
    requires c.id in before && before[c.id] in {SkippedState, ScannedState}
    ensures FiledAs(c, Category(RollingStates(cs, reached, before, failed, done)[c.id], sameImage), before[c.id],
                    sameImage, config, events, failed.Keys)
  {
    hide NonStaleDone, StaleIDs, RollingStates, IDs, RestartIDs, RolledUpTo, RollVerdicts, Back;
    var k :| 0 <= k < |cs| && cs[k] == c;
    BackInRoll(cs, config, failed, done, events, k);
    StaleAt(cs, done, c);
    RollingStateAt(cs, reached, before, failed, done, k);
  }

  /** ... and a container outside the list as what the scan made of it. */
  lemma RollingReportsNoOthers(cs: seq<Container>, reached: nat, config: Config, failed: map<string, Failure>,
                               done: set<string>, events: seq<Event>, before: map<string, State>, sameImage: bool,
                               c: Container)
    requires RolledUpTo(cs, |cs|, config, RestartIDs(cs), failed, done, events) && reached <= |cs|
    requires c.id in before && before[c.id] in {SkippedState, ScannedState} && c.id !in IDs(cs)
    ensures FiledAs(c, Category(RollingStates(cs, reached, before, failed, done)[c.id], sameImage), before[c.id],
                    sameImage, config, events, failed.Keys)
    ensures c.id !in failed
  {
    hide RestartIDs, Climbs;
    OtherIDs(cs, c.id);
    assert Position(cs, c.id) >= |cs|;
    assert Start(c.id, true).id == Stop(c.id, Removed).id == Stop(c.id, NotFound).id == c.id;
    assert c.id !in StaleIDs(cs[..reached]) && c.id !in NonStaleDone(cs, done);
  }

  lemma RollingStateAt(cs: seq<Container>, reached: nat, before: map<string, State>, failed: map<string, Failure>,
                       done: set<string>, k: nat)
    requires Distinct(IDs(cs)) && k < |cs| && reached <= |cs| && cs[k].id in before
    requires k >= reached ==> cs[k].id in failed
    ensures cs[k].id in RollingStates(cs, reached, before, failed, done)
    ensures RollingStates(cs, reached, before, failed, done)[cs[k].id] ==
            if cs[k].id in failed then FailedState
            else if cs[k].id in NonStaleDone(cs, done) then RestartedState
            else if cs[k].stale then UpdatedState
            else before[cs[k].id]
  {
    hide NonStaleDone, IDs;
    if k < reached {
      assert cs[k] == cs[..reached][k];
      forall i | 0 <= i < |cs| && cs[i].id == cs[k].id ensures i == k {
        SameIDSame(cs, i, k);
      }
    }
  }
}
