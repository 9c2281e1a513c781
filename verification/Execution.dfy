/** The executing half of Update (internal/actions/update.go): batch or rolling, with the promises
    both modes share. */
module Execution {
  import opened Text
  import opened Containers
  import opened Digraph
  import opened LinkResolution
  import opened Sorter
  import opened Session
  import opened UpdateRun
  import opened StartPhase
  import opened RollingRestart
  import opened BatchRun
  import opened Scan

  // ----- the execution

  /** What every status will be filed as says what the run did to its container. */
  ghost predicate Accurate(session: seq<Container>, progress: Progress, before: map<string, State>, config: Config,
                           events: seq<Event>, failed: set<string>)
    reads session`stale, progress, progress.statuses.Values
  {
    forall c :: c in session && c.id in progress.statuses ==>
      && c.id in before
      && FiledAs(c, CategoryOf(progress.statuses[c.id]), before[c.id], SameImage(progress.statuses[c.id]), config,
                 events, failed)
  }

  /** What the scan guarantees of the restart candidates and of all statuses. */
  ghost predicate Scanned(list: seq<Container>, progress: Progress, config: Config)
    reads list`stale, list`linkedToRestarting, progress, progress.statuses.Values
  {
    && Keyed(progress.statuses)
    && (forall id :: id in progress.statuses ==> progress.statuses[id].state in {SkippedState, ScannedState})
    && forall c :: c in list ==>
         && c.ToRestart() && c.id in progress.statuses
         && (c.stale && c.isWatchtower ==> config.currentContainerID in {"", c.id})
  }

  /** The containers of the session have unique IDs, and the list is taken from them. */
  ghost predicate TakenFrom(list: seq<Container>, session: seq<Container>) {
    UniqueIDs(session) && forall c :: c in list ==> c in session
  }

  lemma CategoryFromStates(progress: Progress, id: string)
    requires id in progress.statuses
    ensures id in progress.States()
    ensures CategoryOf(progress.statuses[id]) == Category(progress.States()[id], SameImage(progress.statuses[id]))
  {
  }

  lemma IDsAreIDSet(list: seq<Container>)
    ensures forall id :: id in IDs(list) <==> id in IDSet(list)
  {
    forall id | id in IDSet(list) ensures id in IDs(list) {
      var c :| c in list && c.id == id;
      var k :| 0 <= k < |list| && list[k] == c;
      assert IDs(list)[k] == id;
    }
  }

  lemma NotListed(list: seq<Container>, session: seq<Container>, c: Container)
    requires TakenFrom(list, session) && c in session && c !in list
    ensures c.id !in IDs(list)
  {
    IDsAreIDSet(list);
  }

  lemma BatchAccurate(list: seq<Container>, session: seq<Container>, progress: Progress, config: Config,
                      before: map<string, State>, stopped: set<string>, failedStop: map<string, Failure>,
                      failedStart: map<string, Failure>, done: set<string>, stops: seq<Event>, starts: seq<Event>)
    requires Distinct(IDs(list)) && TakenFrom(list, session)
    requires forall c :: c in list ==>
               c.ToRestart() && (c.stale && c.isWatchtower ==> config.currentContainerID in {"", c.id})
    requires forall id :: id in before ==> before[id] in {SkippedState, ScannedState}
    requires before.Keys == progress.statuses.Keys
    requires BatchOutcome(list, config, stopped, failedStop, failedStart, done, stops, starts)
    requires progress.States() == BatchStates(list, before, failedStop, failedStart, done)
    ensures Accurate(session, progress, before, config, stops + starts, failedStop.Keys + failedStart.Keys)
  {
    hide IDs, BatchOutcome, BatchStates, CategoryOf, Category, FiledAs, Distinct, UniqueIDs;
    forall c | c in session && c.id in progress.statuses
      ensures c.id in before
      ensures FiledAs(c, CategoryOf(progress.statuses[c.id]), before[c.id], SameImage(progress.statuses[c.id]), config,
                      stops + starts, failedStop.Keys + failedStart.Keys)
    {
      var same := SameImage(progress.statuses[c.id]);
      CategoryFromStates(progress, c.id);
      if c in list {
        BatchReportExact(list, config, stopped, failedStop, failedStart, done, stops, starts, before, same, c);
      } else {
        NotListed(list, session, c);
        BatchReportsNoOthers(list, config, stopped, failedStop, failedStart, done, stops, starts, before, same, c);
      }
    }
  }

  lemma RollingAccurate(list: seq<Container>, session: seq<Container>, reached: nat, progress: Progress, config: Config,
                        before: map<string, State>, failed: map<string, Failure>, done: set<string>, events: seq<Event>)
    requires Distinct(IDs(list)) && TakenFrom(list, session)
    requires forall c :: c in list ==> c.ToRestart()
    requires forall id :: id in before ==> before[id] in {SkippedState, ScannedState}
    requires before.Keys == progress.statuses.Keys
    requires RolledUpTo(list, |list|, config, RestartIDs(list), failed, done, events)
    requires RollVerdicts(list, |list|, config, failed, events, true)
    requires reached <= |list| && forall k :: reached <= k < |list| ==> list[k].id in failed
    requires progress.States() == RollingStates(list, reached, before, failed, done)
    ensures Accurate(session, progress, before, config, events, failed.Keys)
  {
    hide IDs, RolledUpTo, RollVerdicts, RollingStates, CategoryOf, Category, RestartIDs, FiledAs, Distinct, UniqueIDs;
    forall c | c in session && c.id in progress.statuses
      ensures c.id in before
      ensures FiledAs(c, CategoryOf(progress.statuses[c.id]), before[c.id], SameImage(progress.statuses[c.id]), config,
                      events, failed.Keys)
    {
      var same := SameImage(progress.statuses[c.id]);
      CategoryFromStates(progress, c.id);
      if c in list {
        RollingReportExact(list, reached, config, failed, done, events, before, same, c);
      } else {
        NotListed(list, session, c);
        RollingReportsNoOthers(list, reached, config, failed, done, events, before, same, c);
      }
    }
  }

  /** The events are those of a run over the list in the configured mode: a batch run, in which all
      stops precede all starts, or a rolling run, container by container. In both, what happened to
      each container fits the verdict on it, and canceled says whether a cancellation may excuse it. */
  ghost predicate Ran(list: seq<Container>, config: Config, events: seq<Event>, failed: set<string>, canceled: bool)
    reads list`stale, list`linkedToRestarting
  {
    if config.rollingRestart then
      exists failures, done :: RanRolling(list, config, events, failed, canceled, failures, done)
    else
      exists stopped, failedStop, failedStart, done, stops, starts ::
        RanBatch(list, config, events, failed, canceled, stopped, failedStop, failedStart, done, stops, starts)
  }

  ghost predicate RanRolling(list: seq<Container>, config: Config, events: seq<Event>, failed: set<string>,
                             canceled: bool, failures: map<string, Failure>, done: set<string>)
    reads list`stale, list`linkedToRestarting
  {
    && failed == failures.Keys
    && RolledUpTo(list, |list|, config, RestartIDs(list), failures, done, events)
    && RollVerdicts(list, |list|, config, failures, events, canceled)
  }

  ghost predicate RanBatch(list: seq<Container>, config: Config, events: seq<Event>, failed: set<string>,
                           canceled: bool,
                           stopped: set<string>, failedStop: map<string, Failure>, failedStart: map<string, Failure>,
                           done: set<string>, stops: seq<Event>, starts: seq<Event>)
    reads list`stale, list`linkedToRestarting
  {
    && events == stops + starts && failed == failedStop.Keys + failedStart.Keys
    && BatchOutcome(list, config, stopped, failedStop, failedStart, done, stops, starts)
    && StopVerdicts(list, 0, config, failedStop, stops, canceled)
    && StartVerdicts(list, |list|, config, EligibleIDs(list, stopped, config), failedStart, starts, canceled)
  }

  method ExecuteBatch(list: seq<Container>, ghost session: seq<Container>, client: Client, config: Config,
                      cleanup: seq<RemovedImageInfo>, progress: Progress)
    returns (cleanup': seq<RemovedImageInfo>, ghost failed: set<string>, ghost events: seq<Event>)
    requires Distinct(IDs(list)) && Scanned(list, progress, config) && Distinct(ImageIDs(cleanup))
    requires TakenFrom(list, session)
    modifies client, Elements(list)`chain, progress.statuses.Values
    ensures client.trace == old(client.trace) + events
    ensures Collects(cleanup, cleanup', BackInfos(list, config, events, failed))
    ensures !config.rollingRestart ==> Ran(list, config, events, failed, client.canceled)
    ensures LossesExplained(list, config, events, failed)
    ensures Accurate(session, progress, old(progress.States()), config, events, failed)
  {
    hide IDs, ImageIDs, Accurate, LossesExplained, BatchOutcome, BatchStates, Cleaned, Collects, BackInfos,
         StopVerdicts,
         StartVerdicts, TakenFrom;
    ghost var before := progress.States();
    var failedStop, failedStart;
    ghost var stopped, done, stops, starts;
    failedStop, failedStart, cleanup', stopped, done, stops, starts :=
      RunBatch(list, client, config, cleanup, progress);
    failed := failedStop.Keys + failedStart.Keys;
    events := stops + starts;
    assert client.trace == old(client.trace) + events;
    assert RanBatch(list, config, events, failed, client.canceled, stopped, failedStop, failedStart, done, stops,
                    starts);
    BatchInfos(list, config, stopped, failedStop, failedStart, done, stops, starts);
    BatchLosses(list, config, stopped, failedStop, failedStart, done, stops, starts);
    BatchAccurate(list, session, progress, config, before, stopped, failedStop, failedStart, done, stops, starts);
  }

  /** The rolling run with its failures recorded. */
  method RunRolling(list: seq<Container>, client: Client, config: Config, cleanup: seq<RemovedImageInfo>,
                    progress: Progress)
    returns (canceled: bool, cleanup': seq<RemovedImageInfo>, ghost failed: map<string, Failure>,
             ghost done: set<string>, ghost events: seq<Event>, ghost reached: nat)
    requires Distinct(IDs(list)) && Keyed(progress.statuses) && Distinct(ImageIDs(cleanup))
    modifies client, Elements(list)`chain, progress.statuses.Values
    ensures client.trace == old(client.trace) + events
    ensures RolledUpTo(list, |list|, config, RestartIDs(list), failed, done, events)
    ensures RollVerdicts(list, |list|, config, failed, events, client.canceled) && (canceled ==> client.canceled)
    ensures reached <= |list| && (!canceled ==> reached == |list|)
    ensures forall k :: reached <= k < |list| ==> list[k].id in failed
    ensures progress.States() == RollingStates(list, reached, old(progress.States()), failed, done)
    ensures Collects(cleanup, cleanup', Cleaned(list, done, config))
  {
    hide RolledUpTo, RollVerdicts, IDs, ImageIDs, RestartIDs, StaleIDs, NonStaleDone, Cleaned, Collects, BackInfos,
         WithState,
         WithFailures, Progress.States;
    var failures;
    failures, canceled, cleanup', done, events, reached :=
      PerformRollingRestart(list, client, config, cleanup, progress);
    failed := failures;
    progress.UpdateFailed(failures);
  }

  method ExecuteRolling(list: seq<Container>, ghost session: seq<Container>, client: Client, config: Config,
                        cleanup: seq<RemovedImageInfo>, progress: Progress)
    returns (canceled: bool, cleanup': seq<RemovedImageInfo>, ghost failed: set<string>, ghost events: seq<Event>)
    requires Distinct(IDs(list)) && Scanned(list, progress, config) && Distinct(ImageIDs(cleanup))
    requires TakenFrom(list, session)
    modifies client, Elements(list)`chain, progress.statuses.Values
    ensures client.trace == old(client.trace) + events
    ensures Collects(cleanup, cleanup', BackInfos(list, config, events, failed))
    ensures config.rollingRestart ==> Ran(list, config, events, failed, client.canceled)
    ensures canceled ==> client.canceled
    ensures LossesExplained(list, config, events, failed)
    ensures Accurate(session, progress, old(progress.States()), config, events, failed)
  {
    hide IDs, ImageIDs, Accurate, LossesExplained, RollVerdicts, RolledUpTo, RollingStates, Cleaned, Collects,
         BackInfos, RestartIDs,
         TakenFrom;
    ghost var before := progress.States();
    ghost var failures, done, reached;
    canceled, cleanup', failures, done, events, reached := RunRolling(list, client, config, cleanup, progress);
    failed := failures.Keys;
    assert RanRolling(list, config, events, failed, client.canceled, failures, done);
    if !client.canceled {
      RollVerdictsLater(list, config, failures, events);
    }
    RollingInfos(list, config, failures, done, events);
    RollingLosses(list, config, failures, done, events);
    RollingAccurate(list, session, reached, progress, config, before, failures, done, events);
  }

  /** Runs the plan in the configured mode. Completed or cut short, the losses are explained and the
      statuses say what was done. */
  method Execute(list: seq<Container>, ghost session: seq<Container>, client: Client, config: Config,
                 cleanup: seq<RemovedImageInfo>, progress: Progress)
    returns (canceled: bool, cleanup': seq<RemovedImageInfo>, ghost failed: set<string>, ghost events: seq<Event>)
    requires Distinct(IDs(list)) && Scanned(list, progress, config) && Distinct(ImageIDs(cleanup))
    requires TakenFrom(list, session)
    modifies client, Elements(list)`chain, progress.statuses.Values
    ensures client.trace == old(client.trace) + events
    ensures Collects(cleanup, cleanup', BackInfos(list, config, events, failed))
    ensures Ran(list, config, events, failed, client.canceled)
    ensures LossesExplained(list, config, events, failed)
    ensures Accurate(session, progress, old(progress.States()), config, events, failed)
    ensures canceled ==> config.rollingRestart && client.canceled
  {
    hide IDs, ImageIDs, Accurate, LossesExplained, Scanned, Ran, TakenFrom, Collects, BackInfos;
    if config.rollingRestart {
      canceled, cleanup', failed, events := ExecuteRolling(list, session, client, config, cleanup, progress);
    } else {
      canceled := false;
      cleanup', failed, events := ExecuteBatch(list, session, client, config, cleanup, progress);
    }
  }

  /** A run leaves containers outside the list alone. */
  lemma OutsideRun(list: seq<Container>, config: Config, events: seq<Event>, failed: set<string>, canceled: bool,
                   id: string)
    requires Ran(list, config, events, failed, canceled) && id !in IDs(list)
    ensures id !in failed && forall e :: e in events ==> e.id != id
  {
    hide BatchOutcome, StopVerdicts, StartVerdicts, RollVerdicts, IDs, Climbs, RestartIDs;
    if config.rollingRestart {
      var failures, done :| RanRolling(list, config, events, failed, canceled, failures, done);
      assert Position(list, id) >= |list| by { Absent(list, id); }
    } else {
      var stopped, failedStop, failedStart, done, stops, starts :|
        RanBatch(list, config, events, failed, canceled, stopped, failedStop, failedStart, done, stops, starts);
      OutsideBatch(list, config, stopped, failedStop, failedStart, done, stops, starts, id);
    }
  }

  lemma Absent(list: seq<Container>, id: string)
    requires id !in IDs(list)
    ensures Position(list, id) >= |list|
  {
  }

  /** Nothing happens to c before everything has happened to d. */
  ghost predicate After(events: seq<Event>, c: Container, d: Container) {
    forall p, q :: 0 <= p < |events| && 0 <= q < |events| && events[p].id == d.id && events[q].id == c.id ==> p < q
  }

  /** If c depends on d as the sort of the restart list resolves it, a batch run stops c, stops d,
      starts d and starts c in this order, and a rolling run is done with d before it touches c. */
  lemma DependenciesRespected(candidates: seq<Container>, list: seq<Container>, config: Config, events: seq<Event>,
                              failed: set<string>, canceled: bool, c: Container, d: Container)
    requires SortedInPlace(candidates) == Some(list) && Distinct(IDs(list))
    requires Ran(list, config, events, failed, canceled)
    requires c in Regular(candidates) && d in Regular(candidates)
    requires Edge(LinkGraph(Regular(candidates)), Identifier(d), Identifier(c))
    ensures if config.rollingRestart then After(events, c, d) else Nested(events, c, d)
  {
    hide SortedInPlace, IDs, LinkGraph, Edge, Identifier, RolledUpTo, RollVerdicts, BatchOutcome, StopVerdicts,
         StartVerdicts, Position, Regular;
    DependencyFirst(candidates, c, d);
    if config.rollingRestart {
      var failures, done :| RanRolling(list, config, events, failed, canceled, failures, done);
      OneAtATime(list, config, failures, done, events, d, c);
    } else {
      RegularListed(candidates, list, c);
      RegularListed(candidates, list, d);
      var stopped, failedStop, failedStart, done, stops, starts :|
        RanBatch(list, config, events, failed, canceled, stopped, failedStop, failedStart, done, stops, starts);
      NestedTrace(list, config, stopped, failedStop, failedStart, done, stops, starts, c, d);
    }
  }

  lemma RegularListed(candidates: seq<Container>, list: seq<Container>, c: Container)
    requires SortedInPlace(candidates) == Some(list) && c in Regular(candidates)
    ensures c in list && !c.isWatchtower
  {
    hide SortedInPlace;
    SortPermutes(candidates);
    PartitionKeeps(candidates);
    assert c in multiset(Regular(candidates));
    assert c in multiset(list);
  }
}
