/** Rolling restarts (internal/actions/update.go): each container is stopped and started before the
    next one is touched. */
module RollingRestart {
  import opened Text
  import opened Containers
  import opened Session
  import opened UpdateRun
  import opened StartPhase

  /** Rolling mode restarts whatever is to restart, Watchtower instances of any id included. */
  ghost function RestartIDs(cs: seq<Container>): set<string>
    reads cs`stale, cs`linkedToRestarting
  {
    set c | c in cs && c.ToRestart() :: c.id
  }

  lemma RestartIDAt(cs: seq<Container>, i: nat)
    requires Distinct(IDs(cs)) && i < |cs|
    ensures cs[i].id in RestartIDs(cs) <==> cs[i].ToRestart()
  {
    hide IDs;
    if cs[i].id in RestartIDs(cs) {
      var c :| c in cs && c.ToRestart() && c.id == cs[i].id;
      var k :| 0 <= k < |cs| && cs[k] == c;
      SameIDSame(cs, k, i);
    }
  }

  ghost function StaleIDs(cs: seq<Container>): set<string>
    reads cs`stale
  {
    set c | c in cs && c.stale :: c.id
  }

  lemma StaleNext(cs: seq<Container>, i: nat)
    requires i < |cs|
    ensures StaleIDs(cs[..i + 1]) == StaleIDs(cs[..i]) + if cs[i].stale then {cs[i].id} else {}
  {
    assert cs[..i + 1] == cs[..i] + [cs[i]];
  }

  /** The rolling run stands before position i: stop requests concern settled containers. */
  ghost predicate RolledUpTo(cs: seq<Container>, i: nat, config: Config, eligible: set<string>,
                             failed: map<string, Failure>, done: set<string>, events: seq<Event>)
  {
    && Settled(cs, i, eligible, failed, done)
    && StartsMatch(cs, i, config, done, events)
    && StopsAmong(events, failed.Keys + done)
  }

  lemma RolledNext(cs: seq<Container>, i: nat, config: Config, eligible: set<string>, failed: map<string, Failure>,
                   done: set<string>, events: seq<Event>, failure: Option<Failure>, more: seq<Event>)
    requires Distinct(IDs(cs)) && i < |cs| && RolledUpTo(cs, i, config, eligible, failed, done, events)
    requires cs[i].ToRestart() && cs[i].id in eligible && RollStep(cs[i], config, failure, more)
    requires RollVerdicts(cs, i, config, failed, events, false)
    ensures cs[i].id !in done
    ensures RollVerdicts(cs, i + 1, config, if failure.Some? then failed[cs[i].id := failure.value] else failed,
                         events + more, false)
    ensures if failure.Some? then RolledUpTo(cs, i + 1, config, eligible, failed[cs[i].id := failure.value], done,
                                             events + more)
            else RolledUpTo(cs, i + 1, config, eligible, failed, done + {cs[i].id}, events + more)
  {
    hide Settled, StartsMatch, IDs, Starts, RollStep, RollVerdicts;
    RollVerdictNext(cs, i, config, eligible, failed, done, events, failure, more);
    RollStepEvents(cs[i], config, failure, more);
    SettledNext(cs, i, eligible, failed, done, failure);
    StartsMatchNext(cs, i, config, done, events, failure, more);
    StopsAmongNext(events, more, failed.Keys + done, failed.Keys + done + {cs[i].id});
  }

  lemma RolledSkip(cs: seq<Container>, i: nat, config: Config, eligible: set<string>, failed: map<string, Failure>,
                   done: set<string>, events: seq<Event>)
    requires Distinct(IDs(cs)) && i < |cs| && RolledUpTo(cs, i, config, eligible, failed, done, events)
    requires cs[i].id !in eligible && !cs[i].ToRestart() && RollVerdicts(cs, i, config, failed, events, false)
    ensures RolledUpTo(cs, i + 1, config, eligible, failed, done, events)
    ensures RollVerdicts(cs, i + 1, config, failed, events, false)
  {
    hide Settled, StartsMatch, IDs, RollVerdicts;
    RollVerdictNext(cs, i, config, eligible, failed, done, events, None, []);
    assert events + [] == events;
    SettledSkip(cs, i, eligible, failed, done);
    StartsMatchSkip(cs, i, config, done, events);
  }

  lemma NothingRolled(cs: seq<Container>, config: Config, eligible: set<string>)
    ensures RolledUpTo(cs, 0, config, eligible, map[], {}, []) && RollVerdicts(cs, 0, config, map[], [], false)
  {
    NothingRestarted(cs, config, eligible);
  }

  /** What a rolling run did to one container: first the stop, then, if that went well, the restart. */
  ghost predicate RollStep(c: Container, config: Config, failure: Option<Failure>, events: seq<Event>)
    reads c`stale, c`linkedToRestarting
  {
    exists stops, restart :: events == stops + restart && Rolled(c, config, failure, stops, restart)
  }

  ghost predicate Rolled(c: Container, config: Config, failure: Option<Failure>, stops: seq<Event>, restart: seq<Event>)
    reads c`stale, c`linkedToRestarting
  {
    || (StopStep(c, config, None, stops) && RestartStep(c, config, failure, restart))
    || (failure.Some? && StopStep(c, config, failure, stops) && restart == [])
  }

  lemma RollStepEvents(c: Container, config: Config, failure: Option<Failure>, events: seq<Event>)
    requires RollStep(c, config, failure, events)
    ensures failure != Some(Canceled)
    ensures forall e :: e in events ==> e.id == c.id
    ensures Start(c.id, true) in events <==> failure == None && Starts(c, config)
  {
    hide StopStep, RestartStep;
    var stops, restart :| events == stops + restart && Rolled(c, config, failure, stops, restart);
    if StopStep(c, config, None, stops) && RestartStep(c, config, failure, restart) {
      StopStepEvents(c, config, None, stops);
      RestartStepEvents(c, config, failure, restart);
      RestartNotCanceled(c, config, failure, restart);
    } else {
      StopStepEvents(c, config, failure, stops);
      StopNotCanceled(c, config, failure, stops);
    }
  }

  /** Everything the run did to one container fits the verdict on it; only a cancellation leaves a
      container untouched that had to restart. */
  ghost predicate RollVerdict(c: Container, config: Config, failed: map<string, Failure>, events: seq<Event>,
                              canceled: bool)
    reads c`stale, c`linkedToRestarting
  {
    if Reason(failed, c.id) == Some(Canceled) then canceled && EventsOf(events, c.id) == []
    else if c.ToRestart() then RollStep(c, config, Reason(failed, c.id), EventsOf(events, c.id))
    else c.id !in failed && EventsOf(events, c.id) == []
  }

  ghost predicate RollVerdicts(cs: seq<Container>, i: nat, config: Config, failed: map<string, Failure>,
                               events: seq<Event>, canceled: bool)
    reads cs`stale, cs`linkedToRestarting
  {
    forall k :: 0 <= k < i <= |cs| ==> RollVerdict(cs[k], config, failed, events, canceled)
  }

  lemma RollVerdictNext(cs: seq<Container>, i: nat, config: Config, eligible: set<string>, failed: map<string, Failure>,
                        done: set<string>, events: seq<Event>, failure: Option<Failure>, more: seq<Event>)
    requires Distinct(IDs(cs)) && i < |cs| && RolledUpTo(cs, i, config, eligible, failed, done, events)
    requires RollVerdicts(cs, i, config, failed, events, false)
    requires if cs[i].ToRestart() then RollStep(cs[i], config, failure, more) else failure == None && more == []
    ensures RollVerdicts(cs, i + 1, config, if failure.Some? then failed[cs[i].id := failure.value] else failed,
                         events + more, false)
  {
    hide Settled, StartsMatch, IDs, RollStep, Starts;
    var id, failed' := cs[i].id, if failure.Some? then failed[cs[i].id := failure.value] else failed;
    UntouchedYet(cs, i, config, eligible, failed, done, events);
    if cs[i].ToRestart() {
      RollStepEvents(cs[i], config, failure, more);
    }
    forall k | 0 <= k < i + 1 ensures RollVerdict(cs[k], config, failed', events + more, false) {
      EventsOfNext(events, more, id, cs[k].id);
      if k == i {
        assert [] + more == more && Reason(failed', id) == failure;
      } else {
        assert RollVerdict(cs[k], config, failed, events, false);
        assert EventsOf(events + more, cs[k].id) == EventsOf(events, cs[k].id);
      }
    }
  }

  lemma RollVerdictsSkip(cs: seq<Container>, n: nat, config: Config, failed: map<string, Failure>,
                         failed': map<string, Failure>, done: set<string>, events: seq<Event>)
    requires Distinct(IDs(cs)) && n <= |cs| && StartsMatch(cs, n, config, done, events)
    requires RollVerdicts(cs, n, config, failed, events, false) && RestCanceled(cs, n, |cs|, failed, failed')
    ensures RollVerdicts(cs, |cs|, config, failed', events, true)
  {
    hide StartsMatch, IDs, RollStep;
    forall k | 0 <= k < |cs| ensures RollVerdict(cs[k], config, failed', events, true) {
      if k < n {
        assert RollVerdict(cs[k], config, failed, events, false);
      } else {
        NoEventsFrom(cs, n, config, done, events, k);
      }
    }
  }

  lemma RollVerdictsLater(cs: seq<Container>, config: Config, failed: map<string, Failure>, events: seq<Event>)
    requires RollVerdicts(cs, |cs|, config, failed, events, false)
    ensures RollVerdicts(cs, |cs|, config, failed, events, true)
  {
    hide RollStep;
    forall k | 0 <= k < |cs| ensures RollVerdict(cs[k], config, failed, events, true) {
      assert RollVerdict(cs[k], config, failed, events, false);
    }
  }

  method SkipRolled(cs: seq<Container>, n: nat, config: Config, ghost eligible: set<string>,
                    failed: map<string, Failure>, ghost done: set<string>, ghost events: seq<Event>)
    returns (failed': map<string, Failure>)
    requires Distinct(IDs(cs)) && n <= |cs| && RolledUpTo(cs, n, config, eligible, failed, done, events)
    requires RollVerdicts(cs, n, config, failed, events, false)
    ensures RolledUpTo(cs, |cs|, config, eligible, failed', done, events)
    ensures RollVerdicts(cs, |cs|, config, failed', events, true)
    ensures forall k :: n <= k < |cs| ==> cs[k].id in failed'
  {
    hide Settled, StartsMatch, RollVerdicts, IDs;
    failed' := SkipRestarts(cs, n, config, eligible, failed, done, events);
    RollVerdictsSkip(cs, n, config, failed, failed', done, events);
  }

  /** Stop, then restart, one container; both requests are recorded. */
  method RollOne(c: Container, client: Client, config: Config, cleanup: seq<RemovedImageInfo>, progress: Progress)
    returns (failure: Option<Failure>, cleanup': seq<RemovedImageInfo>, ghost events: seq<Event>)
    requires Keyed(progress.statuses) && Distinct(ImageIDs(cleanup))
    modifies client`trace, c`chain, progress.statuses.Values
    ensures client.trace == old(client.trace) + events
    ensures RollStep(c, config, failure, events)
    ensures progress.States() == if failure == None && !c.stale && c.id in progress.statuses
                                 then old(progress.States())[c.id := RestartedState] else old(progress.States())
    ensures Distinct(ImageIDs(cleanup'))
    ensures Collects(cleanup, cleanup', if failure == None && Cleans(c, config) then {InfoOf(c)} else {})
  {
    hide RestartStep, StopStep, Starts, ImageIDs, Cleans, Keyed, Progress.States, Elements, Collects;
    cleanup' := cleanup;
    CollectsNothing(cleanup);
    ghost var hook;
    failure, hook, events := StopStaleContainer(c, client, config);
    ghost var stops, restart := events, [];
    if failure.None? {
      failure, cleanup', restart := RestartAndRecord(c, client, config, cleanup, progress);
    }
    events := stops + restart;
    assert Rolled(c, config, failure, stops, restart);
  }

  /** Marking a stale container for update commutes with the restarts booked so far. */
  lemma BookedMark(cs: seq<Container>, config: Config, done: set<string>, marked: map<string, State>,
                   states: map<string, State>, cleanup: seq<RemovedImageInfo>, sofar: seq<RemovedImageInfo>, id: string)
    requires Booked(cs, config, done, marked, states, cleanup, sofar) && id !in done
    ensures Booked(cs, config, done, if id in marked then marked[id := UpdatedState] else marked,
                   if id in states then states[id := UpdatedState] else states, cleanup, sofar)
  {
    hide Cleaned, Collects;
  }

  lemma NotDoneYet(cs: seq<Container>, i: nat, eligible: set<string>, failed: map<string, Failure>, done: set<string>)
    requires Distinct(IDs(cs)) && i < |cs| && Settled(cs, i, eligible, failed, done)
    ensures cs[i].id !in done
  {
    hide Position;
    PositionOf(cs, i);
  }

  lemma MarkNext(cs: seq<Container>, i: nat, before: map<string, State>)
    requires i < |cs|
    ensures var marked := WithState(before, StaleIDs(cs[..i]), UpdatedState);
            WithState(before, StaleIDs(cs[..i + 1]), UpdatedState) ==
            if cs[i].stale && cs[i].id in marked then marked[cs[i].id := UpdatedState] else marked
  {
    hide StaleIDs;
    StaleNext(cs, i);
  }

  lemma NoneMarked(cs: seq<Container>, before: map<string, State>)
    ensures WithState(before, StaleIDs(cs[..0]), UpdatedState) == before
  {
  }

  /** The books before position i of a rolling run: the stale containers reached are marked updated,
      then the restarts are booked. */
  ghost predicate RolledBooks(cs: seq<Container>, i: nat, config: Config, done: set<string>, before: map<string, State>,
                              after: map<string, State>, cleanup: seq<RemovedImageInfo>,
                              cleanup': seq<RemovedImageInfo>)
    requires i <= |cs|
    reads cs`stale
  {
    Booked(cs, config, done, WithState(before, StaleIDs(cs[..i]), UpdatedState), after, cleanup, cleanup')
  }

  lemma RolledBooksMark(cs: seq<Container>, i: nat, config: Config, done: set<string>, before: map<string, State>,
                        states: map<string, State>, cleanup: seq<RemovedImageInfo>, sofar: seq<RemovedImageInfo>)
    requires i < |cs| && cs[i].id !in done && states.Keys == before.Keys
    requires RolledBooks(cs, i, config, done, before, states, cleanup, sofar)
    ensures RolledBooks(cs, i + 1, config, done, before,
                        if cs[i].stale && cs[i].id in states then states[cs[i].id := UpdatedState] else states,
                        cleanup, sofar)
  {
    hide Booked, StaleIDs;
    MarkNext(cs, i, before);
    BookedMark(cs, config, done, WithState(before, StaleIDs(cs[..i]), UpdatedState), states, cleanup, sofar, cs[i].id);
  }

  lemma StateKeys(progress: Progress)
    ensures progress.States().Keys == progress.statuses.Keys
  {
  }

  /** Restarts the containers one after the other, first to last. reached counts those the run got to. */
  method PerformRollingRestart(cs: seq<Container>, client: Client, config: Config, cleanup: seq<RemovedImageInfo>,
                               progress: Progress)
    returns (failed: map<string, Failure>, canceled: bool, cleanup': seq<RemovedImageInfo>, ghost done: set<string>,
             ghost events: seq<Event>, ghost reached: nat)
    requires Distinct(IDs(cs)) && Keyed(progress.statuses) && Distinct(ImageIDs(cleanup))
    modifies client, Elements(cs)`chain, progress.statuses.Values
    ensures client.trace == old(client.trace) + events
    ensures RolledUpTo(cs, |cs|, config, RestartIDs(cs), failed, done, events)
    ensures RollVerdicts(cs, |cs|, config, failed, events, client.canceled) && (canceled ==> client.canceled)
    ensures reached <= |cs| && (!canceled ==> reached == |cs|)
    ensures forall k :: reached <= k < |cs| ==> cs[k].id in failed
    ensures RolledBooks(cs, reached, config, done, old(progress.States()), progress.States(), cleanup, cleanup')
  {
    hide RolledUpTo, IDs, RolledBooks, Cleans, ImageIDs, RestartIDs, Starts, RollVerdicts, RollStep, Distinct,
         Progress.States;
    failed, canceled, cleanup', done, events, reached := map[], false, cleanup, {}, [], 0;
    ghost var eligible := RestartIDs(cs);
    ghost var before := progress.States();
    StateKeys(progress);
    NothingRolled(cs, config, eligible);
    RolledBooksStart(cs, config, before, cleanup);
    for i := 0 to |cs|
      invariant client.trace == old(client.trace) + events && reached == i
      invariant RolledUpTo(cs, i, config, eligible, failed, done, events)
      invariant RollVerdicts(cs, i, config, failed, events, false)
      invariant Distinct(ImageIDs(cleanup'))
      invariant RolledBooks(cs, i, config, done, before, progress.States(), cleanup, cleanup')
    {
      canceled := client.Canceled();
      if canceled {
        failed := SkipRolled(cs, i, config, eligible, failed, done, events);
        return;
      }
      var c := cs[i];
      reached := i + 1;
      StateKeys(progress);
      RestartIDAt(cs, i);
      NotRolledYet(cs, i, config, eligible, failed, done, events);
      if !c.ToRestart() {
        RolledBooksMark(cs, i, config, done, before, progress.States(), cleanup, cleanup');
        RolledSkip(cs, i, config, eligible, failed, done, events);
        continue;
      }
      var failure;
      ghost var more;
      failure, cleanup', more := RollNext(cs, i, client, config, before, cleanup, done, cleanup', progress);
      RolledNext(cs, i, config, eligible, failed, done, events, failure, more);
      if failure.Some? {
        failed := failed[c.id := failure.value];
      } else {
        done := done + {c.id};
      }
      events := events + more;
    }
    if client.canceled {
      RollVerdictsLater(cs, config, failed, events);
    }
  }

  /** Marks, stops and restarts the container at position i and keeps the books. */
  method RollNext(cs: seq<Container>, i: nat, client: Client, config: Config, ghost before: map<string, State>,
                  ghost cleanup: seq<RemovedImageInfo>, ghost done: set<string>, sofar: seq<RemovedImageInfo>,
                  progress: Progress)
    returns (failure: Option<Failure>, cleanup': seq<RemovedImageInfo>, ghost events: seq<Event>)
    requires Distinct(IDs(cs)) && i < |cs| && Keyed(progress.statuses) && Distinct(ImageIDs(sofar))
    requires cs[i].id !in done && before.Keys == progress.statuses.Keys
    requires RolledBooks(cs, i, config, done, before, progress.States(), cleanup, sofar)
    modifies client`trace, {cs[i]}`chain, progress.statuses.Values
    ensures client.trace == old(client.trace) + events && RollStep(cs[i], config, failure, events)
    ensures Distinct(ImageIDs(cleanup'))
    ensures RolledBooks(cs, i + 1, config, if failure.Some? then done else done + {cs[i].id}, before,
                        progress.States(), cleanup, cleanup')
  {
    hide IDs, RolledBooks, Cleans, ImageIDs, Collects, Starts, Distinct, Elements, RollStep;
    RolledBooksMark(cs, i, config, done, before, progress.States(), cleanup, sofar);
    if cs[i].stale {
      progress.MarkForUpdate(cs[i].id);
    }
    ghost var states := progress.States();
    failure, cleanup', events := RollOne(cs[i], client, config, sofar, progress);
    RolledBooksNext(cs, i, config, done, before, states, cleanup, sofar, failure, progress.States(), cleanup');
  }

  lemma RolledBooksStart(cs: seq<Container>, config: Config, before: map<string, State>, cleanup: seq<RemovedImageInfo>)
    requires Distinct(ImageIDs(cleanup))
    ensures RolledBooks(cs, 0, config, {}, before, before, cleanup, cleanup)
  {
    NoneMarked(cs, before);
    BookedStart(cs, config, before, cleanup);
  }

  lemma RolledBooksNext(cs: seq<Container>, i: nat, config: Config, done: set<string>, before: map<string, State>,
                        states: map<string, State>, cleanup: seq<RemovedImageInfo>, sofar: seq<RemovedImageInfo>,
                        failure: Option<Failure>, after: map<string, State>, cleanup': seq<RemovedImageInfo>)
    requires Distinct(IDs(cs)) && i < |cs| && RolledBooks(cs, i + 1, config, done, before, states, cleanup, sofar)
    requires after ==
             if failure == None && !cs[i].stale && cs[i].id in states
             then states[cs[i].id := RestartedState]
             else states
    requires Collects(sofar, cleanup', if failure == None && Cleans(cs[i], config) then {InfoOf(cs[i])} else {})
    ensures RolledBooks(cs, i + 1, config, if failure.Some? then done else done + {cs[i].id}, before, after, cleanup,
                        cleanup')
  {
    hide Booked, IDs, Collects, Cleans, StaleIDs, WithState;
    var marked := WithState(before, StaleIDs(cs[..i + 1]), UpdatedState);
    if failure.Some? {
      SameImages(cs, config, done, marked, states, cleanup, sofar, cleanup');
    } else {
      BookedNext(cs, i, config, done, marked, states, cleanup, sofar, after, cleanup');
    }
  }

  lemma NotRolledYet(cs: seq<Container>, i: nat, config: Config, eligible: set<string>, failed: map<string, Failure>,
                     done: set<string>, events: seq<Event>)
    requires Distinct(IDs(cs)) && i < |cs| && RolledUpTo(cs, i, config, eligible, failed, done, events)
    ensures cs[i].id !in done
  {
    NotDoneYet(cs, i, eligible, failed, done);
  }

  /** One at a time: whatever happens to a container happens before anything happens to the next. */
  lemma OneAtATime(cs: seq<Container>, config: Config, failed: map<string, Failure>, done: set<string>,
                   events: seq<Event>, c: Container, d: Container)
    requires RolledUpTo(cs, |cs|, config, RestartIDs(cs), failed, done, events)
    requires Position(cs, c.id) < Position(cs, d.id)
    ensures forall p, q ::
              0 <= p < |events| && 0 <= q < |events| && events[p].id == c.id && events[q].id == d.id ==> p < q
  {
    hide Position, Settled, StopsAmong;
  }
}
