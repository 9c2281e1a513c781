/** Which containers an update can lose (internal/actions/update.go): with restarts off, a regular
    container that was removed is not started again, and its report does not say so. */
module Losses {
  import opened Text
  import opened Containers
  import opened Session
  import opened UpdateRun
  import opened StartPhase
  import opened RollingRestart
  import opened BatchRun
  import opened Execution

  /** Stopping the container is not refused beforehand. */
  predicate Stoppable(c: Container)
    reads c`linkedToRestarting
  {
    !c.linkedToRestarting || c.verifies
  }

  /** A regular container that a run may remove. */
  predicate Removable(c: Container)
    reads c`linkedToRestarting
  {
    !c.isWatchtower && Stoppable(c)
  }

  // ----- a run in which Docker refuses nothing

  /** What the failure-free steps of one container look like. */
  lemma SmoothRestart(c: Container, config: Config) returns (events: seq<Event>)
    ensures RestartStep(c, config, None, events)
  {
    events := (if Renames(c, config) then [Rename(c.id, true)] else [])
              + if Starts(c, config) then [Start(c.id, true)] else [];
    if Renames(c, config) {
      events := events + [ClearRestartPolicy(c.id, true)];
    }
  }

  lemma SmoothStop(c: Container, config: Config) returns (failure: Option<Failure>, events: seq<Event>)
    requires c.ToRestart()
    ensures StopStep(c, config, failure, events)
    ensures failure == if c.isWatchtower || Stoppable(c) then None else Some(VerifyConfigFailed)
    ensures Removable(c) ==> events == [Stop(c.id, Removed)]
  {
    if c.isWatchtower || Stoppable(c) {
      failure, events := None, if c.isWatchtower then [] else [Stop(c.id, Removed)];
    } else {
      failure, events := Some(VerifyConfigFailed), [];
    }
  }

  lemma SmoothStep(c: Container, config: Config) returns (failure: Option<Failure>, events: seq<Event>)
    requires c.ToRestart()
    ensures RollStep(c, config, failure, events)
    ensures Removable(c) ==> failure == None && Stop(c.id, Removed) in events
  {
    hide StopStep, RestartStep;
    var stops, restart;
    failure, stops := SmoothStop(c, config);
    if failure.None? {
      restart := SmoothRestart(c, config);
    } else {
      restart := [];
    }
    events := stops + restart;
    assert Rolled(c, config, failure, stops, restart);
  }

  /** Removable containers of this stretch were removed, without a failure. */
  ghost predicate AllRemoved(cs: seq<Container>, i: nat, j: nat, events: seq<Event>, failed: map<string, Failure>)
    reads cs`linkedToRestarting
  {
    forall k :: i <= k < j <= |cs| && Removable(cs[k]) ==> Stop(cs[k].id, Removed) in events && cs[k].id !in failed
  }

  lemma AllRemovedNext(cs: seq<Container>, i: nat, j: nat, n: nat, events: seq<Event>, failed: map<string, Failure>,
                       failure: Option<Failure>, more: seq<Event>)
    requires Distinct(IDs(cs)) && AllRemoved(cs, i, j, events, failed) && n < |cs| && (n == j || n + 1 == i)
    requires Removable(cs[n]) ==> failure == None && Stop(cs[n].id, Removed) in more && cs[n].id !in failed
    ensures AllRemoved(cs, if n == j then i else n, if n == j then j + 1 else j, events + more,
                       if failure.Some? then failed[cs[n].id := failure.value] else failed)
  {
    hide IDs;
    forall k | 0 <= k < |cs| && k != n ensures cs[k].id != cs[n].id {
      if cs[k].id == cs[n].id {
        SameIDSame(cs, k, n);
      }
    }
  }

  lemma {:induction false} SmoothRoll(cs: seq<Container>, i: nat, config: Config)
    returns (failed: map<string, Failure>, done: set<string>, events: seq<Event>)
    requires Distinct(IDs(cs)) && i <= |cs| && forall c :: c in cs ==> c.ToRestart()
    ensures RolledUpTo(cs, i, config, RestartIDs(cs), failed, done, events)
    ensures RollVerdicts(cs, i, config, failed, events, false) && AllRemoved(cs, 0, i, events, failed)
  {
    hide IDs, RolledUpTo, RollVerdicts, RollStep, RestartIDs, AllRemoved, Removable;
    if i == 0 {
      failed, done, events := map[], {}, [];
      NothingRolled(cs, config, RestartIDs(cs));
      NothingRemoved(cs, 0, events, failed);
    } else {
      var n := i - 1;
      failed, done, events := SmoothRoll(cs, n, config);
      var failure, more := SmoothStep(cs[n], config);
      RestartIDAt(cs, n);
      NotFailedYet(cs, n, config, failed, done, events);
      RolledNext(cs, n, config, RestartIDs(cs), failed, done, events, failure, more);
      AllRemovedNext(cs, 0, n, n, events, failed, failure, more);
      if failure.Some? {
        failed := failed[cs[n].id := failure.value];
      } else {
        done := done + {cs[n].id};
      }
      events := events + more;
    }
  }

  lemma NothingRemoved(cs: seq<Container>, i: nat, events: seq<Event>, failed: map<string, Failure>)
    ensures AllRemoved(cs, i, i, events, failed)
  {
  }

  lemma NotFailedYet(cs: seq<Container>, n: nat, config: Config, failed: map<string, Failure>, done: set<string>,
                     events: seq<Event>)
    requires Distinct(IDs(cs)) && n < |cs| && RolledUpTo(cs, n, config, RestartIDs(cs), failed, done, events)
    ensures cs[n].id !in failed
  {
    UntouchedYet(cs, n, config, RestartIDs(cs), failed, done, events);
  }

  lemma {:induction false} SmoothStops(cs: seq<Container>, i: nat, config: Config)
    returns (failed: map<string, Failure>, stopped: set<string>, events: seq<Event>)
    requires Distinct(IDs(cs)) && i <= |cs| && forall c :: c in cs ==> c.ToRestart()
    ensures StopsSettled(cs, i, failed, stopped, events) && StopVerdicts(cs, i, config, failed, events, false)
    ensures TowersStop(cs, failed, false) && AllRemoved(cs, i, |cs|, events, failed)
    decreases |cs| - i
  {
    hide IDs, StopsSettled, StopVerdicts, StopStep, TowersStop, AllRemoved, StoppedIDs;
    if i == |cs| {
      failed, stopped, events := map[], {}, [];
      NoStops(cs, config);
      NothingRemoved(cs, i, events, failed);
    } else {
      failed, stopped, events := SmoothStops(cs, i + 1, config);
      var failure, more := SmoothStop(cs[i], config);
      StopNotCanceled(cs[i], config, failure, more);
      UnstoppedYet(cs, i, failed, stopped, events);
      StopVerdictNext(cs, i, config, failed, stopped, events, failure, more, false);
      AllRemovedNext(cs, i + 1, |cs|, i, events, failed, failure, more);
      if failure.Some? {
        StopFails(cs, i, failed, stopped, events, failure.value, more);
        TowerNeverFails(cs, i, config, failed, failure, more);
        failed := failed[cs[i].id := failure.value];
      } else {
        StopSucceeds(cs, i, config, failed, stopped, events, more);
        stopped := stopped + {cs[i].id};
      }
      events := events + more;
    }
  }

  lemma NoStops(cs: seq<Container>, config: Config)
    ensures StopsSettled(cs, |cs|, map[], {}, []) && StopVerdicts(cs, |cs|, config, map[], [], false)
    ensures TowersStop(cs, map[], false)
  {
    NothingStopped(cs, config);
    assert StoppedIDs([]) == {};
  }

  lemma UnstoppedYet(cs: seq<Container>, i: nat, failed: map<string, Failure>, stopped: set<string>, events: seq<Event>)
    requires Distinct(IDs(cs)) && i < |cs| && StopsSettled(cs, i + 1, failed, stopped, events)
    ensures cs[i].id !in failed
  {
    VerdictNext(cs, i, failed, stopped, None);
  }

  lemma {:induction false} SmoothStarts(cs: seq<Container>, i: nat, config: Config, eligible: set<string>)
    returns (done: set<string>, events: seq<Event>)
    requires Distinct(IDs(cs)) && i <= |cs|
    ensures StartedUpTo(cs, i, config, eligible, map[], done, events)
    ensures StartVerdicts(cs, i, config, eligible, map[], events, false)
  {
    hide IDs, StartedUpTo, StartVerdicts, RestartStep;
    if i == 0 {
      done, events := {}, [];
      NothingStarted(cs, config, eligible);
    } else {
      done, events := SmoothStarts(cs, i - 1, config, eligible);
      if cs[i - 1].id in eligible {
        var more := SmoothRestart(cs[i - 1], config);
        StartedNext(cs, i - 1, config, eligible, map[], done, events, None, more);
        done, events := done + {cs[i - 1].id}, events + more;
      } else {
        StartedSkip(cs, i - 1, config, eligible, map[], done, events);
      }
    }
  }

  /** There is a run over the list in which every removable container is removed without a failure. */
  lemma SmoothRun(list: seq<Container>, config: Config) returns (events: seq<Event>, failed: set<string>)
    requires Distinct(IDs(list)) && forall c :: c in list ==> c.ToRestart()
    ensures Ran(list, config, events, failed, false)
    ensures forall c :: c in list && Removable(c) ==> Stop(c.id, Removed) in events && c.id !in failed
  {
    hide IDs, RolledUpTo, RollVerdicts, StopsSettled, StopVerdicts, StartedUpTo, StartVerdicts, TowersStop, Removable,
         EligibleIDs;
    if config.rollingRestart {
      var failures, done;
      failures, done, events := SmoothRoll(list, |list|, config);
      failed := failures.Keys;
      assert RanRolling(list, config, events, failed, false, failures, done);
    } else {
      var failures, stopped, stops := SmoothStops(list, 0, config);
      var done, starts := SmoothStarts(list, |list|, config, EligibleIDs(list, stopped, config));
      events, failed := stops + starts, failures.Keys;
      var none: map<string, Failure> := map[];
      assert failed == failures.Keys + none.Keys;
      assert RanBatch(list, config, events, failed, false, stopped, failures, none, done, stops, starts);
    }
  }

  // ----- the exact condition

  lemma RanLosses(list: seq<Container>, config: Config, events: seq<Event>, failed: set<string>, canceled: bool)
    requires Distinct(IDs(list)) && forall c :: c in list ==> c.ToRestart()
    requires Ran(list, config, events, failed, canceled)
    ensures LossesExplained(list, config, events, failed)
  {
    hide IDs, LossesExplained, RolledUpTo, RollVerdicts, BatchOutcome, StopVerdicts, StartVerdicts;
    if config.rollingRestart {
      var failures, done :| RanRolling(list, config, events, failed, canceled, failures, done);
      if !canceled {
        RollVerdictsLater(list, config, failures, events);
      }
      RollingLosses(list, config, failures, done, events);
    } else {
      var stopped, failedStop, failedStart, done, stops, starts :|
        RanBatch(list, config, events, failed, canceled, stopped, failedStop, failedStart, done, stops, starts);
      BatchLosses(list, config, stopped, failedStop, failedStart, done, stops, starts);
    }
  }

  /** A container that must not be stopped is recorded as failed. */
  lemma RefusedFails(list: seq<Container>, config: Config, events: seq<Event>, failed: set<string>, canceled: bool,
                     c: Container)
    requires Ran(list, config, events, failed, canceled) && c in list && c.ToRestart()
    requires !c.isWatchtower && !Stoppable(c)
    ensures c.id in failed
  {
    hide RolledUpTo, BatchOutcome, StartVerdicts, RestartStep;
    var k :| 0 <= k < |list| && list[k] == c;
    if config.rollingRestart {
      var failures, done :| RanRolling(list, config, events, failed, canceled, failures, done);
      assert RollVerdict(list[k], config, failures, events, canceled);
    } else {
      var stopped, failedStop, failedStart, done, stops, starts :|
        RanBatch(list, config, events, failed, canceled, stopped, failedStop, failedStart, done, stops, starts);
      assert StopVerdict(list[k], config, failedStop, stops, canceled);
    }
  }

  /** No run over the list can lose a container exactly if restarts are on or the list holds no
      container that a run may remove. */
  lemma NoLossIff(list: seq<Container>, config: Config)
    requires Distinct(IDs(list)) && forall c :: c in list ==> c.ToRestart()
    ensures (forall events, failed, canceled ::
               Ran(list, config, events, failed, canceled) ==> NoneLost(events, failed)) <==>
            !config.noRestart || forall c :: c in list ==> !Removable(c)
  {
    hide IDs, Ran, LossesExplained, Stoppable;
    if !config.noRestart || forall c :: c in list ==> !Removable(c) {
      forall events, failed, canceled | Ran(list, config, events, failed, canceled) ensures NoneLost(events, failed) {
        NothingToLose(list, config, events, failed, canceled);
      }
    } else {
      var c :| c in list && Removable(c);
      var events, failed := SmoothRun(list, config);
      RanLosses(list, config, events, failed, false);
      LosesRemoved(list, config, events, failed, c);
      assert !NoneLost(events, failed);
    }
  }

  lemma NothingToLose(list: seq<Container>, config: Config, events: seq<Event>, failed: set<string>, canceled: bool)
    requires Distinct(IDs(list)) && forall c :: c in list ==> c.ToRestart()
    requires !config.noRestart || forall c :: c in list ==> !Removable(c)
    requires Ran(list, config, events, failed, canceled)
    ensures NoneLost(events, failed)
  {
    hide IDs, Ran, Lost;
    RanLosses(list, config, events, failed, canceled);
    forall id ensures !Lost(events, failed, id) {
      if Lost(events, failed, id) {
        var c :| c in list && !c.isWatchtower && c.id == id;
        RefusedFails(list, config, events, failed, canceled, c);
      }
    }
  }

  lemma LosesRemoved(list: seq<Container>, config: Config, events: seq<Event>, failed: set<string>, c: Container)
    requires LossesExplained(list, config, events, failed) && config.noRestart
    requires c in list && !c.isWatchtower && Stop(c.id, Removed) in events && c.id !in failed
    ensures Lost(events, failed, c.id)
  {
    assert RegularID(list, c.id);
  }
}
