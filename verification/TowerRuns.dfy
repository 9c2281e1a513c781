/** What a run does to Watchtower instances (internal/actions/update.go): outside run-once mode one is
    renamed before its successor starts, and its image is left for the successor to clean up. */
module TowerRuns {
  import opened Text
  import opened Containers
  import opened Session
  import opened UpdateRun
  import opened StartPhase
  import opened RollingRestart
  import opened BatchRun
  import opened Execution

  // ----- the events of one container

  lemma {:induction false} EventsOfConcat(a: seq<Event>, b: seq<Event>, id: string)
    ensures EventsOf(a + b, id) == EventsOf(a, id) + EventsOf(b, id)
  {
    hide EventsOf;
    if b == [] {
      assert a + b == a;
      EventsOfOthers(b, id);
    } else {
      var n := |b| - 1;
      assert b == b[..n] + [b[n]] && a + b == (a + b[..n]) + [b[n]];
      EventsOfConcat(a, b[..n], id);
      EventsOfSnoc(a + b[..n], b[n], id);
      EventsOfSnoc(b[..n], b[n], id);
    }
  }

  /** What came before an event of the container, among the events of that container. */
  lemma OwnBefore(events: seq<Event>, p: nat) returns (rest: seq<Event>)
    requires p < |events|
    ensures EventsOf(events, events[p].id) == EventsOf(events[..p], events[p].id) + [events[p]] + rest
  {
    hide EventsOf;
    var id, earlier, later := events[p].id, events[..p], events[p + 1..];
    rest := EventsOf(later, id);
    SplitAt(events, p);
    EventsOfConcat(earlier + [events[p]], later, id);
    EventsOfSnoc(earlier, events[p], id);
  }

  lemma SplitAt(events: seq<Event>, p: nat)
    requires p < |events|
    ensures events == events[..p] + [events[p]] + events[p + 1..]
  {
  }

  /** The restart of the container, after its stop: nothing, or a step as specified. */
  ghost predicate Stepped(c: Container, config: Config, stops: seq<Event>, restart: seq<Event>) {
    && (forall e :: e in stops ==> e.Stop?) && (c.isWatchtower ==> stops == [])
    && (restart == [] || exists failure :: RestartStep(c, config, failure, restart))
  }

  lemma StepStopped(c: Container, config: Config, failure: Option<Failure>, stops: seq<Event>)
    requires StopStep(c, config, failure, stops)
    ensures Stepped(c, config, stops, [])
  {
  }

  lemma OwnInBatch(list: seq<Container>, config: Config, stopped: set<string>, failedStop: map<string, Failure>,
                   failedStart: map<string, Failure>, stops: seq<Event>, starts: seq<Event>, canceled: bool, k: nat)
    requires k < |list| && StopVerdicts(list, 0, config, failedStop, stops, canceled)
    requires StartVerdicts(list, |list|, config, EligibleIDs(list, stopped, config), failedStart, starts, canceled)
    ensures Stepped(list[k], config, EventsOf(stops, list[k].id), EventsOf(starts, list[k].id))
  {
    hide StopStep, RestartStep, EventsOf, EligibleIDs;
    var c := list[k];
    assert StopVerdict(c, config, failedStop, stops, canceled);
    assert StartVerdict(c, config, EligibleIDs(list, stopped, config), failedStart, starts, canceled);
    if EventsOf(stops, c.id) != [] {
      StepStopped(c, config, Reason(failedStop, c.id), EventsOf(stops, c.id));
    }
  }

  /** Whatever the mode, the events of a listed container are a stop and then a restart. */
  lemma OwnSteps(list: seq<Container>, config: Config, events: seq<Event>, failed: set<string>, canceled: bool,
                 c: Container) returns (stops: seq<Event>, restart: seq<Event>)
    requires Ran(list, config, events, failed, canceled) && c in list
    ensures EventsOf(events, c.id) == stops + restart && Stepped(c, config, stops, restart)
  {
    hide StopStep, RestartStep, EventsOf, BatchOutcome, RolledUpTo, Stepped, StopVerdicts, StartVerdicts;
    var k :| 0 <= k < |list| && list[k] == c;
    if config.rollingRestart {
      var failures, done :| RanRolling(list, config, events, failed, canceled, failures, done);
      assert RollVerdict(c, config, failures, events, canceled);
      stops, restart := OwnInRoll(c, config, failures, events, canceled);
    } else {
      var stopped, failedStop, failedStart, done, allStops, allStarts :|
        RanBatch(list, config, events, failed, canceled, stopped, failedStop, failedStart, done, allStops, allStarts);
      OwnInBatch(list, config, stopped, failedStop, failedStart, allStops, allStarts, canceled, k);
      EventsOfConcat(allStops, allStarts, c.id);
      stops, restart := EventsOf(allStops, c.id), EventsOf(allStarts, c.id);
    }
  }

  lemma OwnInRoll(c: Container, config: Config, failed: map<string, Failure>, events: seq<Event>, canceled: bool)
    returns (stops: seq<Event>, restart: seq<Event>)
    requires RollVerdict(c, config, failed, events, canceled)
    ensures EventsOf(events, c.id) == stops + restart && Stepped(c, config, stops, restart)
  {
    hide StopStep, RestartStep, EventsOf;
    var own := EventsOf(events, c.id);
    if own == [] {
      stops, restart := [], [];
    } else {
      stops, restart :| own == stops + restart && Rolled(c, config, Reason(failed, c.id), stops, restart);
      if StopStep(c, config, None, stops) {
        StepStopped(c, config, None, stops);
      } else {
        StepStopped(c, config, Reason(failed, c.id), stops);
      }
    }
  }

  // ----- Watchtower instances

  /** A Watchtower that is started outside run-once mode was renamed first; one that is renamed by a
      step starts its successor next, then either loses its restart policy or is stopped. */
  lemma TowerStep(c: Container, config: Config, stops: seq<Event>, restart: seq<Event>, j: nat)
    requires Stepped(c, config, stops, restart) && c.isWatchtower && !config.runOnce
    requires j < |stops + restart| && (stops + restart)[j].Start?
    ensures j > 0 && (stops + restart)[0] == Rename(c.id, true) && |stops + restart| == 3
    ensures (stops + restart)[j] == Start(c.id, true) ==> (stops + restart)[2].ClearRestartPolicy?
    ensures (stops + restart)[j] == Start(c.id, false) ==> (stops + restart)[2].Stop?
  {
    var failure :| RestartStep(c, config, failure, restart);
    assert stops + restart == restart;
  }

  lemma PlainStep(c: Container, config: Config, stops: seq<Event>, restart: seq<Event>, e: Event)
    requires Stepped(c, config, stops, restart) && (!c.isWatchtower || config.runOnce) && e in stops + restart
    ensures e.Stop? || e.Start?
  {
    if e in restart {
      var failure :| RestartStep(c, config, failure, restart);
    }
  }

  /** Outside run-once mode no start of a Watchtower comes without an earlier successful rename of it. */
  lemma RenamedFirst(list: seq<Container>, config: Config, events: seq<Event>, failed: set<string>, canceled: bool,
                     c: Container, p: nat)
    requires Ran(list, config, events, failed, canceled) && c in list && c.isWatchtower && !config.runOnce
    requires p < |events| && events[p].Start? && events[p].id == c.id
    ensures exists q :: 0 <= q < p && events[q] == Rename(c.id, true)
    ensures events[p].started ==> exists ok :: ClearRestartPolicy(c.id, ok) in events
    ensures !events[p].started ==> exists outcome :: Stop(c.id, outcome) in events
  {
    hide Ran, Stepped, EventsOf;
    var stops, restart := OwnSteps(list, config, events, failed, canceled, c);
    var own, before := EventsOf(events, c.id), EventsOf(events[..p], c.id);
    var rest := OwnBefore(events, p);
    assert own[|before|] == events[p];
    TowerStep(c, config, stops, restart, |before|);
    assert before[0] == own[0];
    OwnEvents(events[..p], c.id, own[0]);
    OwnEvents(events, c.id, own[2]);
    OwnID(events, c.id, own[2]);
  }

  lemma {:induction false} OwnID(events: seq<Event>, id: string, e: Event)
    requires e in EventsOf(events, id)
    ensures e.id == id
  {
    var n := |events| - 1;
    if e in EventsOf(events[..n], id) {
      OwnID(events[..n], id, e);
    }
  }

  /** Every event is about a listed container. */
  lemma EventListed(list: seq<Container>, config: Config, events: seq<Event>, failed: set<string>, canceled: bool,
                    e: Event) returns (c: Container)
    requires Ran(list, config, events, failed, canceled) && e in events
    ensures c in list && c.id == e.id
  {
    hide RollVerdicts, StopVerdicts, StartVerdicts, EligibleIDs, Climbs, Descends;
    assert Position(list, e.id) < |list| by {
      if config.rollingRestart {
        var failures, done :| RanRolling(list, config, events, failed, canceled, failures, done);
      } else {
        var stopped, failedStop, failedStart, done, stops, starts :|
          RanBatch(list, config, events, failed, canceled, stopped, failedStop, failedStart, done, stops, starts);
        assert e in stops || e in starts;
      }
    }
    c := list[Position(list, e.id)];
    assert IDs(list)[Position(list, e.id)] == e.id;
  }

  /** In run-once mode nothing is renamed, and in no mode anything but a Watchtower. */
  lemma OnlyTowersRenamed(list: seq<Container>, config: Config, events: seq<Event>, failed: set<string>,
                          canceled: bool, e: Event)
    requires Ran(list, config, events, failed, canceled) && e in events && (e.Rename? || e.ClearRestartPolicy?)
    ensures !config.runOnce && exists c :: c in list && c.isWatchtower && c.id == e.id
  {
    hide Ran, Stepped, EventsOf;
    var c := EventListed(list, config, events, failed, canceled, e);
    var stops, restart := OwnSteps(list, config, events, failed, canceled, c);
    OwnEvent(events, e);
    if !c.isWatchtower || config.runOnce {
      PlainStep(c, config, stops, restart, e);
    }
  }

  /** Once the current container is known, a batch run does not touch any other Watchtower instance. */
  lemma OtherTowersAlone(list: seq<Container>, config: Config, events: seq<Event>, failed: set<string>,
                         canceled: bool, c: Container)
    requires Ran(list, config, events, failed, canceled) && !config.rollingRestart && Distinct(IDs(list))
    requires c in list && c.isWatchtower && config.currentContainerID !in {"", c.id}
    ensures forall e :: e in events ==> e.id != c.id
  {
    hide BatchOutcome, EventsOf, RestartStep, IDs;
    var k :| 0 <= k < |list| && list[k] == c;
    var stopped, failedStop, failedStart, done, stops, starts :|
      RanBatch(list, config, events, failed, canceled, stopped, failedStop, failedStart, done, stops, starts);
    assert StopVerdict(c, config, failedStop, stops, canceled);
    assert StartVerdict(c, config, EligibleIDs(list, stopped, config), failedStart, starts, canceled);
    EligibleAt(list, k, stopped, config);
    EventsOfConcat(stops, starts, c.id);
    forall e | e in events ensures e.id != c.id {
      if e.id == c.id {
        OwnEvent(events, e);
      }
    }
  }

  /** The cleanup entries are those of the stale containers that are back, Watchtower instances only in
      run-once mode. */
  lemma CleanupEntries(list: seq<Container>, config: Config, events: seq<Event>, failed: set<string>,
                       info: RemovedImageInfo)
    ensures info in BackInfos(list, config, events, failed) <==>
            exists c :: c in list && c.stale && (c.isWatchtower ==> config.runOnce)
                        && Back(c, config, events, failed) && info == RemovedImageInfo(c.imageID, c.id, c.name)
  {
    hide Back;
  }

  /** Outside run-once mode no Watchtower's image is handed over for cleanup on its account. */
  lemma TowersNotCleaned(list: seq<Container>, config: Config, events: seq<Event>, failed: set<string>,
                         cleanup: seq<RemovedImageInfo>, c: Container)
    requires Distinct(IDs(list)) && Collects([], cleanup, BackInfos(list, config, events, failed))
    requires c in list && c.isWatchtower && !config.runOnce
    ensures forall info :: info in cleanup ==> info.containerID != c.id
  {
    hide Back, BackInfos, IDs;
    forall info | info in cleanup ensures info.containerID != c.id {
      CleanupEntries(list, config, events, failed, info);
      var d :| d in list && (d.isWatchtower ==> config.runOnce) && info == RemovedImageInfo(d.imageID, d.id, d.name);
      if d.id == c.id {
        ContainerOfID(list, c, d);
      }
    }
  }
}
