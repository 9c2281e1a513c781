/** The start phase of an update (internal/actions/update.go): the stopped containers come back
    in dependency order, each outcome entered in the progress. */
module StartPhase {
  import opened Text
  import opened Containers
  import opened Session
  import opened UpdateRun

  /** Watchtower instances restart unless they are another instance than the current one;
      other containers restart when they were stopped. */
  predicate Eligible(c: Container, stopped: set<string>, config: Config) {
    if c.isWatchtower then config.currentContainerID == "" || c.id == config.currentContainerID else c.id in stopped
  }

  function ImageIDs(infos: seq<RemovedImageInfo>): seq<string> {
    seq(|infos|, i requires 0 <= i < |infos| => infos[i].imageID)
  }

  ghost function ImagesOf(infos: set<RemovedImageInfo>): set<string> {
    set info | info in infos :: info.imageID
  }

  /** The list grew by one entry for each image of these that it did not have yet. */
  ghost predicate Collects(before: seq<RemovedImageInfo>, after: seq<RemovedImageInfo>, infos: set<RemovedImageInfo>) {
    && before <= after && Distinct(ImageIDs(after))
    && Elements(ImageIDs(after)) == Elements(ImageIDs(before)) + ImagesOf(infos)
    && forall info :: info in after ==> info in before || info in infos
  }

  lemma CollectsNothing(list: seq<RemovedImageInfo>)
    requires Distinct(ImageIDs(list))
    ensures Collects(list, list, {})
  {
  }

  lemma CollectsMore(a: seq<RemovedImageInfo>, b: seq<RemovedImageInfo>, c: seq<RemovedImageInfo>,
                     infos: set<RemovedImageInfo>, more: set<RemovedImageInfo>)
    requires Collects(a, b, infos) && Collects(b, c, more)
    ensures Collects(a, c, infos + more)
  {
    hide ImageIDs, Elements;
    assert ImagesOf(infos + more) == ImagesOf(infos) + ImagesOf(more);
  }

  /** The cleanup entry of a container. */
  function InfoOf(c: Container): RemovedImageInfo {
    RemovedImageInfo(c.imageID, c.id, c.name)
  }

  /** Keeps the first entry for an image. */
  method AddCleanupImageInfo(infos: seq<RemovedImageInfo>,
                             info: RemovedImageInfo) returns (infos': seq<RemovedImageInfo>)
    requires Distinct(ImageIDs(infos))
    ensures Collects(infos, infos', {info})
  {
    assert ImagesOf({info}) == {info.imageID};
    for i := 0 to |infos|
      invariant forall k :: 0 <= k < i ==> infos[k].imageID != info.imageID
    {
      if infos[i].imageID == info.imageID {
        assert ImageIDs(infos)[i] in Elements(ImageIDs(infos));
        assert Elements(ImageIDs(infos)) + {info.imageID} == Elements(ImageIDs(infos));
        return infos;
      }
    }
    infos' := infos + [info];
    assert ImageIDs(infos') == ImageIDs(infos) + [info.imageID];
  }

  /** The image is to be cleaned up: that of a stale container that restarted without a rename. */
  predicate Cleans(c: Container, config: Config)
    reads c`stale
  {
    c.stale && !Renames(c, config)
  }

  /** Notes the ID of the new container; only a container that was not stale counts as restarted. */
  method RecordRestart(c: Container, newID: string, progress: Progress)
    requires Keyed(progress.statuses)
    modifies progress.statuses.Values
    ensures progress.States() == if !c.stale && c.id in progress.statuses
                                 then old(progress.States())[c.id := RestartedState] else old(progress.States())
  {
    if c.id in progress.statuses {
      progress.statuses[c.id].newContainerID := newID;
      assert progress.States() == old(progress.States());
      if !c.stale {
        progress.MarkRestarted(c.id);
      }
    }
  }

  /** Restarts one container and records the outcome in the progress and the cleanup list. */
  method RestartAndRecord(c: Container, client: Client, config: Config, cleanup: seq<RemovedImageInfo>,
                          progress: Progress)
    returns (failure: Option<Failure>, cleanup': seq<RemovedImageInfo>, ghost events: seq<Event>)
    requires Keyed(progress.statuses) && Distinct(ImageIDs(cleanup))
    modifies client`trace, c`chain, progress.statuses.Values
    ensures client.trace == old(client.trace) + events
    ensures RestartStep(c, config, failure, events)
    ensures progress.States() == if failure == None && !c.stale && c.id in progress.statuses
                                 then old(progress.States())[c.id := RestartedState] else old(progress.States())
    ensures Distinct(ImageIDs(cleanup'))
    ensures Collects(cleanup, cleanup', if failure == None && Cleans(c, config) then {InfoOf(c)} else {})
  {
    hide RestartStep, ImageIDs, Keyed, Progress.States;
    CollectsNothing(cleanup);
    var newID, renamed;
    newID, renamed, failure, events := RestartStaleContainer(c, client, config);
    cleanup' := cleanup;
    if failure.Some? {
      return;
    }
    RecordRestart(c, newID, progress);
    if c.stale && !renamed {
      cleanup' := AddCleanupImageInfo(cleanup, InfoOf(c));
    }
  }

  /** The containers that are to restart in this phase. */
  ghost function EligibleIDs(cs: seq<Container>, stopped: set<string>, config: Config): set<string>
    reads cs`stale, cs`linkedToRestarting
  {
    set c | c in cs && c.ToRestart() && Eligible(c, stopped, config) :: c.id
  }

  lemma EligibleAt(cs: seq<Container>, i: nat, stopped: set<string>, config: Config)
    requires Distinct(IDs(cs)) && i < |cs|
    ensures cs[i].id in EligibleIDs(cs, stopped, config) <==> cs[i].ToRestart() && Eligible(cs[i], stopped, config)
  {
    hide Eligible, IDs;
    if cs[i].id in EligibleIDs(cs, stopped, config) {
      var c :| c in cs && c.ToRestart() && Eligible(c, stopped, config) && c.id == cs[i].id;
      var k :| 0 <= k < |cs| && cs[k] == c;
      SameIDSame(cs, k, i);
    }
  }

  /** Containers before position i are settled: every eligible one restarted or failed, and only
      eligible ones restarted. */
  ghost predicate Settled(cs: seq<Container>, i: nat, eligible: set<string>, failed: map<string, Failure>,
                          done: set<string>) {
    && (forall id :: id in failed || id in done ==> Position(cs, id) < i)
    && failed.Keys !! done
    && (forall k :: 0 <= k < i <= |cs| && cs[k].id in eligible ==> cs[k].id in failed || cs[k].id in done)
    && done <= eligible
  }

  /** The start requests that succeeded are those of the restarted containers. */
  ghost predicate StartsMatch(cs: seq<Container>, i: nat, config: Config, done: set<string>, events: seq<Event>) {
    && (forall e :: e in events ==> Position(cs, e.id) < i)
    && (forall k :: 0 <= k < i <= |cs| ==>
          (Start(cs[k].id, true) in events <==> cs[k].id in done && Starts(cs[k], config)))
    && Climbs(cs, events)
  }

  /** Stop requests concern these containers only. */
  ghost predicate StopsAmong(events: seq<Event>, ids: set<string>) {
    forall e :: e in events && e.Stop? ==> e.id in ids
  }

  lemma SettledNext(cs: seq<Container>, i: nat, eligible: set<string>, failed: map<string, Failure>,
                    done: set<string>, failure: Option<Failure>)
    requires Distinct(IDs(cs)) && i < |cs| && Settled(cs, i, eligible, failed, done)
    requires failure == None ==> cs[i].id in eligible
    ensures cs[i].id !in failed && cs[i].id !in done
    ensures if failure.Some? then Settled(cs, i + 1, eligible, failed[cs[i].id := failure.value], done)
            else Settled(cs, i + 1, eligible, failed, done + {cs[i].id})
  {
    hide Position;
    PositionOf(cs, i);
    forall k | 0 <= k < i ensures cs[k].id != cs[i].id {
      PositionOf(cs, k);
    }
  }

  lemma SettledSkip(cs: seq<Container>, i: nat, eligible: set<string>, failed: map<string, Failure>, done: set<string>)
    requires Distinct(IDs(cs)) && i < |cs| && Settled(cs, i, eligible, failed, done) && cs[i].id !in eligible
    ensures Settled(cs, i + 1, eligible, failed, done)
    ensures cs[i].id !in done
  {
    hide Position;
    PositionOf(cs, i);
  }

  lemma ClimbsNext(cs: seq<Container>, events: seq<Event>, i: nat, more: seq<Event>)
    requires Climbs(cs, events)
    requires forall e :: e in events ==> Position(cs, e.id) < i
    requires forall e :: e in more ==> Position(cs, e.id) == i
    ensures Climbs(cs, events + more)
  {
    hide Position;
    var longer := events + more;
    forall p, q | 0 <= p < q < |longer| ensures Position(cs, longer[p].id) <= Position(cs, longer[q].id) {
      assert longer[p] in if p < |events| then events else more;
      assert longer[q] in if q < |events| then events else more;
    }
  }

  /** All events of one restart are about its container; the outcome shows in them. */
  lemma RestartStepEvents(c: Container, config: Config, failure: Option<Failure>, events: seq<Event>)
    requires RestartStep(c, config, failure, events)
    ensures forall e :: e in events ==> e.id == c.id
    ensures Start(c.id, true) in events <==> failure == None && Starts(c, config)
    ensures forall e :: e in events && e.Stop? ==> failure.Some? && c.isWatchtower
  {
  }

  lemma StartsMatchNext(cs: seq<Container>, i: nat, config: Config, done: set<string>, events: seq<Event>,
                        failure: Option<Failure>, more: seq<Event>)
    requires Distinct(IDs(cs)) && i < |cs| && StartsMatch(cs, i, config, done, events)
    requires cs[i].id !in done && (forall e :: e in more ==> e.id == cs[i].id)
    requires Start(cs[i].id, true) in more <==> failure == None && Starts(cs[i], config)
    ensures StartsMatch(cs, i + 1, config, if failure.Some? then done else done + {cs[i].id}, events + more)
  {
    hide Position, Starts, Climbs;
    PositionOf(cs, i);
    ClimbsNext(cs, events, i, more);
    assert forall e :: e in events + more <==> e in events || e in more;
    forall k | 0 <= k < i ensures cs[k].id != cs[i].id {
      PositionOf(cs, k);
    }
    assert Start(cs[i].id, true) !in events;
  }

  lemma StartsMatchSkip(cs: seq<Container>, i: nat, config: Config, done: set<string>, events: seq<Event>)
    requires Distinct(IDs(cs)) && i < |cs| && StartsMatch(cs, i, config, done, events) && cs[i].id !in done
    ensures StartsMatch(cs, i + 1, config, done, events)
  {
    hide Position, Starts, Climbs;
    PositionOf(cs, i);
    assert Start(cs[i].id, true) !in events;
  }

  ghost function NonStaleDone(cs: seq<Container>, done: set<string>): set<string>
    reads cs`stale
  {
    set c | c in cs && c.id in done && !c.stale :: c.id
  }

  ghost function Cleaned(cs: seq<Container>, done: set<string>, config: Config): set<RemovedImageInfo>
    reads cs`stale
  {
    set c | c in cs && c.id in done && Cleans(c, config) :: InfoOf(c)
  }

  function WithState(states: map<string, State>, ids: set<string>, state: State): map<string, State> {
    map id | id in states :: if id in ids then state else states[id]
  }

  lemma DoneNext(cs: seq<Container>, i: nat, done: set<string>, config: Config)
    requires Distinct(IDs(cs)) && i < |cs|
    ensures var c := cs[i];
            && NonStaleDone(cs, done + {c.id}) == NonStaleDone(cs, done) + (if c.stale then {} else {c.id})
            && Cleaned(cs, done + {c.id}, config) ==
               Cleaned(cs, done, config) + if Cleans(c, config) then {InfoOf(c)} else {}
  {
    hide IDs;
    forall d | d in cs && d.id == cs[i].id ensures d == cs[i] {
      var k :| 0 <= k < |cs| && cs[k] == d;
      SameIDSame(cs, k, i);
    }
  }

  lemma SameIDSame(cs: seq<Container>, k: nat, i: nat)
    requires Distinct(IDs(cs)) && k < |cs| && i < |cs| && cs[k].id == cs[i].id
    ensures k == i
  {
    assert IDs(cs)[k] == IDs(cs)[i];
  }

  /** The containers between two positions are recorded as canceled, those before as they were. */
  ghost predicate RestCanceled(cs: seq<Container>, n: nat, j: nat, failed: map<string, Failure>,
                               failed': map<string, Failure>) {
    && (forall k :: 0 <= k < n <= |cs| ==> Reason(failed', cs[k].id) == Reason(failed, cs[k].id))
    && (forall k :: n <= k < j <= |cs| ==> Reason(failed', cs[k].id) == Some(Canceled))
  }

  lemma NoneCanceled(cs: seq<Container>, n: nat, failed: map<string, Failure>)
    ensures RestCanceled(cs, n, n, failed, failed)
  {
  }

  lemma RestCanceledNext(cs: seq<Container>, n: nat, j: nat, failed: map<string, Failure>,
                         failed': map<string, Failure>)
    requires Distinct(IDs(cs)) && n <= j < |cs| && RestCanceled(cs, n, j, failed, failed')
    ensures RestCanceled(cs, n, j + 1, failed, failed'[cs[j].id := Canceled])
  {
    hide IDs;
    forall k | 0 <= k < j ensures cs[k].id != cs[j].id {
      if cs[k].id == cs[j].id {
        SameIDSame(cs, k, j);
      }
    }
  }

  /** The containers from position n on that were not reached are all recorded as failed. */
  method SkipRestarts(cs: seq<Container>, n: nat, config: Config, ghost eligible: set<string>,
                      failed: map<string, Failure>, ghost done: set<string>, ghost events: seq<Event>)
    returns (failed': map<string, Failure>)
    requires Distinct(IDs(cs)) && n <= |cs|
    requires Settled(cs, n, eligible, failed, done) && StartsMatch(cs, n, config, done, events)
    ensures Settled(cs, |cs|, eligible, failed', done) && StartsMatch(cs, |cs|, config, done, events)
    ensures failed.Keys <= failed'.Keys && RestCanceled(cs, n, |cs|, failed, failed')
  {
    hide Settled, StartsMatch, IDs, RestCanceled;
    failed' := failed;
    NoneCanceled(cs, n, failed);
    for j := n to |cs|
      invariant Settled(cs, j, eligible, failed', done) && StartsMatch(cs, j, config, done, events)
      invariant failed.Keys <= failed'.Keys && RestCanceled(cs, n, j, failed, failed')
    {
      RestCanceledNext(cs, n, j, failed, failed');
      SettledNext(cs, j, eligible, failed', done, Some(Canceled));
      StartsMatchSkip(cs, j, config, done, events);
      failed' := failed'[cs[j].id := Canceled];
    }
  }

  lemma NothingRestarted(cs: seq<Container>, config: Config, eligible: set<string>)
    ensures Settled(cs, 0, eligible, map[], {}) && StartsMatch(cs, 0, config, {}, [])
    ensures StopsAmong([], {})
  {
  }

  lemma StopsAmongNext(events: seq<Event>, more: seq<Event>, ids: set<string>, ids': set<string>)
    requires StopsAmong(events, ids) && StopsAmong(more, ids') && ids <= ids'
    ensures StopsAmong(events + more, ids')
  {
  }

  /** The books after the containers in done restarted: the non-stale ones show as restarted, and
      the images to clean up are collected once each. */
  ghost predicate Booked(cs: seq<Container>, config: Config, done: set<string>, before: map<string, State>,
                         after: map<string, State>, cleanup: seq<RemovedImageInfo>, cleanup': seq<RemovedImageInfo>)
    reads cs`stale
  {
    && after == WithState(before, NonStaleDone(cs, done), RestartedState)
    && Collects(cleanup, cleanup', Cleaned(cs, done, config))
  }

  lemma BookedStart(cs: seq<Container>, config: Config, before: map<string, State>, cleanup: seq<RemovedImageInfo>)
    requires Distinct(ImageIDs(cleanup))
    ensures Booked(cs, config, {}, before, before, cleanup, cleanup)
  {
    CollectsNothing(cleanup);
    assert NonStaleDone(cs, {}) == {} && Cleaned(cs, {}, config) == {};
    assert WithState(before, {}, RestartedState) == before;
  }

  lemma BookedNext(cs: seq<Container>, i: nat, config: Config, done: set<string>, before: map<string, State>,
                   states: map<string, State>, cleanup: seq<RemovedImageInfo>, sofar: seq<RemovedImageInfo>,
                   after: map<string, State>, cleanup': seq<RemovedImageInfo>)
    requires Distinct(IDs(cs)) && i < |cs| && Booked(cs, config, done, before, states, cleanup, sofar)
    requires after == if !cs[i].stale && cs[i].id in states then states[cs[i].id := RestartedState] else states
    requires Collects(sofar, cleanup', if Cleans(cs[i], config) then {InfoOf(cs[i])} else {})
    ensures Booked(cs, config, done + {cs[i].id}, before, after, cleanup, cleanup')
  {
    hide NonStaleDone, Cleaned, Cleans, IDs, Collects;
    CollectsMore(cleanup, sofar, cleanup', Cleaned(cs, done, config),
                 if Cleans(cs[i], config) then {InfoOf(cs[i])} else {});
    DoneNext(cs, i, done, config);
  }

  method WasStopped(stopped: seq<RemovedImageInfo>, id: string) returns (wasStopped: bool)
    ensures wasStopped <==> id in StoppedIDs(stopped)
  {
    for i := 0 to |stopped|
      invariant forall k :: 0 <= k < i ==> stopped[k].containerID != id
    {
      if stopped[i].containerID == id {
        assert stopped[i] in stopped;
        return true;
      }
    }
    wasStopped := false;
  }

  /** The start phase stands before position i. */
  ghost predicate StartedUpTo(cs: seq<Container>, i: nat, config: Config, eligible: set<string>,
                              failed: map<string, Failure>, done: set<string>, events: seq<Event>)
  {
    && Settled(cs, i, eligible, failed, done)
    && StartsMatch(cs, i, config, done, events)
    && StopsAmong(events, failed.Keys)
    && OnlyTowersStop(cs, events)
  }

  /** No regular container is asked to stop here. */
  ghost predicate OnlyTowersStop(cs: seq<Container>, events: seq<Event>) {
    forall c, o :: c in cs && !c.isWatchtower ==> Stop(c.id, o) !in events
  }

  lemma OnlyTowersStopNext(cs: seq<Container>, i: nat, config: Config, failure: Option<Failure>, events: seq<Event>,
                           more: seq<Event>)
    requires Distinct(IDs(cs)) && i < |cs| && OnlyTowersStop(cs, events) && RestartStep(cs[i], config, failure, more)
    ensures OnlyTowersStop(cs, events + more)
  {
    hide IDs;
    RestartStepEvents(cs[i], config, failure, more);
    forall c, o | c in cs && !c.isWatchtower ensures Stop(c.id, o) !in more {
      if c.id == cs[i].id {
        var k :| 0 <= k < |cs| && cs[k] == c;
        SameIDSame(cs, k, i);
      }
    }
  }

  lemma StartedSkip(cs: seq<Container>, i: nat, config: Config, eligible: set<string>, failed: map<string, Failure>,
                    done: set<string>, events: seq<Event>)
    requires Distinct(IDs(cs)) && i < |cs| && StartedUpTo(cs, i, config, eligible, failed, done, events)
    requires cs[i].id !in eligible && StartVerdicts(cs, i, config, eligible, failed, events, false)
    ensures StartedUpTo(cs, i + 1, config, eligible, failed, done, events)
    ensures StartVerdicts(cs, i + 1, config, eligible, failed, events, false)
  {
    hide Settled, StartsMatch, IDs, StartVerdicts;
    StartVerdictNext(cs, i, config, eligible, failed, done, events, None, []);
    assert events + [] == events;
    SettledSkip(cs, i, eligible, failed, done);
    StartsMatchSkip(cs, i, config, done, events);
  }

  lemma StartedNext(cs: seq<Container>, i: nat, config: Config, eligible: set<string>, failed: map<string, Failure>,
                    done: set<string>, events: seq<Event>, failure: Option<Failure>, more: seq<Event>)
    requires Distinct(IDs(cs)) && i < |cs| && StartedUpTo(cs, i, config, eligible, failed, done, events)
    requires cs[i].id in eligible && RestartStep(cs[i], config, failure, more)
    requires StartVerdicts(cs, i, config, eligible, failed, events, false)
    ensures cs[i].id !in done
    ensures StartVerdicts(cs, i + 1, config, eligible,
                          if failure.Some? then failed[cs[i].id := failure.value] else failed, events + more, false)
    ensures if failure.Some? then StartedUpTo(cs, i + 1, config, eligible, failed[cs[i].id := failure.value], done,
                                              events + more)
            else StartedUpTo(cs, i + 1, config, eligible, failed, done + {cs[i].id}, events + more)
  {
    hide Settled, StartsMatch, IDs, RestartStep, Starts, OnlyTowersStop, StartVerdicts;
    StartVerdictNext(cs, i, config, eligible, failed, done, events, failure, more);
    OnlyTowersStopNext(cs, i, config, failure, events, more);
    SettledNext(cs, i, eligible, failed, done, failure);
    RestartStepEvents(cs[i], config, failure, more);
    StartsMatchNext(cs, i, config, done, events, failure, more);
    StopsAmongNext(events, more, failed.Keys, if failure.Some? then failed.Keys + {cs[i].id} else failed.Keys);
  }

  /** Everything the start phase did to one container fits the verdict on it; only a cancellation
      leaves an eligible container without a restart. */
  ghost predicate StartVerdict(c: Container, config: Config, eligible: set<string>, failed: map<string, Failure>,
                               events: seq<Event>, canceled: bool) {
    if Reason(failed, c.id) == Some(Canceled) then canceled && EventsOf(events, c.id) == []
    else if c.id in eligible then RestartStep(c, config, Reason(failed, c.id), EventsOf(events, c.id))
    else c.id !in failed && EventsOf(events, c.id) == []
  }

  ghost predicate StartVerdicts(cs: seq<Container>, i: nat, config: Config, eligible: set<string>,
                                failed: map<string, Failure>, events: seq<Event>, canceled: bool) {
    forall k :: 0 <= k < i <= |cs| ==> StartVerdict(cs[k], config, eligible, failed, events, canceled)
  }

  /** Nothing has happened yet to the container at position i. */
  lemma UntouchedYet(cs: seq<Container>, i: nat, config: Config, eligible: set<string>, failed: map<string, Failure>,
                     done: set<string>, events: seq<Event>)
    requires Distinct(IDs(cs)) && i < |cs|
    requires Settled(cs, i, eligible, failed, done) && StartsMatch(cs, i, config, done, events)
    ensures cs[i].id !in failed && EventsOf(events, cs[i].id) == []
    ensures forall k :: 0 <= k < |cs| && k != i ==> cs[k].id != cs[i].id
  {
    hide Position, Climbs;
    PositionOf(cs, i);
    EventsOfOthers(events, cs[i].id);
    forall k | 0 <= k < |cs| && k != i ensures cs[k].id != cs[i].id {
      assert IDs(cs)[k] != IDs(cs)[i];
    }
  }

  lemma StartVerdictNext(cs: seq<Container>, i: nat, config: Config, eligible: set<string>,
                         failed: map<string, Failure>,
                         done: set<string>, events: seq<Event>, failure: Option<Failure>, more: seq<Event>)
    requires Distinct(IDs(cs)) && i < |cs|
    requires Settled(cs, i, eligible, failed, done) && StartsMatch(cs, i, config, done, events)
    requires StartVerdicts(cs, i, config, eligible, failed, events, false)
    requires if cs[i].id in eligible then RestartStep(cs[i], config, failure, more) else failure == None && more == []
    ensures StartVerdicts(cs, i + 1, config, eligible,
                          if failure.Some? then failed[cs[i].id := failure.value] else failed, events + more, false)
  {
    hide Settled, StartsMatch, IDs, RestartStep;
    var id, failed' := cs[i].id, if failure.Some? then failed[cs[i].id := failure.value] else failed;
    UntouchedYet(cs, i, config, eligible, failed, done, events);
    if id in eligible {
      RestartStepEvents(cs[i], config, failure, more);
      RestartNotCanceled(cs[i], config, failure, more);
    }
    forall k | 0 <= k < i + 1 ensures StartVerdict(cs[k], config, eligible, failed', events + more, false) {
      EventsOfNext(events, more, id, cs[k].id);
      if k == i {
        assert [] + more == more && Reason(failed', id) == failure;
      } else {
        assert StartVerdict(cs[k], config, eligible, failed, events, false);
        assert EventsOf(events + more, cs[k].id) == EventsOf(events, cs[k].id);
      }
    }
  }

  lemma RestartNotCanceled(c: Container, config: Config, failure: Option<Failure>, events: seq<Event>)
    requires RestartStep(c, config, failure, events)
    ensures failure != Some(Canceled)
  {
  }

  lemma {:induction false} NoEventsFrom(cs: seq<Container>, n: nat, config: Config, done: set<string>,
                                        events: seq<Event>, k: nat)
    requires Distinct(IDs(cs)) && n <= k < |cs| && StartsMatch(cs, n, config, done, events)
    ensures EventsOf(events, cs[k].id) == []
  {
    hide Position, Climbs;
    PositionOf(cs, k);
    EventsOfOthers(events, cs[k].id);
  }

  /** The containers not reached are excused by the cancellation. */
  lemma StartVerdictsSkip(cs: seq<Container>, n: nat, config: Config, eligible: set<string>,
                          failed: map<string, Failure>,
                          failed': map<string, Failure>, done: set<string>, events: seq<Event>)
    requires Distinct(IDs(cs)) && n <= |cs| && StartsMatch(cs, n, config, done, events)
    requires StartVerdicts(cs, n, config, eligible, failed, events, false) && RestCanceled(cs, n, |cs|, failed, failed')
    ensures StartVerdicts(cs, |cs|, config, eligible, failed', events, true)
  {
    hide StartsMatch, IDs, RestartStep;
    forall k | 0 <= k < |cs| ensures StartVerdict(cs[k], config, eligible, failed', events, true) {
      if k < n {
        assert StartVerdict(cs[k], config, eligible, failed, events, false);
      } else {
        NoEventsFrom(cs, n, config, done, events, k);
      }
    }
  }

  lemma StartVerdictsLater(cs: seq<Container>, config: Config, eligible: set<string>, failed: map<string, Failure>,
                           events: seq<Event>)
    requires StartVerdicts(cs, |cs|, config, eligible, failed, events, false)
    ensures StartVerdicts(cs, |cs|, config, eligible, failed, events, true)
  {
    hide RestartStep;
    forall k | 0 <= k < |cs| ensures StartVerdict(cs[k], config, eligible, failed, events, true) {
      assert StartVerdict(cs[k], config, eligible, failed, events, false);
    }
  }

  /** Restarts the eligible containers first to last. */
  method RestartContainersInSortedOrder(cs: seq<Container>, client: Client, config: Config,
                                        stopped: seq<RemovedImageInfo>, cleanup: seq<RemovedImageInfo>,
                                        progress: Progress)
    returns (failed: map<string, Failure>, cleanup': seq<RemovedImageInfo>, ghost done: set<string>,
             ghost events: seq<Event>)
    requires Distinct(IDs(cs)) && Keyed(progress.statuses) && Distinct(ImageIDs(cleanup))
    modifies client, Elements(cs)`chain, progress.statuses.Values
    ensures client.trace == old(client.trace) + events
    ensures StartedUpTo(cs, |cs|, config, EligibleIDs(cs, StoppedIDs(stopped), config), failed, done, events)
    ensures StartVerdicts(cs, |cs|, config, EligibleIDs(cs, StoppedIDs(stopped), config), failed, events,
                          client.canceled)
    ensures old(client.canceled) ==> client.canceled && done == {}
    ensures Booked(cs, config, done, old(progress.States()), progress.States(), cleanup, cleanup')
  {
    hide StartedUpTo, IDs, RestartStep, Booked, StoppedIDs, Cleans, ImageIDs, EligibleIDs, Progress.States,
         StartVerdicts, Distinct;
    failed, cleanup', done, events := map[], cleanup, {}, [];
    ghost var eligible := EligibleIDs(cs, StoppedIDs(stopped), config);
    NothingStarted(cs, config, eligible);
    BookedStart(cs, config, progress.States(), cleanup);
    for i := 0 to |cs|
      invariant client.trace == old(client.trace) + events && (old(client.canceled) ==> client.canceled && done == {})
      invariant StartedUpTo(cs, i, config, eligible, failed, done, events)
      invariant StartVerdicts(cs, i, config, eligible, failed, events, false)
      invariant Distinct(ImageIDs(cleanup'))
      invariant Booked(cs, config, done, old(progress.States()), progress.States(), cleanup, cleanup')
    {
      var c := cs[i];
      EligibleAt(cs, i, StoppedIDs(stopped), config);
      var canceled := client.Canceled();
      if canceled {
        failed := SkipStarts(cs, i, config, eligible, failed, done, events);
        return;
      }
      if !c.ToRestart() {
        StartedSkip(cs, i, config, eligible, failed, done, events);
        continue;
      }
      var wasStopped := WasStopped(stopped, c.id);
      if c.isWatchtower && config.currentContainerID != "" && c.id != config.currentContainerID {
        StartedSkip(cs, i, config, eligible, failed, done, events);
        continue;
      }
      if c.isWatchtower || wasStopped {
        var failure;
        ghost var more;
        failure, cleanup', more := RestartNext(cs, i, client, config, old(progress.States()), cleanup, done, cleanup',
                                               progress);
        StartedNext(cs, i, config, eligible, failed, done, events, failure, more);
        if failure.Some? {
          failed := failed[c.id := failure.value];
        } else {
          done := done + {c.id};
        }
        events := events + more;
      } else {
        StartedSkip(cs, i, config, eligible, failed, done, events);
      }
    }
    if client.canceled {
      StartVerdictsLater(cs, config, eligible, failed, events);
    }
  }

  /** Restarts the container at position i and keeps the books. */
  method RestartNext(cs: seq<Container>, i: nat, client: Client, config: Config, ghost before: map<string, State>,
                     ghost cleanup: seq<RemovedImageInfo>, ghost done: set<string>, sofar: seq<RemovedImageInfo>,
                     progress: Progress)
    returns (failure: Option<Failure>, cleanup': seq<RemovedImageInfo>, ghost events: seq<Event>)
    requires Distinct(IDs(cs)) && i < |cs| && Keyed(progress.statuses) && Distinct(ImageIDs(sofar))
    requires Booked(cs, config, done, before, progress.States(), cleanup, sofar)
    modifies client`trace, {cs[i]}`chain, progress.statuses.Values
    ensures client.trace == old(client.trace) + events && RestartStep(cs[i], config, failure, events)
    ensures Distinct(ImageIDs(cleanup'))
    ensures Booked(cs, config, if failure.Some? then done else done + {cs[i].id}, before, progress.States(), cleanup,
                   cleanup')
  {
    hide IDs, RestartStep, Booked, Cleans, ImageIDs;
    ghost var states := progress.States();
    failure, cleanup', events := RestartAndRecord(cs[i], client, config, sofar, progress);
    if failure.Some? {
      SameImages(cs, config, done, before, states, cleanup, sofar, cleanup');
    } else {
      BookedNext(cs, i, config, done, before, states, cleanup, sofar, progress.States(), cleanup');
    }
  }

  lemma NothingStarted(cs: seq<Container>, config: Config, eligible: set<string>)
    ensures StartedUpTo(cs, 0, config, eligible, map[], {}, [])
    ensures StartVerdicts(cs, 0, config, eligible, map[], [], false)
  {
    NothingRestarted(cs, config, eligible);
  }

  method SkipStarts(cs: seq<Container>, n: nat, config: Config, ghost eligible: set<string>,
                    failed: map<string, Failure>, ghost done: set<string>, ghost events: seq<Event>)
    returns (failed': map<string, Failure>)
    requires Distinct(IDs(cs)) && n <= |cs| && StartedUpTo(cs, n, config, eligible, failed, done, events)
    requires StartVerdicts(cs, n, config, eligible, failed, events, false)
    ensures StartedUpTo(cs, |cs|, config, eligible, failed', done, events)
    ensures StartVerdicts(cs, |cs|, config, eligible, failed', events, true)
  {
    hide Settled, StartsMatch, StartVerdicts, RestCanceled, IDs;
    failed' := SkipRestarts(cs, n, config, eligible, failed, done, events);
    StartVerdictsSkip(cs, n, config, eligible, failed, failed', done, events);
  }

  lemma SameImages(cs: seq<Container>, config: Config, done: set<string>, before: map<string, State>,
                   states: map<string, State>,
                   cleanup: seq<RemovedImageInfo>, sofar: seq<RemovedImageInfo>, cleanup': seq<RemovedImageInfo>)
    requires Booked(cs, config, done, before, states, cleanup, sofar)
    requires Collects(sofar, cleanup', {})
    ensures Booked(cs, config, done, before, states, cleanup, cleanup')
  {
    hide NonStaleDone, Cleaned, Collects;
    CollectsMore(cleanup, sofar, cleanup', Cleaned(cs, done, config), {});
    assert Cleaned(cs, done, config) + {} == Cleaned(cs, done, config);
  }
}
