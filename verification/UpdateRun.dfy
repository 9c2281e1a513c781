/** The stop and start phases of an update (internal/actions/update.go) against a client
    whose every answer is arbitrary and whose context may be canceled at any check. */
module UpdateRun {
  import opened Text
  import opened Digraph
  import opened Containers
  import opened Session

  datatype Config = Config(
    noRestart: bool,
    runOnce: bool,
    lifecycleHooks: bool,
    rollingRestart: bool,
    skipSelfUpdate: bool,
    currentContainerID: string)

  // ----- the client

  datatype StopOutcome = Removed | NotFound | StopError

  datatype HookOutcome = HookOK | HookSkip | HookError

  /** What the run asked of Docker, with the answer. */
  datatype Event =
    | Stop(id: string, outcome: StopOutcome)
    | Rename(id: string, renamed: bool)
    | Start(id: string, started: bool)
    | ClearRestartPolicy(id: string, updated: bool)

  class Client {
    var canceled: bool
    ghost var trace: seq<Event>

    constructor ()
      ensures trace == []
    {
      canceled, trace := *, [];
    }

    /** Checks the context; once canceled it stays canceled. */
    method Canceled() returns (canceled': bool)
      modifies `canceled
      ensures canceled' == canceled && (old(canceled) ==> canceled)
    {
      if !canceled {
        canceled := *;
      }
      canceled' := canceled;
    }

    method StopAndRemoveContainer(c: Container) returns (outcome: StopOutcome)
      modifies `trace
      ensures trace == old(trace) + [Stop(c.id, outcome)]
    {
      outcome := *;
      trace := trace + [Stop(c.id, outcome)];
    }

    method RenameContainer(c: Container) returns (renamed: bool)
      modifies `trace
      ensures trace == old(trace) + [Rename(c.id, renamed)]
    {
      renamed := *;
      trace := trace + [Rename(c.id, renamed)];
    }

    method StartContainer(c: Container) returns (started: bool, newID: string)
      modifies `trace
      ensures trace == old(trace) + [Start(c.id, started)]
    {
      started, newID := *, *;
      trace := trace + [Start(c.id, started)];
    }

    /** Sets the restart policy to "no". */
    method UpdateContainer(c: Container) returns (updated: bool)
      modifies `trace
      ensures trace == old(trace) + [ClearRestartPolicy(c.id, updated)]
    {
      updated := *;
      trace := trace + [ClearRestartPolicy(c.id, updated)];
    }

    method ExecutePreUpdateCommand(c: Container) returns (outcome: HookOutcome)
    {
      outcome := *;
    }
  }

  // ----- one container

  /** What stopping one container did: nothing, or one stop request with this answer. A failure
      without a request is owed to the configuration check or to a lifecycle hook. */
  ghost predicate StopStep(c: Container, config: Config, failure: Option<Failure>, events: seq<Event>)
    reads c`stale, c`linkedToRestarting
  {
    if c.isWatchtower || !c.ToRestart() then failure == None && events == []
    else if c.linkedToRestarting && !c.verifies then failure == Some(VerifyConfigFailed) && events == []
    else if failure == None then events == [Stop(c.id, Removed)] || events == [Stop(c.id, NotFound)]
    else if failure == Some(StopFailed) then events == [Stop(c.id, StopError)]
    else failure.value in {PreUpdateFailed, SkipUpdate} && config.lifecycleHooks && events == []
  }

  /** hook is the answer of the pre-update command, if it was asked for. */
  method StopStaleContainer(c: Container, client: Client, config: Config)
    returns (failure: Option<Failure>, ghost hook: Option<HookOutcome>, ghost events: seq<Event>)
    modifies client`trace
    ensures client.trace == old(client.trace) + events
    ensures StopStep(c, config, failure, events)
    ensures hook.Some? <==>
            config.lifecycleHooks && !c.isWatchtower && c.ToRestart() && (c.linkedToRestarting ==> c.verifies)
    ensures hook == Some(HookError) ==> failure == Some(PreUpdateFailed) && events == []
    ensures hook == Some(HookSkip) ==> failure == Some(SkipUpdate) && events == []
    ensures !c.isWatchtower && c.ToRestart() && (c.linkedToRestarting ==> c.verifies) &&
            hook in {None, Some(HookOK)} ==>
              exists outcome :: events == [Stop(c.id, outcome)] && (failure.None? <==> outcome != StopError)
  {
    hook, events := None, [];
    if c.isWatchtower {
      return None, None, [];
    }
    if !c.ToRestart() {
      return None, None, [];
    }
    if c.linkedToRestarting && !c.verifies {
      return Some(VerifyConfigFailed), None, [];
    }
    if config.lifecycleHooks {
      var answer := client.ExecutePreUpdateCommand(c);
      hook := Some(answer);
      if answer == HookError {
        return Some(PreUpdateFailed), hook, [];
      }
      if answer == HookSkip {
        return Some(SkipUpdate), hook, [];
      }
    }
    var outcome := client.StopAndRemoveContainer(c);
    events := [Stop(c.id, outcome)];
    failure := if outcome == StopError then Some(StopFailed) else None;
  }

  predicate Renames(c: Container, config: Config) {
    c.isWatchtower && !config.runOnce
  }

  predicate Starts(c: Container, config: Config) {
    !config.noRestart || c.isWatchtower
  }

  /** What restarting one container did. A renamed Watchtower is kept from restarting by itself once
      its successor has started, and is stopped if the successor fails to start. */
  ghost predicate RestartStep(c: Container, config: Config, failure: Option<Failure>, events: seq<Event>) {
    var rename := if Renames(c, config) then [Rename(c.id, true)] else [];
    if failure == None then
      var request := rename + if Starts(c, config) then [Start(c.id, true)] else [];
      if Renames(c, config) then exists ok :: events == request + [ClearRestartPolicy(c.id, ok)] else events == request
    else if failure == Some(RenameFailed) then
      Renames(c, config) && events == [Rename(c.id, false)]
    else
      && failure == Some(StartFailed)
      && Starts(c, config)
      && (if Renames(c, config) then exists o :: events == rename + [Start(c.id, false)] + [Stop(c.id, o)]
          else events == [Start(c.id, false)])
  }

  /** The chain label a self-update writes: the existing chain, then this container. */
  function NextChain(existing: Option<string>, id: string): string {
    if existing.Some? && existing.value != "" then existing.value + "," + id else id
  }

  method RestartStaleContainer(c: Container, client: Client, config: Config)
    returns (newID: string, renamed: bool, failure: Option<Failure>, ghost events: seq<Event>)
    modifies client`trace, c`chain
    ensures client.trace == old(client.trace) + events
    ensures RestartStep(c, config, failure, events)
    ensures c.isWatchtower && !config.runOnce ==> events != [] && events[0].Rename?
    ensures c.isWatchtower && !config.runOnce ==> (events[0].renamed <==> failure != Some(RenameFailed))
    ensures !c.isWatchtower || config.runOnce ==> forall e :: e in events ==> e.Start?
    ensures (exists e :: e in events && e.Start?) <==>
            (c.isWatchtower || !config.noRestart) && failure != Some(RenameFailed)
    ensures failure == None ==> renamed == (c.isWatchtower && !config.runOnce)
    ensures failure == None && !Starts(c, config) ==> newID == c.id
    ensures c.chain == if c.isWatchtower && failure != Some(RenameFailed) then Some(NextChain(old(c.chain), c.id))
                       else old(c.chain)
  {
    newID, renamed, failure, events := c.id, false, None, [];
    if c.isWatchtower && !config.runOnce {
      var ok := client.RenameContainer(c);
      events := [Rename(c.id, ok)];
      if !ok {
        return "", false, Some(RenameFailed), events;
      }
      assert events[0] == Rename(c.id, true);
      renamed := true;
    }
    if c.isWatchtower {
      c.chain := Some(NextChain(c.chain, c.id));
    }
    if !config.noRestart || c.isWatchtower {
      var started;
      started, newID := client.StartContainer(c);
      events := events + [Start(c.id, started)];
      assert events[|events| - 1].Start?;
      if !started {
        if renamed && c.isWatchtower {
          var outcome := client.StopAndRemoveContainer(c);
          events := events + [Stop(c.id, outcome)];
        }
        return "", renamed, Some(StartFailed), events;
      }
    }
    if renamed && c.isWatchtower {
      var updated := client.UpdateContainer(c);
      events := events + [ClearRestartPolicy(c.id, updated)];
    }
  }

  // ----- the order of events

  function ContainerID(c: Container): string { c.id }

  ghost function IDs(cs: seq<Container>): seq<string> {
    Keys(ContainerID, cs)
  }

  ghost function Position(cs: seq<Container>, id: string): nat {
    IndexOf(IDs(cs), id)
  }

  lemma PositionOf(cs: seq<Container>, i: nat)
    requires Distinct(IDs(cs)) && i < |cs|
    ensures Position(cs, cs[i].id) == i
  {
    IndexOfDistinct(IDs(cs), i);
  }

  /** Later events are about containers earlier in the list. */
  ghost predicate Descends(cs: seq<Container>, events: seq<Event>) {
    forall p, q :: 0 <= p < q < |events| ==> Position(cs, events[q].id) < Position(cs, events[p].id)
  }

  /** Later events are about the same container or one further down the list. */
  ghost predicate Climbs(cs: seq<Container>, events: seq<Event>) {
    forall p, q :: 0 <= p < q < |events| ==> Position(cs, events[p].id) <= Position(cs, events[q].id)
  }

  /** What happened to one container. */
  ghost function EventsOf(events: seq<Event>, id: string): seq<Event> {
    if events == [] then []
    else
      var n := |events| - 1;
      EventsOf(events[..n], id) + if events[n].id == id then [events[n]] else []
  }

  lemma {:induction false} EventsOfOthers(events: seq<Event>, id: string)
    requires forall e :: e in events ==> e.id != id
    ensures EventsOf(events, id) == []
  {
    if events != [] {
      var n := |events| - 1;
      assert events[n] in events;
      EventsOfOthers(events[..n], id);
    }
  }

  lemma EventsOfSnoc(events: seq<Event>, e: Event, id: string)
    ensures EventsOf(events + [e], id) == EventsOf(events, id) + if e.id == id then [e] else []
  {
    assert (events + [e])[..|events|] == events;
  }

  lemma {:induction false} EventsOfNext(events: seq<Event>, more: seq<Event>, x: string, id: string)
    requires forall e :: e in more ==> e.id == x
    ensures EventsOf(events + more, id) == EventsOf(events, id) + if id == x then more else []
  {
    hide EventsOf;
    if more == [] {
      assert events + more == events;
    } else {
      var n := |more| - 1;
      var shorter, last := more[..n], more[n];
      assert last in more && more == shorter + [last];
      EventsOfNext(events, shorter, x, id);
      assert events + more == (events + shorter) + [last];
      EventsOfSnoc(events + shorter, last, id);
    }
  }

  /** The failure recorded for a container. */
  function Reason(failed: map<string, Failure>, id: string): Option<Failure> {
    if id in failed then Some(failed[id]) else None
  }

  datatype RemovedImageInfo = RemovedImageInfo(imageID: string, containerID: string, containerName: string)

  ghost function StoppedIDs(stopped: seq<RemovedImageInfo>): set<string> {
    set info | info in stopped :: info.containerID
  }

  // ----- the stop phase

  /** Containers from position i on are settled: each failed or counts as stopped. */
  ghost predicate Verdicts(cs: seq<Container>, i: nat, failed: map<string, Failure>, stopped: set<string>) {
    && (forall id :: id in failed || id in stopped ==> i <= Position(cs, id) < |cs|)
    && (forall k :: i <= k < |cs| ==> (cs[k].id in failed <==> cs[k].id !in stopped))
  }

  /** Every event is a stop request for a settled container, answered as its verdict says. */
  ghost predicate StopsOnly(cs: seq<Container>, i: nat, failed: map<string, Failure>, events: seq<Event>) {
    forall e :: e in events ==>
      && e.Stop? && i <= Position(cs, e.id) < |cs| && (e.outcome == StopError <==> e.id in failed)
      && !cs[Position(cs, e.id)].isWatchtower
  }

  /** Every regular container that had to restart and counts as stopped was asked to stop. */
  ghost predicate StopsAsked(cs: seq<Container>, i: nat, stopped: set<string>, events: seq<Event>)
    reads cs`stale, cs`linkedToRestarting
  {
    forall k :: i <= k < |cs| && cs[k].id in stopped && !cs[k].isWatchtower && cs[k].ToRestart() ==>
      Stop(cs[k].id, Removed) in events || Stop(cs[k].id, NotFound) in events
  }

  lemma VerdictNext(cs: seq<Container>, i: nat, failed: map<string, Failure>, stopped: set<string>,
                    failure: Option<Failure>)
    requires Distinct(IDs(cs)) && i < |cs| && Verdicts(cs, i + 1, failed, stopped)
    ensures cs[i].id !in failed && cs[i].id !in stopped
    ensures if failure.Some? then Verdicts(cs, i, failed[cs[i].id := failure.value], stopped)
            else Verdicts(cs, i, failed, stopped + {cs[i].id})
  {
    hide Position;
    PositionOf(cs, i);
    forall k | i < k < |cs| ensures cs[k].id != cs[i].id {
      PositionOf(cs, k);
    }
  }

  lemma DescendsNext(cs: seq<Container>, events: seq<Event>, i: nat, e: Event)
    requires Descends(cs, events) && Position(cs, e.id) == i
    requires forall f :: f in events ==> i < Position(cs, f.id)
    ensures Descends(cs, events + [e])
  {
    hide Position;
    var longer := events + [e];
    forall p, q | 0 <= p < q < |longer| ensures Position(cs, longer[q].id) < Position(cs, longer[p].id) {
      if q == |events| {
        assert events[p] in events;
      }
    }
  }

  ghost predicate StopsSettled(cs: seq<Container>, i: nat, failed: map<string, Failure>, stopped: set<string>,
                               events: seq<Event>)
    reads cs`stale, cs`linkedToRestarting
  {
    && Verdicts(cs, i, failed, stopped)
    && StopsOnly(cs, i, failed, events)
    && StopsAsked(cs, i, stopped, events)
    && Descends(cs, events)
  }

  lemma StopFails(cs: seq<Container>, i: nat, failed: map<string, Failure>, stopped: set<string>, events: seq<Event>,
                  failure: Failure, more: seq<Event>)
    requires Distinct(IDs(cs)) && i < |cs| && StopsSettled(cs, i + 1, failed, stopped, events)
    requires more == [] || (more == [Stop(cs[i].id, StopError)] && !cs[i].isWatchtower)
    ensures StopsSettled(cs, i, failed[cs[i].id := failure], stopped, events + more)
  {
    hide Position, Descends, Verdicts;
    VerdictNext(cs, i, failed, stopped, Some(failure));
    PositionOf(cs, i);
    if more == [] {
      assert events + more == events;
    } else {
      DescendsNext(cs, events, i, more[0]);
    }
  }

  lemma StopSucceeds(cs: seq<Container>, i: nat, config: Config, failed: map<string, Failure>, stopped: set<string>,
                     events: seq<Event>, more: seq<Event>)
    requires Distinct(IDs(cs)) && i < |cs| && StopsSettled(cs, i + 1, failed, stopped, events)
    requires StopStep(cs[i], config, None, more)
    ensures StopsSettled(cs, i, failed, stopped + {cs[i].id}, events + more)
  {
    hide Position, Descends, Verdicts;
    VerdictNext(cs, i, failed, stopped, None);
    PositionOf(cs, i);
    if more == [] {
      assert events + more == events;
    } else {
      DescendsNext(cs, events, i, more[0]);
    }
  }

  /** Everything the stop phase did to one container fits the verdict on it; only a cancellation
      leaves a container untouched that would have had to stop. */
  ghost predicate StopVerdict(c: Container, config: Config, failed: map<string, Failure>, events: seq<Event>,
                              canceled: bool)
    reads c`stale, c`linkedToRestarting
  {
    if Reason(failed, c.id) == Some(Canceled) then canceled && EventsOf(events, c.id) == []
    else StopStep(c, config, Reason(failed, c.id), EventsOf(events, c.id))
  }

  ghost predicate StopVerdicts(cs: seq<Container>, i: nat, config: Config, failed: map<string, Failure>,
                               events: seq<Event>, canceled: bool)
    reads cs`stale, cs`linkedToRestarting
  {
    forall k :: i <= k < |cs| ==> StopVerdict(cs[k], config, failed, events, canceled)
  }

  lemma StopVerdictNext(cs: seq<Container>, i: nat, config: Config, failed: map<string, Failure>, stopped: set<string>,
                        events: seq<Event>, failure: Option<Failure>, more: seq<Event>, canceled: bool)
    requires Distinct(IDs(cs)) && i < |cs| && StopsSettled(cs, i + 1, failed, stopped, events)
    requires StopVerdicts(cs, i + 1, config, failed, events, canceled)
    requires if failure == Some(Canceled) then canceled && more == [] else StopStep(cs[i], config, failure, more)
    ensures StopVerdicts(cs, i, config, if failure.Some? then failed[cs[i].id := failure.value] else failed,
                         events + more, canceled)
  {
    hide Position, Descends, StopsAsked, StopStep;
    var id, failed' := cs[i].id, if failure.Some? then failed[cs[i].id := failure.value] else failed;
    PositionOf(cs, i);
    StopStepEvents(cs[i], config, failure, more);
    EventsOfOthers(events, id);
    VerdictNext(cs, i, failed, stopped, None);
    forall k | i <= k < |cs| ensures StopVerdict(cs[k], config, failed', events + more, canceled) {
      EventsOfNext(events, more, id, cs[k].id);
      if k == i {
        assert [] + more == more;
        assert Reason(failed', id) == failure;
      } else {
        assert IDs(cs)[k] != IDs(cs)[i];
        assert StopVerdict(cs[k], config, failed, events, canceled);
        assert EventsOf(events + more, cs[k].id) == EventsOf(events, cs[k].id);
      }
    }
  }

  lemma StopStepEvents(c: Container, config: Config, failure: Option<Failure>, events: seq<Event>)
    requires events == [] || StopStep(c, config, failure, events)
    ensures forall e :: e in events ==> e.id == c.id && e.Stop?
  {
  }

  /** Only a cancellation keeps a Watchtower container from counting as stopped. */
  ghost predicate TowersStop(cs: seq<Container>, failed: map<string, Failure>, canceled: bool) {
    forall k :: 0 <= k < |cs| && cs[k].isWatchtower && cs[k].id in failed ==> canceled
  }

  lemma StoppedNext(stopped: seq<RemovedImageInfo>, info: RemovedImageInfo)
    ensures StoppedIDs(stopped + [info]) == StoppedIDs(stopped) + {info.containerID}
  {
  }

  /** The containers before position n that were not reached are all recorded as failed. */
  method SkipStops(cs: seq<Container>, n: nat, config: Config, failed: map<string, Failure>, ghost stopped: set<string>,
                   ghost events: seq<Event>)
    returns (failed': map<string, Failure>)
    requires Distinct(IDs(cs)) && n <= |cs| && StopsSettled(cs, n, failed, stopped, events)
    requires StopVerdicts(cs, n, config, failed, events, true)
    ensures StopsSettled(cs, 0, failed', stopped, events)
    ensures StopVerdicts(cs, 0, config, failed', events, true)
  {
    hide StopsSettled, IDs, StopVerdicts, StopStep;
    failed' := failed;
    assert events + [] == events;
    for j := n downto 0
      invariant StopsSettled(cs, j, failed', stopped, events)
      invariant StopVerdicts(cs, j, config, failed', events, true)
    {
      StopFails(cs, j, failed', stopped, events, Canceled, []);
      StopVerdictNext(cs, j, config, failed', stopped, events, Some(Canceled), [], true);
      failed' := failed'[cs[j].id := Canceled];
    }
  }

  /** A cancellation can only come later. */
  lemma StopVerdictsLater(cs: seq<Container>, i: nat, config: Config, failed: map<string, Failure>, events: seq<Event>)
    requires StopVerdicts(cs, i, config, failed, events, false)
    ensures StopVerdicts(cs, i, config, failed, events, true)
  {
    hide StopStep;
    forall k | i <= k < |cs| ensures StopVerdict(cs[k], config, failed, events, true) {
      assert StopVerdict(cs[k], config, failed, events, false);
    }
  }

  /** Stops the containers last to first. Afterwards every container either failed or counts as
      stopped, and the stop requests came in reverse order. */
  method StopContainersInReversedOrder(cs: seq<Container>, client: Client, config: Config)
    returns (failed: map<string, Failure>, stopped: seq<RemovedImageInfo>, ghost events: seq<Event>)
    requires Distinct(IDs(cs))
    modifies client
    ensures client.trace == old(client.trace) + events && (old(client.canceled) ==> client.canceled)
    ensures StopsSettled(cs, 0, failed, StoppedIDs(stopped), events)
    ensures StopVerdicts(cs, 0, config, failed, events, client.canceled)
    ensures TowersStop(cs, failed, client.canceled)
  {
    hide StopsSettled, IDs, StopStep, StopVerdicts, Distinct;
    failed, stopped, events := map[], [], [];
    NothingStopped(cs, config);
    for i := |cs| downto 0
      invariant StopsSettled(cs, i, failed, StoppedIDs(stopped), events)
      invariant StopVerdicts(cs, i, config, failed, events, false)
      invariant TowersStop(cs, failed, false)
      invariant client.trace == old(client.trace) + events && (old(client.canceled) ==> client.canceled)
    {
      var c := cs[i];
      var canceled := client.Canceled();
      if canceled {
        StopVerdictsLater(cs, i + 1, config, failed, events);
        failed := SkipStops(cs, i + 1, config, failed, StoppedIDs(stopped), events);
        return;
      }
      var failure;
      ghost var hook, more;
      failure, hook, more := StopStaleContainer(c, client, config);
      StopNotCanceled(c, config, failure, more);
      StopVerdictNext(cs, i, config, failed, StoppedIDs(stopped), events, failure, more, false);
      if failure.Some? {
        StopFails(cs, i, failed, StoppedIDs(stopped), events, failure.value, more);
        TowerNeverFails(cs, i, config, failed, failure, more);
        failed := failed[c.id := failure.value];
      } else {
        StopSucceeds(cs, i, config, failed, StoppedIDs(stopped), events, more);
        var info := RemovedImageInfo(c.imageID, c.id, c.name);
        StoppedNext(stopped, info);
        stopped := stopped + [info];
      }
      events := events + more;
    }
    if client.canceled {
      StopVerdictsLater(cs, 0, config, failed, events);
    }
  }

  lemma StopNotCanceled(c: Container, config: Config, failure: Option<Failure>, events: seq<Event>)
    requires StopStep(c, config, failure, events)
    ensures failure != Some(Canceled)
    ensures failure.Some? ==> events == [] || (events == [Stop(c.id, StopError)] && !c.isWatchtower)
  {
  }

  lemma NothingStopped(cs: seq<Container>, config: Config)
    ensures StopsSettled(cs, |cs|, map[], StoppedIDs([]), [])
    ensures StopVerdicts(cs, |cs|, config, map[], [], false)
    ensures TowersStop(cs, map[], false)
  {
  }

  lemma TowerNeverFails(cs: seq<Container>, i: nat, config: Config, failed: map<string, Failure>,
                        failure: Option<Failure>, events: seq<Event>)
    requires Distinct(IDs(cs)) && i < |cs| && TowersStop(cs, failed, false)
    requires failure.Some? && StopStep(cs[i], config, failure, events)
    ensures TowersStop(cs, failed[cs[i].id := failure.value], false)
  {
    forall k | 0 <= k < |cs| && cs[k].id == cs[i].id ensures k == i {
      assert IDs(cs)[k] == IDs(cs)[i];
    }
  }
}
