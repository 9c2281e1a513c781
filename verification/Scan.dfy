/** The scan half of Update (internal/actions/update.go): which containers are skipped, which are
    fresh and which will be updated. */
module Scan {
  import opened Text
  import opened Containers
  import opened Session
  import opened UpdateRun

  datatype PinCheck = Pinned | NotPinned | PinError

  /** The client's answer to a staleness check. */
  datatype StaleCheck = StaleCheck(stale: bool, newest: string, failed: bool)

  /** What the environment answers about each container during one run. */
  datatype Answers = Answers(
    filter: Container -> bool,
    pin: Container -> PinCheck,
    check: Container -> StaleCheck)

  function ShouldUpdateContainer(stale: bool, c: Container, config: Config): bool {
    && stale
    && !c.monitorOnly
    && !(config.noRestart && !c.isWatchtower)
    && !(config.runOnce && c.isWatchtower)
    && !(config.skipSelfUpdate && c.isWatchtower)
    && !(c.isWatchtower && config.currentContainerID != "" && c.id != config.currentContainerID)
  }

  /** The container may be updated: it is not only monitored, and is either the current Watchtower
      outside run-once mode with self-update on, or a regular container with restarts on. */
  predicate Permitted(c: Container, config: Config) {
    && !c.monitorOnly
    && if c.isWatchtower
       then !config.runOnce && !config.skipSelfUpdate && config.currentContainerID in {"", c.id}
       else !config.noRestart
  }

  lemma ShouldUpdateIff(stale: bool, c: Container, config: Config)
    ensures ShouldUpdateContainer(stale, c, config) <==> stale && Permitted(c, config)
  {
  }

  method FilterContainers(all: seq<Container>, filter: Container -> bool) returns (filtered: seq<Container>)
    ensures filtered == Filtered(all, filter)
  {
    filtered := [];
    for i := 0 to |all|
      invariant filtered == Filtered(all[..i], filter)
    {
      assert all[..i + 1][..i] == all[..i];
      if filter(all[i]) {
        filtered := filtered + [all[i]];
      }
    }
    assert all[..|all|] == all;
  }

  // ----- what the scan leaves behind

  ghost function IDSet(cs: seq<Container>): set<string> {
    set c | c in cs :: c.id
  }

  /** Exactly these containers have a status, and all of them are skipped or scanned. */
  ghost predicate Accounted(progress: Progress, ids: set<string>)
    reads progress, progress.statuses.Values
  {
    && Keyed(progress.statuses)
    && progress.statuses.Keys == ids
    && forall id :: id in ids ==> progress.statuses[id].state in {SkippedState, ScannedState}
  }

  /** A stale flag is set only on a container that was scanned as outdated and may be updated. */
  ghost predicate StaleSound(c: Container, progress: Progress, config: Config, answers: Answers, marks: set<string>)
    reads c`stale, progress
  {
    c.stale ==>
      && ShouldUpdateContainer(true, c, config) && c.verifies
      && c.id in progress.statuses
      && progress.statuses[c.id].oldImage == c.imageID
      && progress.statuses[c.id].newImage == answers.check(c).newest
      && answers.check(c).stale
      && ResolveContainerIdentifier(c) !in marks
  }

  /** The verdict of the staleness check: None when it failed, else whether the container is stale
      and the image recorded for it. */
  function Verdict(c: Container, config: Config, answers: Answers): Option<(bool, string)> {
    var check :=
      if c.isWatchtower && config.skipSelfUpdate then StaleCheck(false, c.imageID, false) else answers.check(c);
    if check.failed || (ShouldUpdateContainer(check.stale, c, config) && !c.verifies) then None
    else Some((check.stale, if check.stale then check.newest else c.imageID))
  }

  /** The state and the newest image the scan records for a container; skip says that a dependency on
      itself or on a cycle keeps it from being checked. */
  function Expected(c: Container, skip: bool, config: Config, answers: Answers): (State, string) {
    if skip || answers.pin(c) == PinError then (SkippedState, c.imageID)
    else if answers.pin(c) == Pinned then (ScannedState, c.imageID)
    else
      match Verdict(c, config, answers)
      case None => (SkippedState, c.imageID)
      case Some(verdict) => (ScannedState, verdict.1)
  }

  /** The status of c, in this state, is the expected one. */
  ghost predicate RecordedOne(c: Container, states: map<string, State>, statuses: Statuses, skip: bool, config: Config,
                              answers: Answers) {
    && c.id in states && c.id in statuses && statuses[c.id].oldImage == c.imageID
    && (states[c.id], statuses[c.id].newImage) == Expected(c, skip, config, answers)
  }

  ghost predicate Recorded(cs: seq<Container>, states: map<string, State>, statuses: Statuses, skipped: set<string>,
                           config: Config, answers: Answers) {
    forall c :: c in cs && c.id in statuses ==> RecordedOne(c, states, statuses, c.id in skipped, config, answers)
  }

  lemma RecordedNext(cs: seq<Container>, states: map<string, State>, statuses: Statuses, skipped: set<string>,
                     config: Config, answers: Answers, c: Container, state: State, status: ContainerStatus, skip: bool)
    requires UniqueIDs(cs) && c in cs && Recorded(cs, states, statuses, skipped, config, answers)
    requires status.oldImage == c.imageID && (state, status.newImage) == Expected(c, skip, config, answers)
    requires skip || c.id !in skipped
    ensures Recorded(cs, states[c.id := state], statuses[c.id := status], if skip then skipped + {c.id} else skipped,
                     config, answers)
  {
    hide Expected;
    var states', statuses', skipped' :=
      states[c.id := state], statuses[c.id := status], if skip then skipped + {c.id} else skipped;
    forall d | d in cs && d.id in statuses'
      ensures RecordedOne(d, states', statuses', d.id in skipped', config, answers)
    {
      if d != c {
        assert d.id != c.id;
        assert RecordedOne(d, states, statuses, d.id in skipped, config, answers);
      }
    }
  }

  ghost predicate UniqueIDs(cs: seq<Container>) {
    forall c, d :: c in cs && d in cs && c.id == d.id ==> c == d
  }

  // ----- skipping

  predicate HasSelfDependency(c: Container) {
    WatchtowerLinks(c).Some? && c.name in WatchtowerLinks(c).value
  }

  /** The ids of the listed containers for which p holds. */
  ghost function IDsWhere(cs: seq<Container>, p: Container -> bool): set<string> {
    if cs == [] then {}
    else
      var n := |cs| - 1;
      IDsWhere(cs[..n], p) + if p(cs[n]) then {cs[n].id} else {}
  }

  lemma IDsWhereNext(cs: seq<Container>, p: Container -> bool, i: nat)
    requires i < |cs|
    ensures IDsWhere(cs[..i + 1], p) == if p(cs[i]) then IDsWhere(cs[..i], p) + {cs[i].id} else IDsWhere(cs[..i], p)
  {
    assert cs[..i + 1][..i] == cs[..i];
  }

  lemma {:induction false} IDsWhereMember(cs: seq<Container>, p: Container -> bool)
    ensures forall id :: id in IDsWhere(cs, p) <==> exists c :: c in cs && p(c) && c.id == id
  {
    if cs != [] {
      var n := |cs| - 1;
      IDsWhereMember(cs[..n], p);
      assert cs == cs[..n] + [cs[n]];
    }
  }

  predicate InCycles(cycles: set<string>, c: Container) {
    ResolveContainerIdentifier(c) in cycles
  }

  function Marked(cycles: set<string>): Container -> bool {
    (c: Container) => InCycles(cycles, c)
  }

  method SkipOne(c: Container, reason: Failure, progress: Progress, ghost ids: set<string>)
    requires Accounted(progress, ids)
    modifies progress
    ensures Accounted(progress, ids + {c.id})
    ensures fresh(progress.statuses.Values - old(progress.statuses.Values))
    ensures c.id in progress.statuses && progress.statuses == old(progress.statuses)[c.id := progress.statuses[c.id]]
    ensures progress.States() == old(progress.States())[c.id := SkippedState]
    ensures progress.statuses[c.id].oldImage == progress.statuses[c.id].newImage == c.imageID
    ensures progress.statuses[c.id].error == Some(reason)
  {
    progress.AddSkipped(c, reason);
    assert progress.States()[c.id] == SkippedState;
    forall id | id in ids && id != c.id ensures progress.statuses[id].state in {SkippedState, ScannedState} {
      assert progress.statuses[id] == old(progress.statuses)[id];
    }
  }

  method SelfDependent(c: Container) returns (selfDependent: bool)
    ensures selfDependent == HasSelfDependency(c)
  {
    var links := GetLinksFromWatchtowerLabel(c);
    selfDependent := links.Some? && c.name in links.value;
  }

  /** Skips the containers that name themselves in the Watchtower depends-on label. */
  method SkipSelfDependent(cs: seq<Container>, progress: Progress, ghost config: Config, ghost answers: Answers)
    requires progress.statuses == map[] && UniqueIDs(cs)
    modifies progress
    ensures Accounted(progress, IDsWhere(cs, HasSelfDependency))
    ensures Recorded(cs, progress.States(), progress.statuses, IDsWhere(cs, HasSelfDependency), config, answers)
    ensures fresh(progress.statuses.Values)
    ensures forall id :: id in progress.statuses ==> progress.statuses[id].error == Some(SelfDependency)
  {
    hide HasSelfDependency, Accounted, Recorded, UniqueIDs, Progress.States;
    NothingAccounted(progress);
    NothingRecorded(cs, progress.States(), config, answers);
    for i := 0 to |cs|
      invariant Accounted(progress, IDsWhere(cs[..i], HasSelfDependency))
      invariant Recorded(cs, progress.States(), progress.statuses, IDsWhere(cs[..i], HasSelfDependency), config,
                         answers)
      invariant fresh(progress.statuses.Values)
      invariant forall id :: id in progress.statuses ==> progress.statuses[id].error == Some(SelfDependency)
    {
      IDsWhereNext(cs, HasSelfDependency, i);
      var selfDependent := SelfDependent(cs[i]);
      if selfDependent {
        ghost var ids := IDsWhere(cs[..i], HasSelfDependency);
        ghost var states, statuses := progress.States(), progress.statuses;
        SkipOne(cs[i], SelfDependency, progress, ids);
        RecordedNext(cs, states, statuses, ids, config, answers, cs[i], SkippedState, progress.statuses[cs[i].id],
                     true);
      }
    }
    assert cs[..|cs|] == cs;
  }

  lemma NothingRecorded(cs: seq<Container>, states: map<string, State>, config: Config, answers: Answers)
    ensures Recorded(cs, states, map[], {}, config, answers)
  {
  }

  lemma NothingAccounted(progress: Progress)
    requires progress.statuses == map[]
    ensures Accounted(progress, {})
  {
  }

  /** Skips the containers the cycle detector marked. */
  method SkipCyclic(cs: seq<Container>, cycles: set<string>, progress: Progress, ghost skipped: set<string>,
                    ghost config: Config, ghost answers: Answers)
    requires Accounted(progress, skipped) && UniqueIDs(cs)
    requires Recorded(cs, progress.States(), progress.statuses, skipped, config, answers)
    modifies progress
    ensures Accounted(progress, skipped + IDsWhere(cs, Marked(cycles)))
    ensures Recorded(cs, progress.States(), progress.statuses, skipped + IDsWhere(cs, Marked(cycles)), config, answers)
    ensures fresh(progress.statuses.Values - old(progress.statuses.Values))
    ensures forall id :: id in IDsWhere(cs, Marked(cycles)) ==>
              id in progress.statuses && progress.statuses[id].error == Some(CircularDependency)
  {
    hide InCycles, Accounted, Recorded, UniqueIDs, Progress.States;
    ghost var p := Marked(cycles);
    assert skipped + {} == skipped;
    for i := 0 to |cs|
      invariant Accounted(progress, skipped + IDsWhere(cs[..i], p))
      invariant Recorded(cs, progress.States(), progress.statuses, skipped + IDsWhere(cs[..i], p), config, answers)
      invariant fresh(progress.statuses.Values - old(progress.statuses.Values))
      invariant forall id :: id in IDsWhere(cs[..i], p) ==>
                  id in progress.statuses && progress.statuses[id].error == Some(CircularDependency)
    {
      IDsWhereNext(cs, p, i);
      if InCycles(cycles, cs[i]) {
        ghost var ids := skipped + IDsWhere(cs[..i], p);
        ghost var states, statuses := progress.States(), progress.statuses;
        SkipOne(cs[i], CircularDependency, progress, ids);
        RecordedNext(cs, states, statuses, ids, config, answers, cs[i], SkippedState, progress.statuses[cs[i].id],
                     true);
        assert ids + {cs[i].id} == skipped + IDsWhere(cs[..i + 1], p);
      }
    }
    assert cs[..|cs|] == cs;
  }

  // ----- classification

  method IsPinned(c: Container, answers: Answers, progress: Progress, ghost ids: set<string>) returns (pin: PinCheck)
    requires Accounted(progress, ids)
    modifies progress
    ensures pin == answers.pin(c)
    ensures Accounted(progress, if pin == Pinned then ids + {c.id} else ids)
    ensures fresh(progress.statuses.Values - old(progress.statuses.Values))
    ensures c.id in progress.statuses ==> progress.statuses == old(progress.statuses)[c.id := progress.statuses[c.id]]
    ensures pin != Pinned ==> progress.statuses == old(progress.statuses) && progress.States() == old(progress.States())
    ensures pin == Pinned ==>
              && c.id in progress.statuses && progress.States() == old(progress.States())[c.id := ScannedState]
              && progress.statuses[c.id].oldImage == progress.statuses[c.id].newImage == c.imageID
  {
    pin := answers.pin(c);
    if pin == Pinned {
      progress.AddScanned(c, c.imageID);
      assert progress.States()[c.id] == ScannedState;
    }
  }

  /** The container is checked, found outdated and may be updated. */
  predicate Chosen(c: Container, config: Config, answers: Answers) {
    && answers.pin(c) == NotPinned
    && Verdict(c, config, answers).Some?
    && ShouldUpdateContainer(Verdict(c, config, answers).value.0, c, config)
  }

  /** A container becomes stale exactly if it is checked, found outdated, permitted to be updated and
      verifies. */
  lemma ChosenIff(c: Container, config: Config, answers: Answers)
    ensures Chosen(c, config, answers) <==>
            && answers.pin(c) == NotPinned && !answers.check(c).failed && answers.check(c).stale
            && Permitted(c, config) && c.verifies
  {
  }

  /** The check tells nothing new: it succeeds without a newer image, or is not asked for a Watchtower
      with self-update off. */
  predicate NothingNew(c: Container, config: Config, answers: Answers) {
    (c.isWatchtower && config.skipSelfUpdate) || (!answers.check(c).failed && !answers.check(c).stale)
  }

  /** The check succeeds with a newer image. */
  predicate NewerFound(c: Container, config: Config, answers: Answers) {
    !(c.isWatchtower && config.skipSelfUpdate) && !answers.check(c).failed && answers.check(c).stale
  }

  /** What the scan records, case by case. */
  ghost predicate Records(c: Container, state: State, newImage: string, config: Config, answers: Answers) {
    && (answers.pin(c) == PinError ==> state == SkippedState)
    && (answers.pin(c) == Pinned ==> state == ScannedState && newImage == c.imageID)
    && (answers.pin(c) == NotPinned ==>
          && (NothingNew(c, config, answers) ==> state == ScannedState && newImage == c.imageID)
          && (NewerFound(c, config, answers) && Permitted(c, config) && !c.verifies ==> state == SkippedState)
          && (NewerFound(c, config, answers) && (Permitted(c, config) ==> c.verifies) ==>
                state == ScannedState && newImage == answers.check(c).newest)
          && (!NothingNew(c, config, answers) && !NewerFound(c, config, answers) ==> state == SkippedState))
    && (state == SkippedState ==> newImage == c.imageID)
  }

  lemma ExpectedRecords(c: Container, config: Config, answers: Answers)
    ensures var (state, newImage) := Expected(c, false, config, answers); Records(c, state, newImage, config, answers)
  {
  }

  /** Classifies one container that has no status yet. */
  method ClassifyOne(c: Container, config: Config, answers: Answers, progress: Progress, ghost ids: set<string>,
                     ghost marks: set<string>)
    requires Accounted(progress, ids) && c.id !in ids && !c.stale
    requires ResolveContainerIdentifier(c) !in marks
    modifies progress, c`stale
    ensures Accounted(progress, ids + {c.id})
    ensures fresh(progress.statuses.Values - old(progress.statuses.Values))
    ensures c.id in progress.statuses && progress.statuses == old(progress.statuses)[c.id := progress.statuses[c.id]]
    ensures StaleSound(c, progress, config, answers, marks)
    ensures c.stale <==> Chosen(c, config, answers)
    ensures c.stale <==>
            && answers.pin(c) == NotPinned && !answers.check(c).failed && answers.check(c).stale
            && Permitted(c, config) && c.verifies
    ensures Records(c, progress.States()[c.id], progress.statuses[c.id].newImage, config, answers)
    ensures progress.States()[c.id] == SkippedState ==> progress.statuses[c.id].error == Some(CheckFailed)
    ensures progress.statuses[c.id].oldImage == c.imageID
    ensures (progress.States()[c.id], progress.statuses[c.id].newImage) == Expected(c, false, config, answers)
    ensures progress.States() == old(progress.States())[c.id := progress.States()[c.id]]
  {
    hide ResolveContainerIdentifier, Accounted, Progress.States, Records;
    ExpectedRecords(c, config, answers);
    ChosenIff(c, config, answers);
    var pin := IsPinned(c, answers, progress, ids);
    if pin == PinError {
      SkipOne(c, CheckFailed, progress, ids);
      return;
    }
    if pin == Pinned {
      return;
    }
    var check :=
      if c.isWatchtower && config.skipSelfUpdate then StaleCheck(false, c.imageID, false) else answers.check(c);
    var shouldUpdate := ShouldUpdateContainer(check.stale, c, config);
    if check.failed || (shouldUpdate && !c.verifies) {
      SkipOne(c, CheckFailed, progress, ids);
      c.stale := false;
    } else {
      ScanOne(c, if check.stale then check.newest else c.imageID, progress, ids);
      c.stale := check.stale && shouldUpdate;
    }
  }

  method ScanOne(c: Container, newImage: string, progress: Progress, ghost ids: set<string>)
    requires Accounted(progress, ids)
    modifies progress
    ensures Accounted(progress, ids + {c.id})
    ensures fresh(progress.statuses.Values - old(progress.statuses.Values))
    ensures c.id in progress.statuses && progress.statuses == old(progress.statuses)[c.id := progress.statuses[c.id]]
    ensures progress.statuses[c.id].oldImage == c.imageID && progress.statuses[c.id].newImage == newImage
    ensures progress.States() == old(progress.States())[c.id := ScannedState]
  {
    progress.AddScanned(c, newImage);
    assert progress.States()[c.id] == ScannedState;
    forall id | id in ids && id != c.id ensures progress.statuses[id].state in {SkippedState, ScannedState} {
      assert progress.statuses[id] == old(progress.statuses)[id];
    }
  }

  /** Classifies one container of the list; the flags of the others stay sound. */
  method ClassifyAt(cs: seq<Container>, i: nat, config: Config, answers: Answers, progress: Progress,
                    ghost ids: set<string>, ghost skipped: set<string>, ghost marks: set<string>)
    requires i < |cs| && Accounted(progress, ids) && cs[i].id !in ids && !cs[i].stale && UniqueIDs(cs)
    requires ResolveContainerIdentifier(cs[i]) !in marks && skipped <= ids
    requires Recorded(cs, progress.States(), progress.statuses, skipped, config, answers)
    requires forall c :: c in cs ==> StaleSound(c, progress, config, answers, marks)
    modifies progress, {cs[i]}`stale
    ensures Accounted(progress, ids + {cs[i].id})
    ensures fresh(progress.statuses.Values - old(progress.statuses.Values))
    ensures forall c :: c in cs ==> StaleSound(c, progress, config, answers, marks)
    ensures cs[i].stale <==> Chosen(cs[i], config, answers)
    ensures Recorded(cs, progress.States(), progress.statuses, skipped, config, answers)
  {
    hide Accounted, ResolveContainerIdentifier, ShouldUpdateContainer, Verdict, Chosen, Expected, Recorded,
         Progress.States;
    ghost var states, statuses := progress.States(), progress.statuses;
    ClassifyOne(cs[i], config, answers, progress, ids, marks);
    RecordedNext(cs, states, statuses, skipped, config, answers, cs[i], progress.States()[cs[i].id],
                 progress.statuses[cs[i].id], false);
    forall c | c in cs ensures StaleSound(c, progress, config, answers, marks) {
      if c != cs[i] {
        assert c.id != cs[i].id && old(StaleSound(c, progress, config, answers, marks));
      }
    }
  }

  lemma IDSetNext(cs: seq<Container>, i: nat)
    requires i < |cs|
    ensures IDSet(cs[..i + 1]) == IDSet(cs[..i]) + {cs[i].id}
  {
    assert cs[..i + 1] == cs[..i] + [cs[i]];
  }

  /** Of the containers reached, exactly those that are chosen and were not skipped carry the stale
      flag; of the others none does. */
  ghost predicate Flagged(cs: seq<Container>, reached: nat, skipped: set<string>, config: Config, answers: Answers)
    reads cs`stale
  {
    forall k :: 0 <= k < |cs| ==>
      (cs[k].stale <==> k < reached && cs[k].id !in skipped && Chosen(cs[k], config, answers))
  }

  lemma FlaggedNext(cs: seq<Container>, i: nat, skipped: set<string>, config: Config, answers: Answers)
    requires i < |cs| && Flagged(cs, i, skipped, config, answers) && cs[i].id in skipped
    ensures Flagged(cs, i + 1, skipped, config, answers)
  {
    hide Chosen;
    forall k | 0 <= k < |cs|
      ensures cs[k].stale <==> k < i + 1 && cs[k].id !in skipped && Chosen(cs[k], config, answers)
    {
    }
  }

  lemma NewID(cs: seq<Container>, i: nat)
    requires UniqueIDs(cs) && Distinct(cs) && i < |cs|
    ensures cs[i].id !in IDSet(cs[..i])
  {
  }

  /** Classifies the container at position i, which was not skipped, and leaves the other flags alone. */
  method FlagAt(cs: seq<Container>, i: nat, config: Config, answers: Answers, progress: Progress,
                ghost ids: set<string>, ghost skipped: set<string>, ghost marks: set<string>)
    requires i < |cs| && Accounted(progress, ids) && cs[i].id !in ids && UniqueIDs(cs) && Distinct(cs) && skipped <= ids
    requires ResolveContainerIdentifier(cs[i]) !in marks
    requires forall c :: c in cs ==> StaleSound(c, progress, config, answers, marks)
    requires Flagged(cs, i, skipped, config, answers)
    requires Recorded(cs, progress.States(), progress.statuses, skipped, config, answers)
    modifies progress, {cs[i]}`stale
    ensures Accounted(progress, ids + {cs[i].id})
    ensures fresh(progress.statuses.Values - old(progress.statuses.Values))
    ensures forall c :: c in cs ==> StaleSound(c, progress, config, answers, marks)
    ensures Flagged(cs, i + 1, skipped, config, answers)
    ensures Recorded(cs, progress.States(), progress.statuses, skipped, config, answers)
  {
    hide Accounted, StaleSound, ResolveContainerIdentifier, UniqueIDs, Chosen, Recorded, Progress.States;
    ClassifyAt(cs, i, config, answers, progress, ids, skipped, marks);
    forall k | 0 <= k < |cs|
      ensures cs[k].stale <==> k < i + 1 && cs[k].id !in skipped && Chosen(cs[k], config, answers)
    {
      if k != i {
        assert cs[k] != cs[i];
        assert cs[k].stale == old(cs[k].stale);
      }
    }
  }

  /** Classifies the containers one by one until done or canceled. Every container reached has a
      status, and the stale flags are set exactly where they must be. */
  method Classify(cs: seq<Container>, client: Client, config: Config, answers: Answers, progress: Progress,
                  ghost skipped: set<string>, ghost marks: set<string>)
    returns (canceled: bool, ghost reached: nat)
    requires Accounted(progress, skipped) && UniqueIDs(cs) && Distinct(cs)
    requires Recorded(cs, progress.States(), progress.statuses, skipped, config, answers)
    requires forall c :: c in cs ==> !c.stale
    requires forall c :: c in cs && ResolveContainerIdentifier(c) in marks ==> c.id in skipped
    modifies progress, client`canceled, Elements(cs)`stale
    ensures reached <= |cs| && (!canceled ==> reached == |cs|) && (canceled ==> client.canceled)
    ensures Accounted(progress, skipped + IDSet(cs[..reached]))
    ensures fresh(progress.statuses.Values - old(progress.statuses.Values))
    ensures forall c :: c in cs ==> StaleSound(c, progress, config, answers, marks) && (c.stale ==> c.verifies)
    ensures Flagged(cs, reached, skipped, config, answers)
    ensures Recorded(cs, progress.States(), progress.statuses, skipped, config, answers)
  {
    hide Recorded, Progress.States, Accounted, StaleSound, ResolveContainerIdentifier, UniqueIDs, IDSet, Flagged,
         Distinct;
    canceled, reached := false, 0;
    NoIDs(cs);
    assert skipped + IDSet(cs[..0]) == skipped;
    forall c | c in cs ensures StaleSound(c, progress, config, answers, marks) {
      NotStaleSound(c, progress, config, answers, marks);
    }
    NoneFlagged(cs, skipped, config, answers);
    for i := 0 to |cs|
      invariant reached == i && Accounted(progress, skipped + IDSet(cs[..i]))
      invariant fresh(progress.statuses.Values - old(progress.statuses.Values))
      invariant forall c :: c in cs ==> StaleSound(c, progress, config, answers, marks)
      invariant Flagged(cs, i, skipped, config, answers)
      invariant Recorded(cs, progress.States(), progress.statuses, skipped, config, answers)
    {
      SoundVerifies(cs, progress, config, answers, marks);
      canceled := client.Canceled();
      if canceled {
        return;
      }
      reached := i + 1;
      ghost var ids := skipped + IDSet(cs[..i]);
      IDSetNext(cs, i);
      NewID(cs, i);
      AccountedKeys(progress, ids);
      assert skipped + IDSet(cs[..i + 1]) == ids + {cs[i].id};
      if cs[i].id in progress.statuses {
        assert ids + {cs[i].id} == ids;
        FlaggedNext(cs, i, skipped, config, answers);
        continue;
      }
      FlagAt(cs, i, config, answers, progress, ids, skipped, marks);
    }
    SoundVerifies(cs, progress, config, answers, marks);
  }

  lemma SoundVerifies(cs: seq<Container>, progress: Progress, config: Config, answers: Answers, marks: set<string>)
    requires forall c :: c in cs ==> StaleSound(c, progress, config, answers, marks)
    ensures forall c :: c in cs && c.stale ==> c.verifies
  {
  }

  lemma NoneFlagged(cs: seq<Container>, skipped: set<string>, config: Config, answers: Answers)
    requires forall c :: c in cs ==> !c.stale
    ensures Flagged(cs, 0, skipped, config, answers)
  {
  }

  lemma NoIDs(cs: seq<Container>)
    ensures IDSet(cs[..0]) == {}
  {
  }

  lemma AccountedKeys(progress: Progress, ids: set<string>)
    requires Accounted(progress, ids)
    ensures progress.statuses.Keys == ids
  {
  }

  lemma NotStaleSound(c: Container, progress: Progress, config: Config, answers: Answers, marks: set<string>)
    requires !c.stale
    ensures StaleSound(c, progress, config, answers, marks)
  {
  }
}
