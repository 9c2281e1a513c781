/** What the report of an update session tells its reader (internal/actions/update.go,
    pkg/session/report.go): consequences of the contract of Update. */
module SessionFacts {
  import opened Text
  import opened Containers
  import opened Sorter
  import opened CycleDetection
  import opened DetectCycles
  import opened ImplicitRestart
  import opened Session
  import opened UpdateRun
  import opened StartPhase
  import opened BatchRun
  import opened TowerRuns
  import opened Execution
  import opened Scan
  import opened UpdateAction

  /** The staleness check of the container found an image other than its own. */
  predicate NewImage(c: Container, answers: Answers) {
    answers.check(c).stale && answers.check(c).newest != c.imageID
  }

  lemma RecordedImage(c: Container, skip: bool, config: Config, answers: Answers)
    ensures Expected(c, skip, config, answers).1 != c.imageID ==> NewImage(c, answers)
  {
  }

  /** A container is filed as failed exactly if it failed and the scan recorded a new image for it. A
      failure of a container without one, as of a container that only restarts because of a link, is
      filed as fresh. */
  lemma FailureShownIffNewImage(cs: seq<Container>, statuses: Statuses, marks: set<string>, config: Config,
                                answers: Answers, events: seq<Event>, failed: set<string>, c: Container)
    requires ReportExact(cs, statuses, marks, config, answers, events, failed) && c in cs && c.id in statuses
    ensures statuses[c.id].state == FailedState <==>
            c.id in failed && Expected(c, Skips(c, marks), config, answers).1 != c.imageID
    ensures c.id in failed && !NewImage(c, answers) ==> statuses[c.id].state == FreshState
  {
    hide HasSelfDependency, ResolveContainerIdentifier;
    RecordedImage(c, Skips(c, marks), config, answers);
  }

  /** A filtered container that is not on the restart list is reported as the scan left it: skipped, or
      fresh if the image recorded for it is its own, or stale. */
  lemma LeftAloneShown(all: seq<Container>, filtered: seq<Container>, statuses: Statuses, config: Config,
                       answers: Answers, plan: PlanRecord, events: seq<Event>, failed: set<string>, canceled: bool,
                       c: Container)
    requires ReportExact(filtered, statuses, plan.marks, config, answers, events, failed)
    requires Carried(all, filtered, config, answers, plan, events, failed, canceled) && UniqueIDs(filtered)
    requires c in filtered && c.id in statuses && c !in plan.list
    ensures var (state, newImage) := Expected(c, Skips(c, plan.marks), config, answers);
            && statuses[c.id].oldImage == c.imageID && statuses[c.id].newImage == newImage
            && statuses[c.id].state == if state == SkippedState then SkippedState
                                       else if newImage == c.imageID then FreshState
                                       else StaleState
  {
    hide Scheduled, Spread, RestartList, Ran, UniqueIDs, Expected, Skips;
    ListedIDs(filtered, plan);
    NotListed(plan.list, filtered, c);
    OutsideRun(plan.list, config, events, failed, canceled, c.id);
    assert Start(c.id, true).id == Stop(c.id, Removed).id == Stop(c.id, NotFound).id == c.id;
    ExpectedState(c, Skips(c, plan.marks), config, answers);
  }

  lemma ExpectedState(c: Container, skip: bool, config: Config, answers: Answers)
    ensures Expected(c, skip, config, answers).0 in {SkippedState, ScannedState}
  {
  }

  /** A container that is neither skipped nor run is reported fresh if its image is pinned or its check
      tells nothing new. */
  lemma UpToDateIsFresh(all: seq<Container>, filtered: seq<Container>, statuses: Statuses, config: Config,
                        answers: Answers, plan: PlanRecord, events: seq<Event>, failed: set<string>, canceled: bool,
                        c: Container)
    requires ReportExact(filtered, statuses, plan.marks, config, answers, events, failed)
    requires Carried(all, filtered, config, answers, plan, events, failed, canceled) && UniqueIDs(filtered)
    requires c in filtered && c.id in statuses && c !in plan.list && !Skips(c, plan.marks)
    requires answers.pin(c) == Pinned || (answers.pin(c) == NotPinned && NothingNew(c, config, answers))
    ensures statuses[c.id].state == FreshState
  {
    hide Carried, ReportExact, Skips, UniqueIDs, Expected;
    LeftAloneShown(all, filtered, statuses, config, answers, plan, events, failed, canceled, c);
    ExpectedRecords(c, config, answers);
  }

  /** One that is only monitored and has a new image is reported stale. */
  lemma MonitoredIsStale(all: seq<Container>, filtered: seq<Container>, statuses: Statuses, config: Config,
                         answers: Answers, plan: PlanRecord, events: seq<Event>, failed: set<string>, canceled: bool,
                         c: Container)
    requires ReportExact(filtered, statuses, plan.marks, config, answers, events, failed)
    requires Carried(all, filtered, config, answers, plan, events, failed, canceled) && UniqueIDs(filtered)
    requires c in filtered && c.id in statuses && c.monitorOnly && !Skips(c, plan.marks)
    requires answers.pin(c) == NotPinned && NewerFound(c, config, answers) && answers.check(c).newest != c.imageID
    ensures statuses[c.id].state == StaleState
  {
    hide ReportExact, Skips, UniqueIDs, Expected, Scheduled, Spread, RestartList, Ran;
    ListedIDs(filtered, plan);
    LeftAloneShown(all, filtered, statuses, config, answers, plan, events, failed, canceled, c);
    ExpectedRecords(c, config, answers);
  }

  /** Whenever the client finds a container stale, the newest image is another one. */
  ghost predicate StaleDiffers(cs: seq<Container>, answers: Answers) {
    forall c :: c in cs && answers.check(c).stale ==> answers.check(c).newest != c.imageID
  }

  lemma PickedStarts(c: Container, config: Config, answers: Answers, marks: set<string>)
    requires Picked(c, config, answers, marks)
    ensures Starts(c, config) && answers.check(c).stale
    ensures Expected(c, Skips(c, marks), config, answers) == (ScannedState, answers.check(c).newest)
  {
    hide HasSelfDependency, ResolveContainerIdentifier;
  }

  /** Report accuracy: if stale means another image, updated are exactly the stale containers that were
      started, and restarted exactly the other ones that are back. */
  lemma ReportAccurate(cs: seq<Container>, statuses: Statuses, marks: set<string>, config: Config, answers: Answers,
                       events: seq<Event>, failed: set<string>, c: Container)
    requires ReportExact(cs, statuses, marks, config, answers, events, failed) && c in cs && c.id in statuses
    requires c.stale ==> Picked(c, config, answers, marks)
    requires StaleDiffers(cs, answers)
    ensures statuses[c.id].state == UpdatedState <==> c.stale && Start(c.id, true) in events
    ensures statuses[c.id].state == RestartedState <==> !c.stale && Back(c, config, events, failed)
  {
    hide Picked, Expected, Skips;
    if c.stale {
      PickedStarts(c, config, answers, marks);
    }
  }

  /** Whatever a session loses it reports as restarted. */
  lemma LostIsShownRestarted(cs: seq<Container>, list: seq<Container>, statuses: Statuses, marks: set<string>,
                             config: Config, answers: Answers, events: seq<Event>, failed: set<string>, c: Container)
    requires ReportExact(cs, statuses, marks, config, answers, events, failed) && c in cs && c.id in statuses
    requires LossesExplained(list, config, events, failed) && UniqueIDs(cs) && forall d :: d in list ==> d in cs
    requires c.stale ==> Picked(c, config, answers, marks)
    requires Lost(events, failed, c.id)
    ensures config.noRestart && !c.isWatchtower && statuses[c.id].state == RestartedState
  {
    hide Picked, Expected, Skips;
    assert RegularID(list, c.id);
    var d :| d in list && !d.isWatchtower && d.id == c.id;
    assert d == c;
    if c.stale {
      PickedStarts(c, config, answers, marks);
    }
  }

  // ----- self-updates

  lemma ListedIDs(filtered: seq<Container>, plan: PlanRecord)
    requires RestartList(filtered, plan.list, plan.candidates) && UniqueIDs(filtered)
    ensures Distinct(IDs(plan.list)) && forall c :: c in plan.list ==> c in filtered && c.ToRestart() && !c.monitorOnly
  {
    hide SortedInPlace, UniqueIDs, Distinct;
    SortListKeeps(plan.candidates, plan.list);
    forall c | c in plan.list ensures c in filtered && c.ToRestart() && !c.monitorOnly {
      assert c in Elements(plan.list) && c in Elements(plan.candidates);
    }
    SublistIDs(filtered, plan.list);
  }

  /** In a session, nothing but the Watchtower instances it picked or that follow what it updates is ever
      renamed, and only outside run-once mode; there each is renamed before its successor starts, and its
      image is left alone. */
  lemma SelfUpdatesRename(all: seq<Container>, filtered: seq<Container>, config: Config, answers: Answers,
                          plan: PlanRecord, events: seq<Event>, failed: set<string>, canceled: bool,
                          cleanup: seq<RemovedImageInfo>)
    requires Carried(all, filtered, config, answers, plan, events, failed, canceled) && UniqueIDs(filtered)
    requires Collects([], cleanup, BackInfos(plan.list, config, events, failed))
    ensures forall e :: e in events && e.Rename? ==>
              !config.runOnce && exists c :: c in plan.list && c.isWatchtower && c.id == e.id
    ensures !config.runOnce ==> forall c, p ::
              c in plan.list && c.isWatchtower && 0 <= p < |events| && events[p].Start? && events[p].id == c.id ==>
              exists q :: 0 <= q < p && events[q] == Rename(c.id, true)
    ensures !config.runOnce ==> forall c, info ::
              c in plan.list && c.isWatchtower && info in cleanup ==> info.containerID != c.id
  {
    hide Scheduled, Spread, RestartList, Ran, Collects, BackInfos, Distinct, UniqueIDs;
    ListedIDs(filtered, plan);
    forall e | e in events && e.Rename?
      ensures !config.runOnce && exists c :: c in plan.list && c.isWatchtower && c.id == e.id
    {
      OnlyTowersRenamed(plan.list, config, events, failed, canceled, e);
    }
    if !config.runOnce {
      forall c, p | c in plan.list && c.isWatchtower && 0 <= p < |events| && events[p].Start? && events[p].id == c.id
        ensures exists q :: 0 <= q < p && events[q] == Rename(c.id, true)
      {
        RenamedFirst(plan.list, config, events, failed, canceled, c, p);
      }
      forall c | c in plan.list && c.isWatchtower ensures forall info :: info in cleanup ==> info.containerID != c.id {
        TowersNotCleaned(plan.list, config, events, failed, cleanup, c);
      }
    }
  }

  // ----- sessions that lose nothing

  /** No listed container links to a Watchtower instance that its checks choose for an update. */
  ghost predicate TowersUnlinked(cs: seq<Container>, config: Config, answers: Answers) {
    forall c, d :: c in cs && d in cs && d.isWatchtower && Chosen(d, config, answers) ==> !MatchesMember(c, {d})
  }

  /** With restarts on, in run-once mode, with self-update off or without a link to a Watchtower
      instance that is to be updated, a session loses nothing. */
  lemma QuietSessionLosesNone(all: seq<Container>, filtered: seq<Container>, config: Config, answers: Answers,
                              plan: PlanRecord, events: seq<Event>, failed: set<string>, canceled: bool)
    requires Carried(all, filtered, config, answers, plan, events, failed, canceled)
    requires forall c :: c in filtered ==> c in all
    requires LossesExplained(plan.list, config, events, failed)
    requires || !config.noRestart || config.runOnce || config.skipSelfUpdate
             || TowersUnlinked(filtered, config, answers)
    ensures NoneLost(events, failed)
  {
    hide Ran, SortedInPlace, Scheduled, Spread, TowersUnlinked, DistinctIdentifiers, Regular, Sorted;
    if config.noRestart {
      StaleAreTowers(filtered, config, answers, plan);
      NothingSpreads(all, filtered, config, answers, plan);
      forall c | c in plan.list ensures c.isWatchtower {
        SortListKeeps(plan.candidates, plan.list);
        assert c in Elements(plan.list) && c in Elements(plan.candidates);
        assert c in Restarting(all);
      }
      assert forall id :: !RegularID(plan.list, id);
    }
  }

  /** With restarts off only Watchtower instances are updated. */
  lemma StaleAreTowers(filtered: seq<Container>, config: Config, answers: Answers, plan: PlanRecord)
    requires Scheduled(filtered, config, answers, plan) && config.noRestart
    ensures forall c :: c in filtered && c.stale ==>
              c.isWatchtower && !config.runOnce && !config.skipSelfUpdate && Chosen(c, config, answers)
  {
    hide HasSelfDependency, ResolveContainerIdentifier, Verdict, DetectorGraph, Sound, HitsEveryCycle;
  }

  /** Without a link to what is updated, nothing else restarts. */
  lemma NothingSpreads(all: seq<Container>, filtered: seq<Container>, config: Config, answers: Answers,
                       plan: PlanRecord)
    requires Spread(all, filtered) && forall c :: c in all && c.stale ==> c in filtered
    requires forall c :: c in filtered && c.stale ==>
               c.isWatchtower && !config.runOnce && !config.skipSelfUpdate && Chosen(c, config, answers)
    requires config.runOnce || config.skipSelfUpdate || TowersUnlinked(filtered, config, answers)
    ensures forall c :: c in Restarting(all) ==> c.isWatchtower
  {
    hide SortedInPlace, LinkMatches, Links, Chosen;
    var stale := StaleOnes(all);
    forall c | c in filtered ensures !MatchesMember(c, stale) {
      NoMemberMatched(c, stale);
    }
    assert Closed(filtered, stale);
  }

  lemma NoMemberMatched(c: Container, members: set<Container>)
    requires forall d :: d in members ==> !MatchesMember(c, {d})
    ensures !MatchesMember(c, members)
  {
    hide Links, LinkMatches;
    forall link, d | link in Links(c) && d in members ensures !LinkMatches(link, d) {
      assert LinkMatches(link, d) ==> MatchesMember(c, {d});
    }
  }

  /** With a current container known, at most one Watchtower instance is ever updated by a session, and
      it is that one. */
  lemma OnlyCurrentWatchtower(cs: seq<Container>, config: Config, answers: Answers, plan: PlanRecord, c: Container,
                              d: Container)
    requires Scheduled(cs, config, answers, plan) && UniqueIDs(cs) && config.currentContainerID != ""
    requires c in cs && c.isWatchtower && c.stale
    ensures c.id == config.currentContainerID && !config.runOnce && !config.skipSelfUpdate
    ensures d in cs && d.isWatchtower && d.stale ==> d == c
  {
    WatchtowerIsCurrent(c, config, answers, plan.marks);
    if d in cs && d.isWatchtower && d.stale {
      WatchtowerIsCurrent(d, config, answers, plan.marks);
    }
  }

  lemma WatchtowerIsCurrent(c: Container, config: Config, answers: Answers, marks: set<string>)
    requires Picked(c, config, answers, marks) && c.isWatchtower && config.currentContainerID != ""
    ensures c.id == config.currentContainerID && !config.runOnce && !config.skipSelfUpdate
  {
    hide HasSelfDependency, ResolveContainerIdentifier, Verdict, ShouldUpdateContainer;
    ShouldUpdateIff(Verdict(c, config, answers).value.0, c, config);
  }
}
