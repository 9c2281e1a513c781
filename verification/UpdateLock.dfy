/** The one-token channel that serialises updates (cmd/root.go, internal/scheduling/scheduling.go
    and the handlers under pkg/api), as a state machine over any number of callers. */
module UpdateLock {
  import opened Text

  /** make(chan bool, 1) */
  const CAPACITY: nat := 1

  type Caller = nat

  /** Scheduled runs wait for the lock, the run on start and full API requests do not, targeted API
      requests wait until their client leaves, and a shutdown waits only if the lock is taken. */
  datatype Kind = Scheduled | OnStart | Targeted | Full | Shutdown

  datatype Outcome = Ran | Skipped | Canceled | TimedOut | FoundFree

  datatype Phase = Entering | Waiting | Holding | Finished(outcome: Outcome)

  /** skipFirst is the scheduler's option not to self-update on its first run; firstRun is its flag. */
  datatype State = State(
    tokens: nat,
    kind: map<Caller, Kind>,
    phase: map<Caller, Phase>,
    skipFirst: bool,
    firstRun: bool,
    skipsSelf: set<Caller>)

  datatype Action =
    | Arrive(caller: Caller, kind: Kind)
    | Look(caller: Caller)
    | Take(caller: Caller)
    | GiveUp(caller: Caller, outcome: Outcome)
    | Release(caller: Caller)

  function Initial(skipFirst: bool): State {
    State(CAPACITY, map[], map[], skipFirst, false, {})
  }

  predicate IsIn(s: State, c: Caller, phase: Phase) {
    c in s.phase && c in s.kind && s.phase[c] == phase
  }

  /** Who may leave the queue without the lock: a select falls through its default only when the
      channel is empty, but may prefer a canceled context or a timeout even to a free token. */
  predicate MayGiveUp(s: State, kind: Kind, outcome: Outcome) {
    match kind
    case Scheduled => false
    case OnStart => outcome == Skipped && s.tokens == 0
    case Full => outcome == Skipped && s.tokens == 0
    case Targeted => outcome == Canceled
    case Shutdown => outcome == Canceled || outcome == TimedOut
  }

  predicate Enabled(s: State, a: Action) {
    match a
    case Arrive(c, _) => c !in s.phase
    case Look(c) => IsIn(s, c, Entering)
    case Take(c) => IsIn(s, c, Waiting) && s.tokens > 0
    case GiveUp(c, outcome) => IsIn(s, c, Waiting) && MayGiveUp(s, s.kind[c], outcome)
    case Release(c) => IsIn(s, c, Holding) && s.tokens < CAPACITY
  }

  function Step(s: State, a: Action): State
    requires Enabled(s, a)
  {
    match a
    case Arrive(c, kind) =>
      var skips := kind == Scheduled && s.skipFirst && !s.firstRun;
      s.(kind := s.kind[c := kind], phase := s.phase[c := if kind == Shutdown then Entering else Waiting],
         firstRun := s.firstRun || skips, skipsSelf := s.skipsSelf + if skips then {c} else {})
    case Look(c) => s.(phase := s.phase[c := if s.tokens == 0 then Waiting else Finished(FoundFree)])
    case Take(c) => s.(tokens := s.tokens - 1, phase := s.phase[c := Holding])
    case GiveUp(c, outcome) => s.(phase := s.phase[c := Finished(outcome)])
    case Release(c) => s.(tokens := s.tokens + 1, phase := s.phase[c := Finished(Ran)])
  }

  /** The actions can happen one after the other from the start. */
  ghost predicate Legal(skipFirst: bool, run: seq<Action>)
    decreases |run|, 0
  {
    run == [] || (Legal(skipFirst, run[..|run| - 1]) && Enabled(After(skipFirst, run[..|run| - 1]), run[|run| - 1]))
  }

  ghost function After(skipFirst: bool, run: seq<Action>): State
    requires Legal(skipFirst, run)
    decreases |run|, 1
  {
    if run == [] then Initial(skipFirst) else Step(After(skipFirst, run[..|run| - 1]), run[|run| - 1])
  }

  ghost function Holders(s: State): set<Caller> {
    set c | c in s.phase && s.phase[c] == Holding
  }

  ghost predicate OneToken(s: State) {
    s.tokens + |Holders(s)| == 1 && s.phase.Keys == s.kind.Keys
  }

  lemma PhaseChange(before: State, after: State, c: Caller, phase: Phase)
    requires after.phase == before.phase[c := phase]
    ensures Holders(after) == if phase == Holding then Holders(before) + {c} else Holders(before) - {c}
  {
  }

  lemma StepKeepsToken(s: State, a: Action)
    requires OneToken(s) && Enabled(s, a)
    ensures OneToken(Step(s, a))
  {
    hide Holders, Step, Enabled;
    var t := Step(s, a);
    TokenMoves(s, a);
    PhaseChange(s, t, a.caller, t.phase[a.caller]);
    PhaseBefore(s, a.caller);
  }

  /** The token leaves the channel when a caller takes it and comes back when that caller releases it. */
  lemma TokenMoves(s: State, a: Action)
    requires Enabled(s, a) && s.phase.Keys == s.kind.Keys
    ensures var t, c := Step(s, a), a.caller;
            && t.phase.Keys == t.kind.Keys && c in t.phase && t.phase == s.phase[c := t.phase[c]]
            && (t.phase[c] == Holding <==> a.Take?)
            && (c in s.phase && s.phase[c] == Holding <==> a.Release?)
            && t.tokens == if a.Take? then s.tokens - 1 else if a.Release? then s.tokens + 1 else s.tokens
  {
  }

  lemma PhaseBefore(s: State, c: Caller)
    ensures c in Holders(s) <==> c in s.phase && s.phase[c] == Holding
    ensures c in Holders(s) ==> |Holders(s) - {c}| == |Holders(s)| - 1
    ensures c !in Holders(s) ==> |Holders(s) + {c}| == |Holders(s)| + 1 && Holders(s) - {c} == Holders(s)
  {
  }

  /** In every reachable state the tokens in the channel and the callers holding one add up to one. */
  lemma {:induction false} TokenConserved(skipFirst: bool, run: seq<Action>)
    requires Legal(skipFirst, run)
    ensures OneToken(After(skipFirst, run))
  {
    if run == [] {
      assert Holders(Initial(skipFirst)) == {};
    } else {
      TokenConserved(skipFirst, run[..|run| - 1]);
      StepKeepsToken(After(skipFirst, run[..|run| - 1]), run[|run| - 1]);
    }
  }

  lemma TwoMembers(s: set<Caller>, c: Caller, d: Caller)
    requires c in s && d in s
    ensures |s| >= if c == d then 1 else 2
  {
    assert s == {c, d} + (s - {c, d});
  }

  lemma HoldersAtMostOne(s: State, c: Caller, d: Caller)
    requires OneToken(s) && c in Holders(s) && d in Holders(s)
    ensures c == d && s.tokens == 0
  {
    TwoMembers(Holders(s), c, d);
  }

  /** At most one update, apply, check or download runs at a time. */
  lemma MutualExclusion(skipFirst: bool, run: seq<Action>, c: Caller, d: Caller)
    requires Legal(skipFirst, run)
    requires IsIn(After(skipFirst, run), c, Holding) && IsIn(After(skipFirst, run), d, Holding)
    ensures c == d
  {
    TokenConserved(skipFirst, run);
    HoldersAtMostOne(After(skipFirst, run), c, d);
  }

  /** Returning the token never blocks: whoever holds it finds the channel empty. */
  lemma ReleaseNeverBlocks(skipFirst: bool, run: seq<Action>, c: Caller)
    requires Legal(skipFirst, run) && IsIn(After(skipFirst, run), c, Holding)
    ensures Enabled(After(skipFirst, run), Release(c))
    ensures Legal(skipFirst, run + [Release(c)])
  {
    TokenConserved(skipFirst, run);
    HoldersAtMostOne(After(skipFirst, run), c, c);
    assert (run + [Release(c)])[..|run|] == run;
  }

  /** No deadlock: a waiting caller can take the token, or somebody else holds it and can return it. */
  lemma WaitingMakesProgress(skipFirst: bool, run: seq<Action>, c: Caller)
    requires Legal(skipFirst, run) && IsIn(After(skipFirst, run), c, Waiting)
    ensures var s := After(skipFirst, run);
            Enabled(s, Take(c)) || exists d :: d != c && IsIn(s, d, Holding) && Enabled(s, Release(d))
  {
    var s := After(skipFirst, run);
    TokenConserved(skipFirst, run);
    if s.tokens == 0 {
      assert Holders(s) != {};
      var d :| d in Holders(s);
      assert d != c && IsIn(s, d, Holding) && Enabled(s, Release(d));
    }
  }

  /** A run is turned away as redundant only while another one is running. */
  lemma SkippedOnlyWhileBusy(skipFirst: bool, run: seq<Action>, c: Caller)
    requires Legal(skipFirst, run) && Enabled(After(skipFirst, run), GiveUp(c, Skipped))
    ensures exists d :: d != c && IsIn(After(skipFirst, run), d, Holding)
  {
    WaitingMakesProgress(skipFirst, run, c);
  }

  /** Only the run on start and full requests are ever turned away as redundant, and exactly while
      somebody else is inside. */
  lemma TurnedAwayIff(skipFirst: bool, run: seq<Action>, c: Caller)
    requires Legal(skipFirst, run) && IsIn(After(skipFirst, run), c, Waiting)
    ensures var s := After(skipFirst, run);
            Enabled(s, GiveUp(c, Skipped)) <==>
            s.kind[c] in {OnStart, Full} && exists d :: d != c && IsIn(s, d, Holding)
  {
    hide After, Enabled, MayGiveUp, Legal;
    TokenConserved(skipFirst, run);
    BusyIff(After(skipFirst, run), c);
  }

  lemma BusyIff(s: State, c: Caller)
    requires OneToken(s) && IsIn(s, c, Waiting)
    ensures Enabled(s, GiveUp(c, Skipped)) <==>
            s.kind[c] in {OnStart, Full} && exists d :: d != c && IsIn(s, d, Holding)
  {
    if s.tokens == 0 {
      assert Holders(s) != {};
      var d :| d in Holders(s);
      assert d != c && IsIn(s, d, Holding);
    }
    if exists d :: d != c && IsIn(s, d, Holding) {
      var d :| d != c && IsIn(s, d, Holding);
      assert d in Holders(s) && |Holders(s)| > 0;
    }
  }

  /** A scheduled run never leaves without its turn; a targeted request leaves only with its client, a
      shutdown also when its time is up. */
  lemma WhoLeaves(skipFirst: bool, run: seq<Action>, c: Caller, outcome: Outcome)
    requires Legal(skipFirst, run) && IsIn(After(skipFirst, run), c, Waiting) && outcome != Skipped
    ensures var s := After(skipFirst, run);
            Enabled(s, GiveUp(c, outcome)) <==>
            && (outcome == Canceled ==> s.kind[c] in {Targeted, Shutdown})
            && (outcome == TimedOut ==> s.kind[c] == Shutdown)
            && outcome in {Canceled, TimedOut}
  {
  }

  /** A shutdown that looks finds the token in the channel exactly when nothing is running. */
  lemma ShutdownSeesIdle(skipFirst: bool, run: seq<Action>, c: Caller)
    requires Legal(skipFirst, run) && Enabled(After(skipFirst, run), Look(c))
    ensures Step(After(skipFirst, run), Look(c)).phase[c] == Finished(FoundFree) <==>
            Holders(After(skipFirst, run)) == {}
  {
    TokenConserved(skipFirst, run);
    var s := After(skipFirst, run);
    assert |Holders(s)| == 0 <==> Holders(s) == {};
  }

  /** Whoever takes the token, a waiting shutdown included, finds nothing running and is then the only
      one inside. */
  lemma TakerIsAlone(skipFirst: bool, run: seq<Action>, c: Caller)
    requires Legal(skipFirst, run) && Enabled(After(skipFirst, run), Take(c))
    ensures Holders(After(skipFirst, run)) == {} && Holders(Step(After(skipFirst, run), Take(c))) == {c}
  {
    TokenConserved(skipFirst, run);
    var s := After(skipFirst, run);
    PhaseChange(s, Step(s, Take(c)), c, Holding);
    assert |Holders(s)| == 0;
  }

  // ----- the first scheduled run

  ghost function FirstScheduled(run: seq<Action>): set<Caller> {
    if run == [] then {}
    else
      var n := |run| - 1;
      if FirstScheduled(run[..n]) != {} then FirstScheduled(run[..n])
      else if run[n].Arrive? && run[n].kind == Scheduled then {run[n].caller}
      else {}
  }

  /** With the option set, the self-update is skipped by exactly the first scheduled run. */
  lemma {:induction false} FirstRunSkips(skipFirst: bool, run: seq<Action>)
    requires Legal(skipFirst, run)
    ensures var s := After(skipFirst, run);
            && s.skipFirst == skipFirst
            && s.skipsSelf == (if skipFirst then FirstScheduled(run) else {})
            && (s.firstRun <==> s.skipsSelf != {})
  {
    if run != [] {
      FirstRunSkips(skipFirst, run[..|run| - 1]);
    }
  }

  // ----- which API requests wait

  function ImageList(query: string): seq<string> {
    Split(query, ',')
  }

  method ExtractImages(queries: seq<string>) returns (images: seq<string>)
    ensures images == Collect(ImageList, queries)
  {
    images := [];
    for i := 0 to |queries|
      invariant images == Collect(ImageList, queries[..i])
    {
      CollectNext(ImageList, queries, i);
      images := images + Split(queries[i], ',');
    }
    CollectAll(ImageList, queries);
  }

  function KindOf(images: seq<string>): Kind {
    if |images| > 0 then Targeted else Full
  }

  /** A request is targeted, and so waits for the lock, exactly when it has an image parameter,
      be it an empty one. */
  lemma TargetedIffImageParameter(queries: seq<string>)
    ensures KindOf(Collect(ImageList, queries)) == Targeted <==> queries != []
  {
    if queries != [] {
      var n := |queries| - 1;
      assert Collect(ImageList, queries) == Collect(ImageList, queries[..n]) + Split(queries[n], ',');
    }
  }
}
