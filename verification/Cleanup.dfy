/** Removal of excess Watchtower instances (internal/actions/cleanup.go): which containers go, the
    bounded retries, and the images given up only when every one of them is gone. */
module Cleanup {
  import opened Text
  import opened Containers
  import opened UpdateRun
  import opened SelfUpdateChain

  // ----- which containers are excess

  const NO_SCOPE := "none"

  function ScopeOf(scope: string): string {
    if scope == "" then NO_SCOPE else scope
  }

  /** A Watchtower instance of the scope; no scope and the scope "none" are the same. */
  predicate InScope(scope: string, c: Container) {
    c.isWatchtower && ScopeOf(c.scope) == ScopeOf(scope)
  }

  /** Scopes agree when they are equal, or when both stand for no scope. */
  lemma InScopeIff(scope: string, c: Container)
    ensures InScope(scope, c) <==>
            c.isWatchtower && (c.scope == scope || (c.scope in {"", "none"} && scope in {"", "none"}))
  {
  }

  /** Another instance of the scope, or an ancestor of the current one whatever its scope. */
  ghost predicate Excess(scope: string, current: Container, chain: Option<string>, c: Container) {
    c.id != current.id && (InScope(scope, c) || c.id in ChainIDs(chain))
  }

  /** The removal list: one container for each excess ID among those listed. */
  ghost predicate ExcessOf(scope: string, current: Container?, chain: Option<string>, all: seq<Container>,
                           excess: seq<Container>) {
    if current == null then excess == []
    else
      && Distinct(IDs(excess))
      && (forall c :: c in excess ==> c in all && Excess(scope, current, chain, c))
      && (forall c :: c in all && Excess(scope, current, chain, c) ==> c.id in IDs(excess))
  }

  function Other(scope: string, current: Container): Container -> seq<Container> {
    (c: Container) => if InScope(scope, c) && c.id != current.id then [c] else []
  }

  method GetFilteredContainers(scope: string, current: Container?, all: seq<Container>) returns (excess: seq<Container>)
    ensures excess == if current == null then [] else Collect(Other(scope, current), all)
  {
    excess := [];
    if current == null {
      return;
    }
    for i := 0 to |all|
      invariant excess == Collect(Other(scope, current), all[..i])
    {
      CollectNext(Other(scope, current), all, i);
      var matches := if scope != "" then ScopeOf(all[i].scope) == scope && all[i].isWatchtower
                     else all[i].isWatchtower && ScopeOf(all[i].scope) == NO_SCOPE;
      if matches && all[i].id != current.id {
        excess := excess + [all[i]];
      }
    }
    CollectAll(Other(scope, current), all);
  }

  /** Filing containers under their IDs, later ones over earlier ones. */
  method FileByID(cs: seq<Container>, filed: map<string, Container>) returns (r: map<string, Container>)
    ensures r.Keys == filed.Keys + Elements(IDs(cs))
    ensures forall id :: id in r ==> (id in filed && r[id] == filed[id]) || (r[id] in cs && r[id].id == id)
  {
    r := filed;
    for i := 0 to |cs|
      invariant r.Keys == filed.Keys + Elements(IDs(cs[..i]))
      invariant forall id :: id in r ==> (id in filed && r[id] == filed[id]) || (r[id] in cs && r[id].id == id)
    {
      assert cs[..i + 1] == cs[..i] + [cs[i]];
      KeysConcat(ContainerID, cs[..i], [cs[i]]);
      r := r[cs[i].id := cs[i]];
    }
    assert cs[..|cs|] == cs;
  }

  /** The filed containers in whatever order the map yields them. */
  method FiledContainers(filed: map<string, Container>) returns (r: seq<Container>)
    requires forall id :: id in filed ==> filed[id].id == id
    ensures Lists(IDs(r), filed.Keys)
    ensures forall c :: c in r ==> c.id in filed && c == filed[c.id]
  {
    hide Lists;
    r := [];
    NothingListed<string>();
    var rest := filed.Keys;
    assert filed.Keys - rest == {};
    while rest != {}
      invariant rest <= filed.Keys && Lists(IDs(r), filed.Keys - rest)
      invariant forall c :: c in r ==> c.id in filed && c == filed[c.id]
    {
      var id :| id in rest;
      ghost var before := filed.Keys - rest;
      ListsNext(IDs(r), before, id);
      assert IDs([filed[id]]) == [id];
      KeysConcat(ContainerID, r, [filed[id]]);
      r := r + [filed[id]];
      rest := rest - {id};
      assert filed.Keys - rest == before + {id};
    }
    assert filed.Keys - rest == filed.Keys;
  }

  /** Deduplicates by ID; the order is that of a map. */
  method AddExcessContainers(excess: seq<Container>, chained: seq<Container>) returns (r: seq<Container>)
    ensures Lists(IDs(r), Elements(IDs(excess + chained)))
    ensures forall c :: c in r ==> c in excess + chained
  {
    var filed := FileByID(excess, map[]);
    filed := FileByID(chained, filed);
    r := FiledContainers(filed);
    KeysConcat(ContainerID, excess, chained);
  }

  method GetExcessContainers(scope: string, current: Container?, all: seq<Container>) returns (excess: seq<Container>)
    ensures ExcessOf(scope, current, if current == null then None else current.chain, all, excess)
  {
    var filtered := GetFilteredContainers(scope, current, all);
    var chained := [];
    if current != null {
      chained := GetChainedContainers(all, current);
    }
    excess := AddExcessContainers(filtered, chained);
    if current != null {
      GatheredIsExcess(scope, current, current.chain, all, excess);
    } else {
      assert filtered + chained == [];
      NoElements(IDs(excess));
    }
  }

  lemma GatheredIsExcess(scope: string, current: Container, chain: Option<string>, all: seq<Container>,
                         excess: seq<Container>)
    requires var gathered := Collect(Other(scope, current), all) + Chained(all, current, chain);
             Lists(IDs(excess), Elements(IDs(gathered))) && forall c :: c in excess ==> c in gathered
    ensures ExcessOf(scope, current, chain, all, excess)
  {
    var gathered := Collect(Other(scope, current), all) + Chained(all, current, chain);
    forall c ensures c in gathered <==> c in all && Excess(scope, current, chain, c) {
      CollectMember(Other(scope, current), all, c);
      CollectMember(ChainedContainer(current, chain), all, c);
    }
    forall c | c in gathered ensures c.id in IDs(excess) {
      var i :| 0 <= i < |gathered| && gathered[i] == c;
      assert IDs(gathered)[i] == c.id;
      assert c.id in Elements(IDs(gathered));
    }
  }

  // ----- removing them

  const MAX_ATTEMPTS: nat := 3

  datatype ImageOutcome = ImageRemoved | ImageGone | ImageInUse | ImageError

  datatype CleanupEvent =
    | Try(id: string, outcome: StopOutcome)
    | RemoveImage(imageID: string, answer: ImageOutcome)

  /** The caller's list of images awaiting removal. */
  class ImageList {
    var infos: seq<RemovedImageInfo>

    constructor ()
      ensures infos == []
    {
      infos := [];
    }
  }

  class CleanupClient {
    ghost var trace: seq<CleanupEvent>

    constructor ()
      ensures trace == []
    {
      trace := [];
    }

    method StopAndRemoveContainer(c: Container) returns (outcome: StopOutcome)
      modifies this
      ensures trace == old(trace) + [Try(c.id, outcome)]
    {
      outcome := *;
      trace := trace + [Try(c.id, outcome)];
    }

    method RemoveImageByID(imageID: string) returns (outcome: ImageOutcome)
      modifies this
      ensures trace == old(trace) + [RemoveImage(imageID, outcome)]
    {
      outcome := *;
      trace := trace + [RemoveImage(imageID, outcome)];
    }
  }

  /** The answers to the attempts on one container: only a failure is retried, three times at most. */
  ghost predicate Attempts(tries: seq<StopOutcome>) {
    1 <= |tries| <= MAX_ATTEMPTS && forall i :: 0 <= i < |tries| - 1 ==> tries[i] == StopError
  }

  ghost predicate Gone(tries: seq<StopOutcome>) {
    tries != [] && tries[|tries| - 1] != StopError
  }

  /** Nothing further is tried. */
  ghost predicate Settled(tries: seq<StopOutcome>) {
    Attempts(tries) && (Gone(tries) || |tries| == MAX_ATTEMPTS)
  }

  ghost function TryEvents(id: string, tries: seq<StopOutcome>): (r: seq<CleanupEvent>)
    ensures |r| == |tries| && forall i :: 0 <= i < |tries| ==> r[i] == Try(id, tries[i])
  {
    seq(|tries|, i requires 0 <= i < |tries| => Try(id, tries[i]))
  }

  method TryRemoving(c: Container, client: CleanupClient)
    returns (succeeded: bool, wasNotFound: bool, canceled: bool, ghost tries: seq<StopOutcome>)
    modifies client
    ensures client.trace == old(client.trace) + TryEvents(c.id, tries)
    ensures if canceled then Attempts(tries) && !Settled(tries) else Settled(tries)
    ensures succeeded == Gone(tries) && |tries| <= 3
    ensures succeeded <==> tries != [] && tries[|tries| - 1] in {Removed, NotFound}
    ensures wasNotFound == (Gone(tries) && tries[|tries| - 1] == NotFound)
  {
    succeeded, wasNotFound, canceled, tries := false, false, false, [];
    for attempt := 0 to MAX_ATTEMPTS
      invariant !succeeded && !wasNotFound && !canceled
      invariant |tries| == attempt && forall i :: 0 <= i < attempt ==> tries[i] == StopError
      invariant client.trace == old(client.trace) + TryEvents(c.id, tries)
    {
      var outcome := client.StopAndRemoveContainer(c);
      ghost var earlier := tries;
      tries := tries + [outcome];
      assert TryEvents(c.id, tries) == TryEvents(c.id, earlier) + [Try(c.id, outcome)];
      if outcome == Removed {
        succeeded := true;
        return;
      }
      if outcome == NotFound {
        succeeded, wasNotFound := true, true;
        return;
      }
      if attempt < MAX_ATTEMPTS - 1 {
        canceled := *;
        if canceled {
          return;
        }
      }
    }
  }

  /** Every attempt on the first |runs| containers of the list. */
  ghost function StopEvents(excess: seq<Container>, runs: seq<seq<StopOutcome>>): seq<CleanupEvent>
    requires |runs| <= |excess|
  {
    if runs == [] then []
    else
      var n := |runs| - 1;
      StopEvents(excess, runs[..n]) + TryEvents(excess[n].id, runs[n])
  }

  /** How many of the attempted containers are gone. */
  ghost function GoneCount(runs: seq<seq<StopOutcome>>): nat {
    if runs == [] then 0
    else
      var n := |runs| - 1;
      GoneCount(runs[..n]) + if Gone(runs[n]) then 1 else 0
  }

  function ImageOf(c: Container): RemovedImageInfo {
    RemovedImageInfo(c.imageID, c.id, c.name)
  }

  /** The images that become removable: of instances stopped by this run that ran another image. */
  ghost function Collected(excess: seq<Container>, runs: seq<seq<StopOutcome>>, cleanupImages: bool,
                           current: Container?): seq<RemovedImageInfo>
    requires |runs| <= |excess|
  {
    if runs == [] then []
    else
      var n := |runs| - 1;
      Collected(excess, runs[..n], cleanupImages, current)
      + if cleanupImages && current != null && runs[n] != [] && runs[n][|runs[n]| - 1] == Removed &&
           excess[n].imageID != current.imageID
        then [ImageOf(excess[n])] else []
  }

  ghost function ImageEvents(images: seq<RemovedImageInfo>, answers: seq<ImageOutcome>): seq<CleanupEvent>
    requires |answers| == |images|
  {
    if images == [] then []
    else
      var n := |images| - 1;
      ImageEvents(images[..n], answers[..n]) +
      if images[n].imageID == "" then [] else [RemoveImage(images[n].imageID, answers[n])]
  }

  ghost function RemovedOf(images: seq<RemovedImageInfo>, answers: seq<ImageOutcome>): seq<RemovedImageInfo>
    requires |answers| == |images|
  {
    if images == [] then []
    else
      var n := |images| - 1;
      RemovedOf(images[..n], answers[..n]) +
      if images[n].imageID != "" && answers[n] == ImageRemoved then [images[n]] else []
  }

  method RemoveImages(images: seq<RemovedImageInfo>, client: CleanupClient)
    returns (removed: seq<RemovedImageInfo>, failed: bool, ghost answers: seq<ImageOutcome>)
    modifies client
    ensures |answers| == |images|
    ensures client.trace == old(client.trace) + ImageEvents(images, answers)
    ensures removed == RemovedOf(images, answers)
    ensures forall info :: info in removed <==>
              exists i :: 0 <= i < |images| && images[i] == info && info.imageID != "" && answers[i] == ImageRemoved
    ensures failed <==> exists i :: 0 <= i < |images| && images[i].imageID != "" && answers[i] == ImageError
  {
    removed, failed, answers := [], false, [];
    for i := 0 to |images|
      invariant |answers| == i
      invariant client.trace == old(client.trace) + ImageEvents(images[..i], answers)
      invariant removed == RemovedOf(images[..i], answers)
      invariant failed <==> exists k :: 0 <= k < i && images[k].imageID != "" && answers[k] == ImageError
    {
      ghost var earlier := answers;
      assert images[..i + 1][..i] == images[..i];
      if images[i].imageID == "" {
        answers := answers + [ImageGone];
        assert answers[..i] == earlier;
        continue;
      }
      var outcome := client.RemoveImageByID(images[i].imageID);
      answers := answers + [outcome];
      assert answers[..i] == earlier;
      if outcome == ImageRemoved {
        removed := removed + [images[i]];
      } else if outcome == ImageError {
        failed := true;
      }
    }
    assert images[..|images|] == images;
    forall info
      ensures info in removed <==>
              exists i :: 0 <= i < |images| && images[i] == info && info.imageID != "" && answers[i] == ImageRemoved
    {
      RemovedMember(images, answers, info);
    }
  }

  lemma {:induction false} RemovedMember(images: seq<RemovedImageInfo>, answers: seq<ImageOutcome>,
                                         info: RemovedImageInfo)
    requires |answers| == |images|
    ensures info in RemovedOf(images, answers) <==>
            exists i :: 0 <= i < |images| && images[i] == info && info.imageID != "" && answers[i] == ImageRemoved
  {
    if images != [] {
      var n := |images| - 1;
      RemovedMember(images[..n], answers[..n], info);
      if exists i :: 0 <= i < |images| && images[i] == info && info.imageID != "" && answers[i] == ImageRemoved {
        var i :| 0 <= i < |images| && images[i] == info && info.imageID != "" && answers[i] == ImageRemoved;
        assert i < n ==> images[..n][i] == info && answers[..n][i] == ImageRemoved;
      }
    }
  }

  datatype RemovalResult = AllRemoved(count: nat) | RemovalCanceled | SomeFailed(failed: int, total: nat)

  /** The answers Docker gave during one removal. */
  datatype Answers = Answers(runs: seq<seq<StopOutcome>>, images: seq<ImageOutcome>)

  /** One removal, given those answers: what was asked of Docker, the result, and the image list
      before and after. */
  ghost predicate Removal(excess: seq<Container>, cleanupImages: bool, current: Container?,
                          before: seq<RemovedImageInfo>, answers: Answers, result: RemovalResult,
                          events: seq<CleanupEvent>, after: seq<RemovedImageInfo>) {
    var runs, n := answers.runs, |answers.runs|;
    && n <= |excess|
    && if result == RemovalCanceled then
         && n > 0 && Attempts(runs[n - 1]) && !Settled(runs[n - 1])
         && AllSettled(runs[..n - 1])
         && events == StopEvents(excess, runs)
         && after == before + Collected(excess, runs, cleanupImages, current)
       else
         && n == |excess|
         && AllSettled(runs)
         && result == (if GoneCount(runs) == n then AllRemoved(n) else SomeFailed(n - GoneCount(runs), n))
         && var images := if GoneCount(runs) == n then before + Collected(excess, runs, cleanupImages, current) else [];
            if cleanupImages then
              && |answers.images| == |images|
              && events == StopEvents(excess, runs) + ImageEvents(images, answers.images)
              && after == RemovedOf(images, answers.images)
            else events == StopEvents(excess, runs) && after == images
  }

  ghost predicate AllSettled(runs: seq<seq<StopOutcome>>) {
    forall i :: 0 <= i < |runs| ==> Settled(runs[i])
  }

  /** The attempts on one more container. */
  lemma RunsNext(excess: seq<Container>, runs: seq<seq<StopOutcome>>, tries: seq<StopOutcome>, cleanupImages: bool,
                 current: Container?)
    requires |runs| < |excess|
    ensures StopEvents(excess, runs + [tries]) == StopEvents(excess, runs) + TryEvents(excess[|runs|].id, tries)
    ensures GoneCount(runs + [tries]) == GoneCount(runs) + if Gone(tries) then 1 else 0
    ensures Collected(excess, runs + [tries], cleanupImages, current)
            == Collected(excess, runs, cleanupImages, current)
               + if cleanupImages && current != null && Gone(tries) && tries[|tries| - 1] != NotFound &&
                    excess[|runs|].imageID != current.imageID
                 then [ImageOf(excess[|runs|])] else []
    ensures AllSettled(runs) && Settled(tries) ==> AllSettled(runs + [tries])
  {
    hide Settled;
    assert (runs + [tries])[..|runs|] == runs;
  }

  /** The loop over the excess containers. */
  method StopExcess(excess: seq<Container>, cleanupImages: bool, current: Container?, collected: ImageList,
                    client: CleanupClient)
    returns (removed: nat, canceled: bool, ghost runs: seq<seq<StopOutcome>>)
    modifies client, collected
    ensures |runs| <= |excess| && (!canceled ==> |runs| == |excess| && AllSettled(runs))
    ensures canceled ==> runs != [] && AllSettled(runs[..|runs| - 1]) && Attempts(runs[|runs| - 1]) &&
                         !Settled(runs[|runs| - 1])
    ensures client.trace == old(client.trace) + StopEvents(excess, runs)
    ensures !canceled ==> removed == GoneCount(runs)
    ensures collected.infos == old(collected.infos) + Collected(excess, runs, cleanupImages, current)
  {
    hide Settled, Gone, AllSettled, StopEvents, TryEvents, Collected, GoneCount, Attempts;
    runs, removed := [], 0;
    NoRuns(excess, cleanupImages, current);
    for k := 0 to |excess|
      invariant |runs| == k && AllSettled(runs)
      invariant client.trace == old(client.trace) + StopEvents(excess, runs)
      invariant removed == GoneCount(runs)
      invariant collected.infos == old(collected.infos) + Collected(excess, runs, cleanupImages, current)
    {
      var c := excess[k];
      var succeeded, wasNotFound;
      ghost var tries;
      succeeded, wasNotFound, canceled, tries := TryRemoving(c, client);
      RunsNext(excess, runs, tries, cleanupImages, current);
      ghost var earlier := runs;
      runs := runs + [tries];
      assert runs[..k] == earlier;
      if canceled {
        UnsettledNotGone(tries);
        return;
      }
      if succeeded {
        removed := removed + 1;
        if cleanupImages && current != null && c.imageID != current.imageID && !wasNotFound {
          collected.infos := collected.infos + [ImageOf(c)];
        }
      }
    }
    canceled := false;
  }

  lemma NoRuns(excess: seq<Container>, cleanupImages: bool, current: Container?)
    ensures AllSettled([]) && StopEvents(excess, []) == [] && GoneCount([]) == 0
    ensures Collected(excess, [], cleanupImages, current) == []
  {
  }

  lemma UnsettledNotGone(tries: seq<StopOutcome>)
    requires Attempts(tries) && !Settled(tries)
    ensures !Gone(tries)
  {
  }

  method RemoveExcessContainers(excess: seq<Container>, cleanupImages: bool, current: Container?,
                                imageList: ImageList?, client: CleanupClient)
    returns (result: RemovalResult, ghost answers: Answers, ghost events: seq<CleanupEvent>,
             ghost after: seq<RemovedImageInfo>)
    modifies client, imageList
    ensures client.trace == old(client.trace) + events
    ensures Removal(excess, cleanupImages, current, if imageList == null then [] else old(imageList.infos), answers,
                    result, events, after)
    ensures imageList != null ==> imageList.infos == after
  {
    hide Settled, Gone, StopEvents, TryEvents, Collected, GoneCount, Attempts, ImageEvents, RemovedOf;
    var local := new ImageList();
    var collected := if imageList != null then imageList else local;
    var removed, canceled;
    ghost var runs;
    removed, canceled, runs := StopExcess(excess, cleanupImages, current, collected, client);
    if canceled {
      return RemovalCanceled, Answers(runs, []), StopEvents(excess, runs), collected.infos;
    }
    GoneCountBounded(runs);
    if removed < |excess| {
      collected.infos := [];
    }
    events, answers, after := StopEvents(excess, runs), Answers(runs, []), collected.infos;
    result := if removed < |excess| then SomeFailed(|excess| - removed, |excess|) else AllRemoved(removed);
    if cleanupImages {
      var infos, failed;
      ghost var imageAnswers;
      infos, failed, imageAnswers := RemoveImages(collected.infos, client);
      events := events + ImageEvents(after, imageAnswers);
      answers, after := Answers(runs, imageAnswers), infos;
      if imageList != null {
        imageList.infos := infos;
      }
    }
  }

  lemma {:induction false} GoneCountBounded(runs: seq<seq<StopOutcome>>)
    ensures GoneCount(runs) <= |runs|
    ensures GoneCount(runs) == |runs| <==> forall i :: 0 <= i < |runs| ==> Gone(runs[i])
  {
    if runs != [] {
      GoneCountBounded(runs[..|runs| - 1]);
    }
  }

  // ----- what a removal guarantees

  function TryCount(events: seq<CleanupEvent>, id: string): nat {
    if events == [] then 0
    else
      var n := |events| - 1;
      TryCount(events[..n], id) + if events[n].Try? && events[n].id == id then 1 else 0
  }

  lemma {:induction false} TryCountConcat(a: seq<CleanupEvent>, b: seq<CleanupEvent>, id: string)
    ensures TryCount(a + b, id) == TryCount(a, id) + TryCount(b, id)
  {
    if b == [] {
      assert a + b == a;
    } else {
      var n := |b| - 1;
      TryCountConcat(a, b[..n], id);
      assert (a + b)[..|a| + n] == a + b[..n];
    }
  }

  lemma {:induction false} TryCountOne(x: string, tries: seq<StopOutcome>, id: string)
    ensures TryCount(TryEvents(x, tries), id) == if x == id then |tries| else 0
  {
    if tries != [] {
      var n := |tries| - 1;
      TryCountOne(x, tries[..n], id);
      assert TryEvents(x, tries)[..n] == TryEvents(x, tries[..n]);
    }
  }

  lemma {:induction false} TryCountOutside(excess: seq<Container>, runs: seq<seq<StopOutcome>>, id: string)
    requires |runs| <= |excess| && forall k :: 0 <= k < |runs| ==> excess[k].id != id
    ensures TryCount(StopEvents(excess, runs), id) == 0
  {
    if runs != [] {
      var n := |runs| - 1;
      TryCountOutside(excess, runs[..n], id);
      TryCountConcat(StopEvents(excess, runs[..n]), TryEvents(excess[n].id, runs[n]), id);
      TryCountOne(excess[n].id, runs[n], id);
    }
  }

  lemma {:induction false} TriesBounded(excess: seq<Container>, runs: seq<seq<StopOutcome>>, id: string)
    requires |runs| <= |excess| && Distinct(IDs(excess))
    requires forall k :: 0 <= k < |runs| ==> Attempts(runs[k])
    ensures TryCount(StopEvents(excess, runs), id) <= MAX_ATTEMPTS
  {
    hide Attempts;
    if runs != [] {
      var n := |runs| - 1;
      TryCountConcat(StopEvents(excess, runs[..n]), TryEvents(excess[n].id, runs[n]), id);
      TryCountOne(excess[n].id, runs[n], id);
      AttemptsBounded(runs[n]);
      if excess[n].id == id {
        forall k | 0 <= k < n ensures excess[k].id != id {
          assert IDs(excess)[k] != IDs(excess)[n];
        }
        TryCountOutside(excess, runs[..n], id);
      } else {
        TriesBounded(excess, runs[..n], id);
      }
    }
  }

  lemma AttemptsBounded(tries: seq<StopOutcome>)
    requires Attempts(tries)
    ensures |tries| <= MAX_ATTEMPTS
  {
  }

  /** e is an attempt on one of the first containers, with an answer it got. */
  ghost predicate Attempted(excess: seq<Container>, runs: seq<seq<StopOutcome>>, e: CleanupEvent) {
    exists k :: 0 <= k < |runs| && k < |excess| && e.Try? && e.id == excess[k].id && e.outcome in runs[k]
  }

  lemma {:induction false} StopEventsMember(excess: seq<Container>, runs: seq<seq<StopOutcome>>, e: CleanupEvent)
    requires |runs| <= |excess|
    ensures e in StopEvents(excess, runs) <==> Attempted(excess, runs, e)
  {
    if runs != [] {
      var n := |runs| - 1;
      StopEventsMember(excess, runs[..n], e);
      TryEventsMember(excess[n].id, runs[n], e);
    }
  }

  lemma TryEventsMember(id: string, tries: seq<StopOutcome>, e: CleanupEvent)
    ensures e in TryEvents(id, tries) <==> e.Try? && e.id == id && e.outcome in tries
  {
    if e.Try? && e.id == id && e.outcome in tries {
      var i :| 0 <= i < |tries| && tries[i] == e.outcome;
      assert TryEvents(id, tries)[i] == e;
    }
  }

  lemma {:induction false} ImageEventsMember(images: seq<RemovedImageInfo>, answers: seq<ImageOutcome>, e: CleanupEvent)
    requires |answers| == |images| && e in ImageEvents(images, answers)
    ensures e.RemoveImage? && e.imageID != "" && exists i :: 0 <= i < |images| && images[i].imageID == e.imageID
  {
    var n := |images| - 1;
    if e in ImageEvents(images[..n], answers[..n]) {
      ImageEventsMember(images[..n], answers[..n], e);
    }
  }

  lemma {:induction false} CollectedMember(excess: seq<Container>, runs: seq<seq<StopOutcome>>, cleanupImages: bool,
                                           current: Container?, info: RemovedImageInfo)
    requires |runs| <= |excess|
    requires info in Collected(excess, runs, cleanupImages, current)
    ensures cleanupImages && current != null && info.imageID != current.imageID
    ensures exists k :: 0 <= k < |runs| && info == ImageOf(excess[k]) && Removed in runs[k]
  {
    var n := |runs| - 1;
    if info in Collected(excess, runs[..n], cleanupImages, current) {
      CollectedMember(excess, runs[..n], cleanupImages, current, info);
    }
  }

  lemma {:induction false} NoTriesInImages(images: seq<RemovedImageInfo>, answers: seq<ImageOutcome>, id: string)
    requires |answers| == |images|
    ensures TryCount(ImageEvents(images, answers), id) == 0
  {
    if images != [] {
      var n := |images| - 1;
      NoTriesInImages(images[..n], answers[..n], id);
      TryCountConcat(ImageEvents(images[..n], answers[..n]),
                     if images[n].imageID == "" then [] else [RemoveImage(images[n].imageID, answers[n])], id);
    }
  }

  /** The events of a removal that ended without an error or an abort are attempts, then images. */
  lemma RemovalEvents(excess: seq<Container>, cleanupImages: bool, current: Container?, before: seq<RemovedImageInfo>,
                      answers: Answers, result: RemovalResult, events: seq<CleanupEvent>, after: seq<RemovedImageInfo>)
    returns (images: seq<RemovedImageInfo>, imageAnswers: seq<ImageOutcome>)
    requires Removal(excess, cleanupImages, current, before, answers, result, events, after)
    ensures |answers.runs| <= |excess| && |imageAnswers| == |images|
    ensures forall k :: 0 <= k < |answers.runs| ==> Attempts(answers.runs[k])
    ensures events == StopEvents(excess, answers.runs) + ImageEvents(images, imageAnswers)
    ensures images == [] ||
            (result.AllRemoved? && cleanupImages &&
             images == before + Collected(excess, answers.runs, cleanupImages, current))
  {
    hide Gone, StopEvents, Collected, GoneCount, RemovedOf;
    var runs := answers.runs;
    if result.AllRemoved? && cleanupImages {
      images, imageAnswers := before + Collected(excess, runs, cleanupImages, current), answers.images;
    } else {
      images, imageAnswers := [], [];
    }
    if result == RemovalCanceled {
      var n := |runs| - 1;
      assert forall k :: 0 <= k < n ==> runs[..n][k] == runs[k];
    }
  }

  /** No container outside the list is stopped, and none is tried more than three times. */
  lemma RemovalIsBounded(excess: seq<Container>, cleanupImages: bool, current: Container?,
                         before: seq<RemovedImageInfo>, answers: Answers, result: RemovalResult,
                         events: seq<CleanupEvent>, after: seq<RemovedImageInfo>)
    requires Removal(excess, cleanupImages, current, before, answers, result, events, after) && Distinct(IDs(excess))
    ensures forall e :: e in events && e.Try? ==> e.id in IDs(excess)
    ensures forall id :: TryCount(events, id) <= 3
  {
    hide Removal, Attempts, StopEvents, ImageEvents, IDs;
    var images, imageAnswers := RemovalEvents(excess, cleanupImages, current, before, answers, result, events, after);
    var stops, removals := StopEvents(excess, answers.runs), ImageEvents(images, imageAnswers);
    forall e | e in events && e.Try? ensures e.id in IDs(excess) {
      StopEventsMember(excess, answers.runs, e);
      if e in removals {
        ImageEventsMember(images, imageAnswers, e);
      }
      var k :| 0 <= k < |excess| && e.id == excess[k].id;
      IDAt(excess, k);
    }
    forall id ensures TryCount(events, id) <= MAX_ATTEMPTS {
      TryCountConcat(stops, removals, id);
      TriesBounded(excess, answers.runs, id);
      NoTriesInImages(images, imageAnswers, id);
    }
  }

  lemma IDAt(cs: seq<Container>, k: nat)
    requires k < |cs|
    ensures cs[k].id in IDs(cs)
  {
    assert IDs(cs)[k] == cs[k].id;
  }

  /** Docker confirmed that the container is no longer there. */
  ghost predicate ConfirmedGone(events: seq<CleanupEvent>, id: string) {
    Try(id, Removed) in events || Try(id, NotFound) in events
  }

  /** Success means that every container of the list is confirmed gone. */
  lemma SuccessMeansGone(excess: seq<Container>, cleanupImages: bool, current: Container?,
                         before: seq<RemovedImageInfo>, answers: Answers, result: RemovalResult,
                         events: seq<CleanupEvent>, after: seq<RemovedImageInfo>)
    requires Removal(excess, cleanupImages, current, before, answers, result, events, after) && result.AllRemoved?
    ensures result.count == |excess|
    ensures forall c :: c in excess ==> ConfirmedGone(events, c.id)
  {
    hide StopEvents, ImageEvents, RemovedOf, Settled;
    var runs := answers.runs;
    GoneCountBounded(runs);
    forall c | c in excess ensures ConfirmedGone(events, c.id) {
      var k :| 0 <= k < |excess| && excess[k] == c;
      var e := Try(c.id, runs[k][|runs[k]| - 1]);
      StopEventsMember(excess, runs, e);
      assert e in StopEvents(excess, runs);
    }
  }

  /** An image is removed only after every container of the list is gone, and only if it was already
      waiting or belonged to an instance that this very run stopped and that ran another image. */
  lemma ImagesOnlyAfterAll(excess: seq<Container>, cleanupImages: bool, current: Container?,
                           before: seq<RemovedImageInfo>, answers: Answers, result: RemovalResult,
                           events: seq<CleanupEvent>, after: seq<RemovedImageInfo>, e: CleanupEvent)
    requires Removal(excess, cleanupImages, current, before, answers, result, events, after)
    requires e in events && e.RemoveImage?
    ensures result.AllRemoved? && cleanupImages
    ensures (exists info :: info in before && info.imageID == e.imageID)
            || (current != null && e.imageID != current.imageID
                && exists c :: c in excess && c.imageID == e.imageID && Try(c.id, Removed) in events)
  {
    hide Removal, StopEvents, ImageEvents, Attempts, Collected;
    var runs := answers.runs;
    var images, imageAnswers := RemovalEvents(excess, cleanupImages, current, before, answers, result, events, after);
    StopEventsMember(excess, runs, e);
    ImageEventsMember(images, imageAnswers, e);
    var i :| 0 <= i < |images| && images[i].imageID == e.imageID;
    var info := images[i];
    if info !in before {
      CollectedMember(excess, runs, cleanupImages, current, info);
      var k :| 0 <= k < |runs| && info == ImageOf(excess[k]) && Removed in runs[k];
      StopEventsMember(excess, runs, Try(excess[k].id, Removed));
      assert excess[k] in excess;
    }
  }

  lemma {:induction false} ImageAsked(images: seq<RemovedImageInfo>, answers: seq<ImageOutcome>,
                                      info: RemovedImageInfo)
    requires |answers| == |images| && info in images && info.imageID != ""
    ensures exists answer :: RemoveImage(info.imageID, answer) in ImageEvents(images, answers)
  {
    var n := |images| - 1;
    if images[n] == info {
      assert RemoveImage(info.imageID, answers[n]) in ImageEvents(images, answers);
    } else {
      ImageAsked(images[..n], answers[..n], info);
      var answer :| RemoveImage(info.imageID, answer) in ImageEvents(images[..n], answers[..n]);
      assert RemoveImage(info.imageID, answer) in ImageEvents(images, answers);
    }
  }

  lemma {:induction false} CollectedHas(excess: seq<Container>, runs: seq<seq<StopOutcome>>, current: Container, k: nat)
    requires k < |runs| <= |excess| && Attempts(runs[k]) && Removed in runs[k]
    requires excess[k].imageID != current.imageID
    ensures ImageOf(excess[k]) in Collected(excess, runs, true, current)
  {
    var n := |runs| - 1;
    if k < n {
      CollectedHas(excess, runs[..n], current, k);
    } else {
      LastRemoved(runs[k]);
    }
  }

  lemma LastRemoved(tries: seq<StopOutcome>)
    requires Attempts(tries) && Removed in tries
    ensures tries[|tries| - 1] == Removed
  {
  }

  /** What is left of the image list: nothing unless every container is gone; then the images that were
      removed or, with no images to clean up, what was waiting; after a cancellation nothing is lost. */
  lemma ImagesLeft(excess: seq<Container>, cleanupImages: bool, current: Container?,
                   before: seq<RemovedImageInfo>, answers: Answers, result: RemovalResult,
                   events: seq<CleanupEvent>, after: seq<RemovedImageInfo>)
    requires Removal(excess, cleanupImages, current, before, answers, result, events, after)
    ensures result.SomeFailed? ==> after == []
    ensures result == RemovalCanceled ==> before <= after
    ensures result.AllRemoved? && !cleanupImages ==> after == before
    ensures result.AllRemoved? && cleanupImages ==>
              forall info :: info in after ==> RemoveImage(info.imageID, ImageRemoved) in events
  {
    hide StopEvents, ImageEvents, Collected, RemovedOf, Settled, Gone;
    var runs := answers.runs;
    NoImagesNoneRemoved(answers.images);
    if result.AllRemoved? && !cleanupImages {
      NothingCollected(excess, runs, current);
    }
    if result.AllRemoved? && cleanupImages {
      var images := before + Collected(excess, runs, cleanupImages, current);
      forall info | info in after ensures RemoveImage(info.imageID, ImageRemoved) in events {
        RemovedAsked(images, answers.images, info);
      }
    }
  }

  lemma NoImagesNoneRemoved(answers: seq<ImageOutcome>)
    ensures |answers| == 0 ==> RemovedOf([], answers) == []
  {
  }

  lemma {:induction false} NothingCollected(excess: seq<Container>, runs: seq<seq<StopOutcome>>, current: Container?)
    requires |runs| <= |excess|
    ensures Collected(excess, runs, false, current) == []
  {
    if runs != [] {
      NothingCollected(excess, runs[..|runs| - 1], current);
    }
  }

  lemma {:induction false} RemovedAsked(images: seq<RemovedImageInfo>, answers: seq<ImageOutcome>,
                                        info: RemovedImageInfo)
    requires |answers| == |images| && info in RemovedOf(images, answers)
    ensures RemoveImage(info.imageID, ImageRemoved) in ImageEvents(images, answers)
  {
    var n := |images| - 1;
    if info in RemovedOf(images[..n], answers[..n]) {
      RemovedAsked(images[..n], answers[..n], info);
    }
  }

  /** Once all are gone, the images that were waiting and those of the instances this run stopped, if
      they ran another one, are all asked to be removed. */
  lemma AllImagesAsked(excess: seq<Container>, current: Container, before: seq<RemovedImageInfo>, answers: Answers,
                       result: RemovalResult, events: seq<CleanupEvent>, after: seq<RemovedImageInfo>)
    requires Removal(excess, true, current, before, answers, result, events, after) && result.AllRemoved?
    requires Distinct(IDs(excess))
    ensures forall info :: info in before && info.imageID != "" ==>
              exists answer :: RemoveImage(info.imageID, answer) in events
    ensures forall c :: c in excess && Try(c.id, Removed) in events && c.imageID !in {"", current.imageID} ==>
              exists answer :: RemoveImage(c.imageID, answer) in events
  {
    hide StopEvents, ImageEvents, Attempts, Collected, IDs, Gone, GoneCount, RemovedOf;
    var runs := answers.runs;
    var collected := Collected(excess, runs, true, current);
    var images := before + collected;
    forall info | info in images && info.imageID != ""
      ensures exists answer :: RemoveImage(info.imageID, answer) in events
    {
      ImageAsked(images, answers.images, info);
      var answer :| RemoveImage(info.imageID, answer) in ImageEvents(images, answers.images);
      assert RemoveImage(info.imageID, answer) in events;
    }
    forall c | c in excess && Try(c.id, Removed) in events && c.imageID !in {"", current.imageID}
      ensures exists answer :: RemoveImage(c.imageID, answer) in events
    {
      var e := Try(c.id, Removed);
      if e in ImageEvents(images, answers.images) {
        ImageEventsMember(images, answers.images, e);
      }
      StopEventsMember(excess, runs, e);
      var k :| 0 <= k < |runs| && k < |excess| && e.id == excess[k].id && e.outcome in runs[k];
      SameExcess(excess, k, c);
      CollectedHas(excess, runs, current, k);
      assert ImageOf(c) in images;
    }
  }

  lemma SameExcess(excess: seq<Container>, k: nat, c: Container)
    requires Distinct(IDs(excess)) && k < |excess| && c in excess && excess[k].id == c.id
    ensures excess[k] == c
  {
    var j :| 0 <= j < |excess| && excess[j] == c;
    assert IDs(excess)[j] == IDs(excess)[k];
  }

  /** After a call without an error every other instance of the scope and every listed ancestor is
      confirmed gone; the current instance is never stopped. */
  method RemoveExcessWatchtowerInstances(listing: Option<seq<Container>>, scope: string, cleanupImages: bool,
                                         imageList: ImageList?, current: Container?, client: CleanupClient)
    returns (count: nat, ok: bool, ghost events: seq<CleanupEvent>)
    modifies client, imageList
    ensures client.trace == old(client.trace) + events
    ensures forall id :: TryCount(events, id) <= 3
    ensures forall e :: e in events && e.Try? ==>
              listing.Some? && current != null &&
              exists c :: c in listing.value && c.id == e.id && Excess(scope, current, current.chain, c)
    ensures ok ==> listing.Some?
    ensures ok && current != null ==>
              forall c :: c in listing.value && Excess(scope, current, current.chain, c) ==> ConfirmedGone(events, c.id)
    ensures forall e :: e in events && e.RemoveImage? ==> ok && cleanupImages
    ensures !ok ==> count == 0
  {
    hide Removal, Excess, TryCount, IDs;
    events := [];
    NothingTried();
    if listing.None? {
      return 0, false, [];
    }
    var excess := GetExcessContainers(scope, current, listing.value);
    ExcessListed(scope, current, if current == null then None else current.chain, listing.value, excess);
    if excess == [] {
      return 0, true, [];
    }
    ghost var before := if imageList == null then [] else imageList.infos;
    var result;
    ghost var answers, after;
    result, answers, events, after := RemoveExcessContainers(excess, cleanupImages, current, imageList, client);
    RemovalIsBounded(excess, cleanupImages, current, before, answers, result, events, after);
    forall e | e in events && e.RemoveImage? ensures result.AllRemoved? && cleanupImages {
      ImagesOnlyAfterAll(excess, cleanupImages, current, before, answers, result, events, after, e);
    }
    if !result.AllRemoved? {
      return 0, false, events;
    }
    SuccessMeansGone(excess, cleanupImages, current, before, answers, result, events, after);
    count, ok := result.count, true;
  }

  lemma NothingTried()
    ensures forall id :: TryCount([], id) <= MAX_ATTEMPTS
  {
  }

  /** The list in terms of IDs. */
  lemma ExcessListed(scope: string, current: Container?, chain: Option<string>, all: seq<Container>,
                     excess: seq<Container>)
    requires ExcessOf(scope, current, chain, all, excess)
    ensures Distinct(IDs(excess))
    ensures forall id :: id in IDs(excess) ==>
              current != null && exists c :: c in all && c.id == id && Excess(scope, current, chain, c)
    ensures current != null ==> forall c :: c in all && Excess(scope, current, chain, c) ==>
              exists d :: d in excess && d.id == c.id
  {
    forall id | id in IDs(excess)
      ensures current != null && exists c :: c in all && c.id == id && Excess(scope, current, chain, c)
    {
      var k :| 0 <= k < |IDs(excess)| && IDs(excess)[k] == id;
      assert excess[k] in excess;
    }
    if current != null {
      forall c | c in all && Excess(scope, current, chain, c) ensures exists d :: d in excess && d.id == c.id {
        var k :| 0 <= k < |IDs(excess)| && IDs(excess)[k] == c.id;
        assert excess[k] in excess;
      }
    }
  }

  /** Along a history of self-updates, whatever the scopes: what counts as excess is exactly the
      ancestors still listed and the other instances of the scope, never the running one. */
  lemma ExcessIsAncestorsAndPeers(lineage: seq<Instance>, scope: string, current: Container, c: Container)
    requires Lineage(lineage) && Instance(current.id, current.chain) == lineage[|lineage| - 1]
    ensures Excess(scope, current, current.chain, c) <==>
            || c.id in LineageIDs(lineage)[..|lineage| - 1]
            || (c.id != current.id && c.isWatchtower
                && (c.scope == scope || (c.scope in {"", "none"} && scope in {"", "none"})))
  {
    InScopeIff(scope, c);
    var ids, n := LineageIDs(lineage), |lineage| - 1;
    AncestorsOldestFirst(lineage);
    assert current.id == ids[n];
  }
}
