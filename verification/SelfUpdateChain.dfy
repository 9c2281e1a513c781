/** The chain label of self-updates: each new Watchtower instance carries the IDs of the
    instances it descends from (internal/actions/update.go), which are read back when looking for
    parents (pkg/container/container_source.go) and for instances to remove (internal/actions/cleanup.go). */
module SelfUpdateChain {
  import opened Text
  import opened Containers
  import opened UpdateRun

  /** A Watchtower container that ran at some time, with the chain label it was created with. */
  datatype Instance = Instance(id: string, chain: Option<string>)

  function InstanceID(i: Instance): string { i.id }

  ghost function LineageIDs(lineage: seq<Instance>): seq<string> {
    Keys(InstanceID, lineage)
  }

  predicate WellFormedID(id: string) {
    id != "" && ',' !in id && SpaceFree(id)
  }

  /** The instances of a history of self-updates, oldest first. The first was started by hand; each
      later one was started by the update of its predecessor, under an ID not used before. */
  ghost predicate Lineage(lineage: seq<Instance>) {
    && lineage != []
    && (lineage[0].chain == None || lineage[0].chain == Some(""))
    && (forall i, j :: 0 <= i && j == i + 1 < |lineage| ==>
          lineage[j].chain == Some(NextChain(lineage[i].chain, lineage[i].id)))
    && (forall i :: 0 <= i < |lineage| ==> WellFormedID(lineage[i].id))
    && Distinct(LineageIDs(lineage))
  }

  /** The IDs a chain label lists. */
  function ChainIDs(chain: Option<string>): seq<string> {
    if chain.None? || chain.value == "" then [] else Split(chain.value, ',')
  }

  /** The label an instance carries is the comma-joined list of its predecessors. */
  lemma {:induction false} ChainIsJoin(lineage: seq<Instance>, n: nat)
    requires Lineage(lineage) && 0 < n < |lineage|
    ensures lineage[n].chain == Some(Join(LineageIDs(lineage)[..n], ','))
    ensures lineage[n].chain != Some("")
  {
    var ids, m := LineageIDs(lineage), n - 1;
    assert ids[..n] == ids[..m] + [ids[m]];
    assert lineage[n].chain == Some(NextChain(lineage[m].chain, ids[m]));
    if m > 0 {
      ChainIsJoin(lineage, m);
      JoinAppend(ids[..m], ids[m], ',');
    }
  }

  /** Over any sequence of self-updates the running instance's label splits back to exactly its
      ancestors, oldest first. */
  lemma AncestorsOldestFirst(lineage: seq<Instance>)
    requires Lineage(lineage)
    ensures ChainIDs(lineage[|lineage| - 1].chain) == LineageIDs(lineage)[..|lineage| - 1]
  {
    var ids, n := LineageIDs(lineage), |lineage| - 1;
    if n > 0 {
      ChainIsJoin(lineage, n);
      SplitJoin(ids[..n], ',');
    }
  }

  // ----- reading the label

  ghost predicate WatchtowerParent(currentID: string, chain: string) {
    currentID != "" && chain != "" && exists id :: id in Split(chain, ',') && TrimSpace(id) == currentID
  }

  method IsWatchtowerParent(currentID: string, chain: string) returns (found: bool)
    ensures found <==> WatchtowerParent(currentID, chain)
  {
    if currentID == "" || chain == "" {
      return false;
    }
    var ids := Split(chain, ',');
    for i := 0 to |ids|
      invariant forall k :: 0 <= k < i ==> TrimSpace(ids[k]) != currentID
    {
      if TrimSpace(ids[i]) == currentID {
        assert ids[i] in ids;
        return true;
      }
    }
    found := false;
  }

  /** A label that is not there reads as the empty text. */
  function LabelText(chain: Option<string>): string {
    if chain.Some? then chain.value else ""
  }

  /** An ID passes as a parent of the running instance exactly when it is one of its ancestors;
      the running instance never passes as its own. */
  lemma ParentIffAncestor(lineage: seq<Instance>, id: string)
    requires Lineage(lineage)
    ensures var n := |lineage| - 1;
            && (WatchtowerParent(id, LabelText(lineage[n].chain)) <==> id in LineageIDs(lineage)[..n])
            && !WatchtowerParent(lineage[n].id, LabelText(lineage[n].chain))
  {
    var ids, n := LineageIDs(lineage), |lineage| - 1;
    AncestorsOldestFirst(lineage);
    forall i | 0 <= i < n ensures TrimSpace(ids[i]) == ids[i] != "" {
      assert WellFormedID(lineage[i].id);
      TrimSpaceFree(ids[i]);
    }
    assert forall i :: 0 <= i < n ==> ids[..n][i] == ids[i];
    if n > 0 {
      ChainIsJoin(lineage, n);
    }
  }

  /** A label written by hand may pad its entries. */
  lemma PaddedParent(entries: seq<string>, i: nat, before: string, id: string, after: string)
    requires i < |entries| && (forall e :: e in entries ==> ',' !in e) && id != "" && Trimmed(id)
    requires Blank(before) && Blank(after) && entries[i] == before + id + after
    ensures WatchtowerParent(id, Join(entries, ','))
  {
    hide TrimSpace, IsSpace;
    SplitJoin(entries, ',');
    TrimPadded(before, id, after);
    assert entries[i] in Split(Join(entries, ','), ',');
    NonEmptyPart(Join(entries, ','), entries[i]);
  }

  lemma NonEmptyPart(text: string, part: string)
    requires part in Split(text, ',') && part != ""
    ensures text != ""
  {
  }

  /** No instance, running or superseded, is listed in its own label, so a guard that looks an instance
      up in the label it carries never fires. */
  lemma NeverOwnParent(lineage: seq<Instance>, i: nat)
    requires Lineage(lineage) && i < |lineage|
    ensures !WatchtowerParent(lineage[i].id, LabelText(lineage[i].chain))
  {
    var shorter := lineage[..i + 1];
    assert forall k :: 0 <= k <= i ==> LineageIDs(shorter)[k] == LineageIDs(lineage)[k];
    ParentIffAncestor(shorter, lineage[i].id);
  }

  /** The listed containers the chain of the current one names, in listing order. */
  ghost function ChainedContainer(current: Container, chain: Option<string>): Container -> seq<Container> {
    (c: Container) => if c.id in ChainIDs(chain) && c.id != current.id then [c] else []
  }

  ghost function Chained(all: seq<Container>, current: Container, chain: Option<string>): seq<Container> {
    Collect(ChainedContainer(current, chain), all)
  }

  method GetChainedContainers(all: seq<Container>, current: Container) returns (chained: seq<Container>)
    ensures chained == Chained(all, current, current.chain)
  {
    chained := [];
    if current.chain.None? || current.chain.value == "" {
      NothingChained(all, current);
      return;
    }
    var ids := Split(current.chain.value, ',');
    var chainSet := {};
    for i := 0 to |ids|
      invariant chainSet == Elements(ids[..i])
    {
      chainSet := chainSet + {ids[i]};
    }
    assert ids[..|ids|] == ids;
    for i := 0 to |all|
      invariant chained == Collect(ChainedContainer(current, current.chain), all[..i])
    {
      CollectNext(ChainedContainer(current, current.chain), all, i);
      assert all[i].id in chainSet <==> all[i].id in Elements(ids);
      if all[i].id in chainSet && all[i].id != current.id {
        chained := chained + [all[i]];
      }
    }
    CollectAll(ChainedContainer(current, current.chain), all);
  }

  lemma {:induction false} NothingChained(all: seq<Container>, current: Container)
    requires ChainIDs(current.chain) == []
    ensures Chained(all, current, current.chain) == []
  {
    if all != [] {
      NothingChained(all[..|all| - 1], current);
    }
  }

  /** The containers gathered for removal are exactly the ancestors still listed. */
  lemma ChainedAreListedAncestors(lineage: seq<Instance>, all: seq<Container>, current: Container)
    requires Lineage(lineage)
    requires Instance(current.id, current.chain) == lineage[|lineage| - 1]
    ensures forall c :: c in Chained(all, current, current.chain) <==>
              c in all && c.id in LineageIDs(lineage)[..|lineage| - 1]
  {
    var ids, n := LineageIDs(lineage), |lineage| - 1;
    AncestorsOldestFirst(lineage);
    assert current.id == ids[n];
    forall c ensures c in Chained(all, current, current.chain) <==> c in all && c.id in ids[..n] {
      CollectMember(ChainedContainer(current, current.chain), all, c);
    }
  }
}
