/** How labels, names and legacy links are read (pkg/compose, pkg/container/container.go): padding,
    slashes, qualifiers and the precedence of the sources. */
module LinkLaws {
  import opened Text
  import opened Compose
  import opened Containers
  import opened Numerals
  import opened Scan

  // ----- labels

  lemma WithColon(before: string, middle: string, rest: string) returns (tail: string)
    requires Blank(before) && middle != "" && !IsSpace(middle[0])
    ensures TrimSpace(before + middle + ":" + rest) == middle + [':'] + tail
  {
    hide IsSpace;
    ColonStays(rest);
    tail := TrimRight(":" + rest)[1..];
    assert before + middle + ":" + rest == before + (middle + (":" + rest));
    TrimLeftPad(before, middle + (":" + rest));
    TrimRightTail(middle, ":" + rest);
  }

  /** An entry of a legacy Compose label names what stands before its first colon, without padding. */
  lemma EntryReads(before: string, name: string, after: string, rest: string)
    requires Blank(before) && Blank(after) && Trimmed(name) && name != "" && ':' !in name && ':' !in after
    ensures EntryService(before + name + after + ":" + rest) == name
    ensures EntryService(before + name + after) == name
  {
    hide IsSpace, TrimSpace, Split, TrimLeft, TrimRight;
    assert before + (name + after) + ":" + rest == before + name + after + ":" + rest;
    var tail := WithColon(before, name + after, rest);
    SplitFirst(name + after, tail, ':');
    assert "" + name + after == name + after && "" + name + "" == name;
    TrimPadded("", name, after);
    TrimPadded(before, name, after);
    TrimPadded("", name, "");
    SplitWhole(name, ':');
  }

  lemma {:induction false} ColonStays(rest: string)
    ensures TrimRight(":" + rest) != "" && TrimRight(":" + rest)[0] == ':'
    ensures TrimRight(":" + rest) == ":" + TrimRight(":" + rest)[1..]
  {
    if rest != "" {
      var n := |rest| - 1;
      assert (":" + rest)[..|":" + rest| - 1] == ":" + rest[..n];
      ColonStays(rest[..n]);
    }
  }

  /** Trimming on the right stops inside a tail that is not all blank. */
  lemma {:induction false} TrimRightTail(head: string, tail: string)
    requires TrimRight(tail) != ""
    ensures TrimRight(head + tail) == head + TrimRight(tail)
  {
    var n := |tail| - 1;
    if tail != "" && IsSpace(tail[n]) {
      assert (head + tail)[..|head + tail| - 1] == head + tail[..n];
      TrimRightTail(head, tail[..n]);
    }
  }

  /** The project is put in front of a service exactly once. */
  lemma QualifiedOnce(project: string, name: string)
    ensures Qualify(project, Qualify(project, name)) == Qualify(project, name)
    ensures project != "" ==> project + "-" <= Qualify(project, name)
    ensures project == "" || project + "-" <= name ==> Qualify(project, name) == name
    ensures Qualify(project, name)[|Qualify(project, name)| - |name|..] == name
  {
  }

  /** A Watchtower entry names a container, with or without padding and slash. */
  ghost predicate NamesContainer(entry: string, name: string) {
    exists before, slash, after ::
      Blank(before) && Blank(after) && slash in {"", "/"} && entry == before + (slash + name) + after
  }

  /** A name that needs neither trimming nor the removal of a slash. */
  predicate CleanName(name: string) {
    name != "" && Trimmed(name) && name[0] != '/' && ',' !in name
  }

  lemma EntryNames(entry: string, name: string)
    requires NamesContainer(entry, name) && CleanName(name)
    ensures WatchtowerEntry(entry) == [name]
  {
    var before, slash, after :|
      Blank(before) && Blank(after) && slash in {"", "/"} && entry == before + (slash + name) + after;
    var inner := slash + name;
    SlashIsNoSpace();
    assert slash == "" ==> inner == name;
    assert slash == "/" ==> inner[1..] == name;
    TrimPadded(before, inner, after);
    assert entry[|before|] == inner[0];
  }

  lemma SlashIsNoSpace()
    ensures !IsSpace('/')
  {
    BlankCodes('/');
  }

  lemma {:induction false} EntriesName(entries: seq<string>, names: seq<string>)
    requires |entries| == |names|
    requires forall i :: 0 <= i < |entries| ==> NamesContainer(entries[i], names[i]) && CleanName(names[i])
    ensures Collect(WatchtowerEntry, entries) == names
  {
    hide WatchtowerEntry, NamesContainer, CleanName;
    if entries != [] {
      var n := |entries| - 1;
      EntriesName(entries[..n], names[..n]);
      EntryNames(entries[n], names[n]);
      assert names == names[..n] + [names[n]];
    }
  }

  /** The Watchtower label lists the containers its comma entries name, in order; and a container whose
      label names it itself is self-dependent. */
  lemma WatchtowerLabelReads(c: Container, entries: seq<string>, names: seq<string>)
    requires entries != [] && |entries| == |names| && forall e :: e in entries ==> ',' !in e
    requires forall i :: 0 <= i < |entries| ==> NamesContainer(entries[i], names[i]) && CleanName(names[i])
    requires c.labels.watchtowerDependsOn == Join(entries, ',')
    ensures WatchtowerLinks(c) == Some(names)
    ensures Links(c) == WithoutSelf(names, c.name)
    ensures HasSelfDependency(c) <==> c.name in names
  {
    hide WatchtowerEntry, NamesContainer, CleanName, ComposeLinks, HostConfigLinks;
    SplitJoin(entries, ',');
    EntriesName(entries, names);
    if Join(entries, ',') == "" {
      assert Split("", ',') == [""];
      EmptyNamesNothing(entries[0], names[0]);
    }
  }

  lemma EmptyNamesNothing(entry: string, name: string)
    requires NamesContainer(entry, name) && CleanName(name)
    ensures entry != ""
  {
  }

  // ----- which source counts

  /** Labels the user sets for Watchtower make every other source irrelevant. */
  lemma WatchtowerLabelWins(c: Container, d: Container)
    requires c.labels.watchtowerDependsOn == d.labels.watchtowerDependsOn != "" && c.name == d.name
    ensures Links(c) == Links(d)
  {
  }

  /** Without one, a Compose label that names services makes the host configuration irrelevant. */
  lemma ComposeLabelWins(c: Container, d: Container)
    requires c.labels == d.labels && c.labels.watchtowerDependsOn == "" && c.name == d.name
    requires DependsOnServices(c.labels.composeDependsOn) != []
    ensures Links(c) == Links(d)
  {
    hide DependsOnServices;
  }

  lemma TargetRead(target: string, alias: string)
    requires target != "" && ':' !in target
    ensures HostLinkTargets(target + ":" + alias) == [target]
  {
    SplitFirst(target, alias, ':');
    assert (target + ":" + alias)[|target|] == ':';
  }

  lemma {:induction false} TargetsRead(links: seq<string>, targets: seq<string>, aliases: seq<string>)
    requires |links| == |targets| == |aliases|
    requires forall i :: 0 <= i < |links| ==>
               targets[i] != "" && ':' !in targets[i] && links[i] == targets[i] + ":" + aliases[i]
    ensures Collect(HostLinkTargets, links) == targets
  {
    hide HostLinkTargets;
    if links != [] {
      var n := |links| - 1;
      TargetsRead(links[..n], targets[..n], aliases[..n]);
      TargetRead(targets[n], aliases[n]);
      assert targets == targets[..n] + [targets[n]];
    }
  }

  /** Legacy links of the form target:alias name their targets, and the container whose network is
      shared comes last. */
  lemma HostLinksRead(c: Container, targets: seq<string>, aliases: seq<string>)
    requires |c.hostLinks| == |targets| == |aliases| && c.labels.project == ""
    requires forall i :: 0 <= i < |targets| ==>
               targets[i] != "" && ':' !in targets[i] && targets[i][0] != '/'
               && c.hostLinks[i] == targets[i] + ":" + aliases[i]
    requires c.connectedContainer.Some? ==> c.connectedContainer.value != "" && c.connectedContainer.value[0] != '/'
    ensures HostConfigLinks(c) == targets + if c.connectedContainer.Some? then [c.connectedContainer.value] else []
  {
    TargetsRead(c.hostLinks, targets, aliases);
  }

  // ----- identifiers

  /** A replica without a default name is filed under project, service and number, so that the link
      project-service stands for it; without a number it is filed under project and service. */
  lemma ReplicaIdentifier(c: Container)
    requires c.labels.project != "" && c.labels.service != ""
    requires !(c.labels.project + "-" + c.labels.service + "-" <= c.name)
    ensures Numeral(c.labels.number) ==>
              Numbered(ResolveContainerIdentifier(c), c.labels.project + "-" + c.labels.service)
    ensures c.labels.number == "" ==> ResolveContainerIdentifier(c) == c.labels.project + "-" + c.labels.service
  {
    hide Spells;
    if Numeral(c.labels.number) {
      NumeralNotEmpty(c.labels.number);
      var id, link := ResolveContainerIdentifier(c), c.labels.project + "-" + c.labels.service;
      assert id == link + "-" + c.labels.number;
    }
  }

  lemma NumeralNotEmpty(text: string)
    requires Numeral(text)
    ensures text != ""
  {
    var sign, k, n :| Spells(text, sign, k, n);
    DecimalValue(n);
  }

  /** Replicas of one service with different numbers have different identifiers. */
  lemma ReplicasDiffer(c: Container, d: Container)
    requires c.labels.project == d.labels.project != "" && c.labels.service == d.labels.service != ""
    requires !(c.labels.project + "-" + c.labels.service + "-" <= c.name)
    requires !(d.labels.project + "-" + d.labels.service + "-" <= d.name)
    requires c.labels.number != "" && d.labels.number != "" && c.labels.number != d.labels.number
    ensures ResolveContainerIdentifier(c) != ResolveContainerIdentifier(d)
  {
    var link := c.labels.project + "-" + c.labels.service + "-";
    assert ResolveContainerIdentifier(c)[|link|..] == c.labels.number;
    assert ResolveContainerIdentifier(d)[|link|..] == d.labels.number;
  }

  /** A container with a default name keeps it; one with only a service is filed under it, and any other
      one under its name, or its ID if it has none. */
  lemma OtherIdentifiers(c: Container)
    ensures (c.labels.project != "" && c.labels.service != ""
             && c.labels.project + "-" + c.labels.service + "-" <= c.name) ==> ResolveContainerIdentifier(c) == c.name
    ensures c.labels.project == "" && c.labels.service != "" ==> ResolveContainerIdentifier(c) == c.labels.service
    ensures c.labels.service == "" && c.name != "" ==> ResolveContainerIdentifier(c) == c.name
    ensures c.labels.service == "" && c.name == "" ==> ResolveContainerIdentifier(c) == c.id
  {
  }
}
