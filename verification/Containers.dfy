/** Containers as the planner sees them (pkg/container/container.go): immutable
    metadata, and the three pieces of state a run rewrites. */
module Containers {
  import opened Text
  import opened Compose

  datatype Option<T> = None | Some(value: T)

  /** The labels that matter for dependencies; a missing label reads as the empty text. */
  datatype Labels = Labels(
    project: string,
    service: string,
    number: string,
    watchtowerDependsOn: string,
    composeDependsOn: DependsOnLabel)

  class Container {
    const id: string
    const name: string
    const imageID: string
    const labels: Labels
    const hostLinks: seq<string>
    const connectedContainer: Option<string>
    const isWatchtower: bool
    const monitorOnly: bool
    const verifies: bool
    const scope: string

    var stale: bool
    var linkedToRestarting: bool
    var chain: Option<string>

    constructor (id: string, rawName: string, imageID: string, labels: Labels, hostLinks: seq<string>,
                 connectedContainer: Option<string>, isWatchtower: bool, monitorOnly: bool, verifies: bool,
                 scope: string, chain: Option<string>)
      ensures this.id == id && name == NormalizeContainerName(rawName) && this.imageID == imageID
      ensures this.labels == labels && this.hostLinks == hostLinks && this.connectedContainer == connectedContainer
      ensures this.isWatchtower == isWatchtower && this.monitorOnly == monitorOnly && this.verifies == verifies
      ensures this.scope == scope
      ensures !stale && !linkedToRestarting && this.chain == chain
    {
      this.id, name, this.imageID, this.labels := id, NormalizeContainerName(rawName), imageID, labels;
      this.hostLinks, this.connectedContainer := hostLinks, connectedContainer;
      this.isWatchtower, this.monitorOnly, this.verifies := isWatchtower, monitorOnly, verifies;
      this.scope, stale, linkedToRestarting, this.chain := scope, false, false, chain;
    }

    predicate ToRestart()
      reads `stale, `linkedToRestarting
    {
      stale || linkedToRestarting
    }
  }

  // ----- identifiers

  function NameOrID(c: Container): string {
    if c.name != "" then c.name else c.id
  }

  function ResolveContainerIdentifier(c: Container): string {
    var l := c.labels;
    if l.project != "" && l.service != "" && l.project + "-" + l.service + "-" <= c.name then c.name
    else if l.project != "" && l.service != "" && l.number != "" then l.project + "-" + l.service + "-" + l.number
    else if l.project != "" && l.service != "" then l.project + "-" + l.service
    else if l.service != "" then l.service
    else NameOrID(c)
  }

  /** The key under which the sorter files a container. */
  function Identifier(c: Container): string {
    NormalizeContainerName(ResolveContainerIdentifier(c))
  }

  function Identifiers(cs: seq<Container>): (ids: seq<string>)
    ensures |ids| == |cs| && forall i :: 0 <= i < |cs| ==> ids[i] == Identifier(cs[i])
  {
    if cs == [] then [] else [Identifier(cs[0])] + Identifiers(cs[1..])
  }

  ghost predicate DistinctIdentifiers(cs: seq<Container>) {
    Distinct(Identifiers(cs))
  }

  // ----- links

  /** Adds the project in front of a name that does not carry it yet. */
  function Qualify(project: string, name: string): string {
    if project != "" && !(project + "-" <= name) then project + "-" + name else name
  }

  function WatchtowerEntry(entry: string): seq<string> {
    if entry == "" then [] else [NormalizeContainerName(TrimSpace(entry))]
  }

  /** Links of the Watchtower depends-on label; None when the label is absent or empty. */
  function WatchtowerLinks(c: Container): Option<seq<string>> {
    if c.labels.watchtowerDependsOn == "" then None
    else Some(Collect(WatchtowerEntry, Split(c.labels.watchtowerDependsOn, ',')))
  }

  function QualifyAll(project: string, services: seq<string>): (links: seq<string>)
    ensures |links| == |services|
    ensures forall i :: 0 <= i < |services| ==> links[i] == Qualify(project, NormalizeContainerName(services[i]))
  {
    seq(|services|, i requires 0 <= i < |services| => Qualify(project, NormalizeContainerName(services[i])))
  }

  ghost function ComposeLinks(c: Container): Option<seq<string>> {
    var links := QualifyAll(c.labels.project, DependsOnServices(c.labels.composeDependsOn));
    if links == [] then None else Some(links)
  }

  /** The container named before the first colon of a legacy link; "" for an invalid link. */
  function HostLinkTarget(link: string): string {
    if ':' in link then Split(link, ':')[0] else ""
  }

  function HostLinkTargets(link: string): seq<string> {
    if HostLinkTarget(link) == "" then [] else [HostLinkTarget(link)]
  }

  function HostConfigLinks(c: Container): seq<string> {
    QualifyAll(c.labels.project,
               Collect(HostLinkTargets, c.hostLinks) +
               if c.connectedContainer.Some? then [c.connectedContainer.value] else [])
  }

  function WithoutSelf(links: seq<string>, name: string): (kept: seq<string>)
    ensures forall x :: x in kept <==> x in links && x != name
  {
    if links == [] then []
    else
      var n := |links| - 1;
      assert links == links[..n] + [links[n]];
      WithoutSelf(links[..n], name) + if links[n] == name then [] else [links[n]]
  }

  /** The first source that has links wins: Watchtower label, Compose label, host configuration. */
  ghost function Links(c: Container): seq<string> {
    var links := if WatchtowerLinks(c).Some? then WatchtowerLinks(c).value
                 else if ComposeLinks(c).Some? then ComposeLinks(c).value
                 else HostConfigLinks(c);
    WithoutSelf(links, c.name)
  }

  method GetLinksFromWatchtowerLabel(c: Container) returns (links: Option<seq<string>>)
    ensures links == WatchtowerLinks(c)
  {
    var value := c.labels.watchtowerDependsOn;
    if value == "" {
      return None;
    }
    var entries, normalized := Split(value, ','), [];
    for i := 0 to |entries|
      invariant normalized == Collect(WatchtowerEntry, entries[..i])
    {
      CollectNext(WatchtowerEntry, entries, i);
      if entries[i] == "" {
        continue;
      }
      normalized := normalized + [NormalizeContainerName(TrimSpace(entries[i]))];
    }
    CollectAll(WatchtowerEntry, entries);
    links := Some(normalized);
  }

  method QualifyServices(project: string, services: seq<string>) returns (links: seq<string>)
    ensures links == QualifyAll(project, services)
  {
    links := [];
    for i := 0 to |services|
      invariant |links| == i
      invariant forall k :: 0 <= k < i ==> links[k] == Qualify(project, NormalizeContainerName(services[k]))
    {
      var service := NormalizeContainerName(services[i]);
      if project != "" && !(project + "-" <= service) {
        service := project + "-" + service;
      }
      links := links + [service];
    }
  }

  method GetLinksFromComposeLabel(c: Container) returns (links: Option<seq<string>>)
    ensures links == ComposeLinks(c)
  {
    if c.labels.composeDependsOn == NO_LABEL {
      return None;
    }
    var services := ParseDependsOnLabel(c.labels.composeDependsOn);
    var normalized := QualifyServices(c.labels.project, services);
    links := if normalized == [] then None else Some(normalized);
  }

  method GetLinksFromHostConfig(c: Container) returns (links: seq<string>)
    ensures links == HostConfigLinks(c)
  {
    links := [];
    ghost var targets := [];
    for i := 0 to |c.hostLinks|
      invariant links == QualifyAll(c.labels.project, targets)
      invariant targets == Collect(HostLinkTargets, c.hostLinks[..i])
    {
      CollectNext(HostLinkTargets, c.hostLinks, i);
      var link := c.hostLinks[i];
      if ':' !in link {
        continue;
      }
      var target := Split(link, ':')[0];
      if target == "" {
        continue;
      }
      targets := targets + [target];
      links := links + [Qualify(c.labels.project, NormalizeContainerName(target))];
    }
    CollectAll(HostLinkTargets, c.hostLinks);
    if c.connectedContainer.Some? {
      links := links + [Qualify(c.labels.project, NormalizeContainerName(c.connectedContainer.value))];
    }
  }

  method FilterSelfReferences(links: seq<string>, name: string) returns (filtered: seq<string>)
    ensures filtered == WithoutSelf(links, name)
  {
    filtered := [];
    for i := 0 to |links|
      invariant filtered == WithoutSelf(links[..i], name)
    {
      assert links[..i + 1][..i] == links[..i];
      if links[i] != name {
        filtered := filtered + [links[i]];
      }
    }
    assert links[..|links|] == links;
  }

  method GetLinks(c: Container) returns (links: seq<string>)
    ensures links == Links(c)
  {
    var found := GetLinksFromWatchtowerLabel(c);
    if found.None? {
      found := GetLinksFromComposeLabel(c);
    }
    if found.None? {
      var hostLinks := GetLinksFromHostConfig(c);
      found := Some(hostLinks);
    }
    links := FilterSelfReferences(found.value, c.name);
  }

  /** The containers that pass, in order. */
  function Filtered(all: seq<Container>, filter: Container -> bool): seq<Container> {
    if all == [] then []
    else
      var n := |all| - 1;
      Filtered(all[..n], filter) + if filter(all[n]) then [all[n]] else []
  }

  lemma {:induction false} FilteredMember(all: seq<Container>, filter: Container -> bool)
    ensures forall c :: c in Filtered(all, filter) <==> c in all && filter(c)
    ensures Distinct(all) ==> Distinct(Filtered(all, filter))
  {
    if all != [] {
      var n := |all| - 1;
      FilteredMember(all[..n], filter);
      assert all == all[..n] + [all[n]];
      assert Distinct(all) ==> all[n] !in all[..n];
    }
  }
}
