/** UpdateImplicitRestart (internal/actions/update.go): containers linked to restarting ones
    restart too. The passes compute a least fixpoint, so the order of the containers and of
    every map iteration is irrelevant. */
module ImplicitRestart {
  import opened Text
  import opened Containers

  /** The project label, or what the container name puts before its first hyphen. */
  function GetProject(c: Container): string {
    if c.labels.project != "" then c.labels.project
    else if '-' in c.name then Split(c.name, '-')[0]
    else ""
  }

  /** A link with exactly one hyphen reads as project and service. */
  predicate NamesProject(link: string) {
    |Split(link, '-')| == 2
  }

  /** The three ways a link can stand for a container. */
  predicate LinkMatches(link: string, d: Container) {
    || link == d.name
    || (if NamesProject(link)
        then GetProject(d) == Split(link, '-')[0] && Contains(d.name, Split(link, '-')[1])
        else Contains(d.name, link))
  }

  ghost predicate MatchesMember(c: Container, members: set<Container>) {
    exists link, d :: link in Links(c) && d in members && LinkMatches(link, d)
  }

  /** No container of cs stays out of the set while one of its links matches a member. */
  ghost predicate Closed(cs: seq<Container>, members: set<Container>) {
    forall c :: c in cs && MatchesMember(c, members) ==> c in members
  }

  /** least is closed, contains the start, and lies inside every other such set of listed containers. */
  ghost predicate LeastClosed(all: seq<Container>, cs: seq<Container>, start: set<Container>, least: set<Container>) {
    && start <= least <= Elements(all)
    && Closed(cs, least)
    && InsideEveryClosed(all, cs, start, least)
  }

  ghost predicate InsideEveryClosed(all: seq<Container>, cs: seq<Container>, start: set<Container>,
                                    members: set<Container>) {
    forall s: set<Container> {:trigger Closed(cs, s)} ::
      s <= Elements(all) && start <= s && Closed(cs, s) ==> members <= s
  }

  /** The least closed set does not depend on the order in which the lists name the containers. */
  lemma LeastClosedUnique(all: seq<Container>, cs: seq<Container>, all': seq<Container>, cs': seq<Container>,
                          start: set<Container>, a: set<Container>, b: set<Container>)
    requires Elements(all) == Elements(all') && Elements(cs) == Elements(cs')
    requires LeastClosed(all, cs, start, a) && LeastClosed(all', cs', start, b)
    ensures a == b
  {
    hide MatchesMember;
    assert forall c :: c in cs <==> c in Elements(cs);
    assert forall c :: c in cs' <==> c in Elements(cs');
    assert Closed(cs, b) && Closed(cs', a);
  }

  // ----- what a link follows

  predicate HyphenFree(text: string) {
    '-' !in text
  }

  /** The part occurs in the text. */
  ghost predicate Holds(text: string, part: string) {
    exists before, after :: text == before + part + after
  }

  /** The container belongs to this project by its label or, without one, by its name. */
  predicate OfProject(d: Container, p: string) {
    if d.labels.project != "" then d.labels.project == p
    else if '-' in d.name then p + "-" <= d.name
    else p == ""
  }

  /** The link reads as a project and a service, joined by the only hyphen. */
  ghost predicate Reads(link: string, p: string, s: string) {
    HyphenFree(p) && HyphenFree(s) && link == p + "-" + s
  }

  /** A link follows the container of that very name; one that reads as project and service, the
      containers of the project whose names hold the service; any other, the containers whose names
      hold the link. */
  ghost predicate Follows(link: string, d: Container) {
    || link == d.name
    || (exists p, s :: Reads(link, p, s) && OfProject(d, p) && Holds(d.name, s))
    || ((forall p, s :: !Reads(link, p, s)) && Holds(d.name, link))
  }

  lemma ContainsHolds(text: string, part: string)
    ensures Contains(text, part) <==> Holds(text, part)
  {
    if Contains(text, part) {
      var i :| 0 <= i <= |text| && part <= text[i..];
      assert text == text[..i] + part + text[i + |part|..];
    }
    if Holds(text, part) {
      var before, after :| text == before + part + after;
      assert text[|before|..] == part + after;
    }
  }

  lemma ReadsSplit(link: string, p: string, s: string)
    ensures Reads(link, p, s) <==> Split(link, '-') == [p, s]
  {
    if Reads(link, p, s) {
      SplitConcat(p, s, '-');
      SplitWhole(p, '-');
      SplitWhole(s, '-');
    }
    if Split(link, '-') == [p, s] {
      SplitParts(link, '-');
      JoinSplit(link, '-');
      assert p in [p, s] && s in [p, s];
      assert Join([s], '-') == s;
    }
  }

  lemma NamesProjectReads(link: string)
    ensures NamesProject(link) ==> Reads(link, Split(link, '-')[0], Split(link, '-')[1])
    ensures forall p, s :: Reads(link, p, s) ==> NamesProject(link) && Split(link, '-') == [p, s]
  {
    var parts := Split(link, '-');
    if NamesProject(link) {
      assert parts == [parts[0], parts[1]];
      ReadsSplit(link, parts[0], parts[1]);
    }
    forall p, s | Reads(link, p, s) ensures Split(link, '-') == [p, s] {
      ReadsSplit(link, p, s);
    }
  }

  lemma ProjectIs(d: Container, p: string)
    requires HyphenFree(p)
    ensures GetProject(d) == p <==> OfProject(d, p)
  {
    if d.labels.project == "" && '-' in d.name {
      var i := FirstHyphen(d.name);
      var q, rest := d.name[..i], d.name[i + 1..];
      assert d.name == q + "-" + rest;
      SplitFirst(q, rest, '-');
      if p + "-" <= d.name {
        FirstHyphenUnique(p, d.name[|p| + 1..], q, rest);
      }
    }
  }

  lemma {:induction false} FirstHyphen(text: string) returns (i: nat)
    requires '-' in text
    ensures i < |text| && text[i] == '-' && HyphenFree(text[..i])
  {
    if text[0] == '-' {
      i := 0;
    } else {
      var j := FirstHyphen(text[1..]);
      i := j + 1;
      assert text[..i] == [text[0]] + text[1..][..j];
    }
  }

  lemma FirstHyphenUnique(p: string, a: string, q: string, b: string)
    requires HyphenFree(p) && HyphenFree(q) && p + "-" + a == q + "-" + b
    ensures p == q
  {
    SplitFirst(p, a, '-');
    SplitFirst(q, b, '-');
    assert Split(p + "-" + a, '-')[0] == p;
  }

  /** Exactly these links match exactly these containers. */
  lemma MatchesWhatItFollows(link: string, d: Container)
    ensures LinkMatches(link, d) <==> Follows(link, d)
  {
    hide GetProject, OfProject, Contains, Holds, Split, Reads;
    NamesProjectReads(link);
    ContainsHolds(d.name, link);
    if NamesProject(link) {
      var p, s := Split(link, '-')[0], Split(link, '-')[1];
      ReadsHyphenFree(link, p, s);
      ProjectIs(d, p);
      ContainsHolds(d.name, s);
    }
  }

  lemma ReadsHyphenFree(link: string, p: string, s: string)
    requires Reads(link, p, s)
    ensures HyphenFree(p) && HyphenFree(s)
  {
  }

  /** A dependent restarts with any container its links follow. */
  lemma FollowersRestart(all: seq<Container>, cs: seq<Container>, start: set<Container>, least: set<Container>,
                         c: Container, link: string, d: Container)
    requires LeastClosed(all, cs, start, least)
    requires c in cs && link in Links(c) && d in least && Follows(link, d)
    ensures c in least
  {
    hide Links, LinkMatches, Follows;
    MatchesWhatItFollows(link, d);
    assert MatchesMember(c, least);
  }

  /** A container that follows none of the others restarts only if it did at the start. */
  lemma OnlyFollowersRestart(all: seq<Container>, cs: seq<Container>, start: set<Container>, least: set<Container>,
                             c: Container)
    requires LeastClosed(all, cs, start, least) && c !in start
    requires forall link, d :: link in Links(c) && d in least && d != c ==> !Follows(link, d)
    ensures c !in least
  {
    hide Links, LinkMatches, Follows;
    var others := least - {c};
    forall x | x in cs && MatchesMember(x, others) ensures x in others {
      var link, d :| link in Links(x) && d in others && LinkMatches(link, d);
      MatchesWhatItFollows(link, d);
      assert MatchesMember(x, least);
    }
    assert Closed(cs, others);
  }

  /** A link of the form project-service restarts its container with every container of that project,
      by label or by name, whose name holds the service. */
  lemma ProjectServiceRestarts(all: seq<Container>, cs: seq<Container>, start: set<Container>,
                               least: set<Container>, c: Container, p: string, s: string, d: Container,
                               before: string, after: string)
    requires LeastClosed(all, cs, start, least) && c in cs && d in least
    requires p != "" && '-' !in p && '-' !in s && p + "-" + s in Links(c)
    requires d.labels.project == p || (d.labels.project == "" && p + "-" <= d.name)
    requires d.name == before + s + after
    ensures c in least
  {
    hide Links;
    var link := p + "-" + s;
    assert Reads(link, p, s) && Holds(d.name, s);
    if d.labels.project == "" {
      assert (p + "-")[|p|] == d.name[|p|] == '-';
    }
    assert Follows(link, d);
    FollowersRestart(all, cs, start, least, c, link, d);
  }

  /** Such links do not follow containers of another project with another name. */
  lemma OtherProjectsIgnored(all: seq<Container>, cs: seq<Container>, start: set<Container>, least: set<Container>,
                             c: Container)
    requires LeastClosed(all, cs, start, least) && c !in start
    requires forall link, d :: link in Links(c) && d in least && d != c ==>
               d.name != link && exists p, s :: Reads(link, p, s) && p != "" && ElsewhereThan(p, d)
    ensures c !in least
  {
    hide Links, Follows;
    forall link, d | link in Links(c) && d in least && d != c ensures !Follows(link, d) {
      var p, s :| Reads(link, p, s) && p != "" && ElsewhereThan(p, d);
      ElsewhereNotFollowed(link, p, s, d);
    }
    OnlyFollowersRestart(all, cs, start, least, c);
  }

  /** Neither the label nor, without one, the name puts the container into the project. */
  predicate ElsewhereThan(p: string, d: Container) {
    if d.labels.project != "" then d.labels.project != p else !(p + "-" <= d.name)
  }

  lemma ElsewhereNotFollowed(link: string, p: string, s: string, d: Container)
    requires Reads(link, p, s) && p != "" && ElsewhereThan(p, d) && d.name != link
    ensures !Follows(link, d)
  {
    forall q, t | Reads(link, q, t) ensures q == p && t == s {
      ReadsSplit(link, p, s);
      ReadsSplit(link, q, t);
    }
  }

  ghost predicate UniqueNames(all: seq<Container>) {
    && (forall c :: c in all ==> c.name != "")
    && (forall c, d :: c in all && d in all && (c.name == d.name || c.id == d.id) ==> c == d)
  }

  /** The flags by name mirror the containers to restart. */
  ghost predicate Mirrors(all: seq<Container>, flags: map<string, bool>, members: set<Container>) {
    && (forall c :: c in all ==> c.name in flags && (flags[c.name] <==> c in members))
    && (forall name :: name in flags ==> exists c :: c in all && c.name == name)
  }

  method NameToContainer(all: seq<Container>) returns (byName: map<string, Container>)
    requires UniqueNames(all)
    ensures forall c :: c in all ==> c.name in byName && byName[c.name] == c
    ensures forall name :: name in byName ==> byName[name] in all && byName[name].name == name
  {
    byName := map[];
    for i := 0 to |all|
      invariant forall c :: c in all[..i] ==> c.name in byName && byName[c.name] == c
      invariant forall name :: name in byName ==> byName[name] in all && byName[name].name == name
    {
      byName := byName[all[i].name := all[i]];
    }
    assert all[..|all|] == all;
  }

  /** A restarting container the link matches, or "" when there is none. */
  method FindRestarting(link: string, flags: map<string, bool>, dependentProject: string,
                        byName: map<string, Container>)
    returns (found: string)
    requires forall name :: name in flags ==> name != "" && name in byName && byName[name].name == name
    ensures found != "" ==> found in flags && flags[found] && LinkMatches(link, byName[found])
    ensures found == "" ==> forall name :: name in flags && flags[name] ==> !LinkMatches(link, byName[name])
  {
    if link in flags && flags[link] {
      return link;
    }
    var parts := Split(link, '-');
    if |parts| == 2 {
      found := FindByProject(parts[0], parts[1], flags, byName);
    } else {
      found := FindByService(link, flags, dependentProject, byName);
    }
  }

  method FindByProject(project: string, service: string, flags: map<string, bool>, byName: map<string, Container>)
    returns (found: string)
    requires forall name :: name in flags ==> name != "" && name in byName
    ensures found != "" ==>
              found in flags && flags[found] && GetProject(byName[found]) == project && Contains(found, service)
    ensures found == "" ==>
              forall name :: name in flags && flags[name] ==>
                GetProject(byName[name]) != project || !Contains(name, service)
  {
    hide Contains, GetProject;
    var rest := flags.Keys;
    while rest != {}
      invariant rest <= flags.Keys
      invariant forall name :: name in flags && name !in rest && flags[name] ==>
                  GetProject(byName[name]) != project || !Contains(name, service)
    {
      var name :| name in rest;
      rest := rest - {name};
      if flags[name] && GetProject(byName[name]) == project && Contains(name, service) {
        return name;
      }
    }
    found := "";
  }

  /** The name is that of a container to restart and contains the link. */
  predicate Hit(name: string, flags: map<string, bool>, link: string) {
    name in flags && flags[name] && Contains(name, link)
  }

  predicate OwnProject(name: string, project: string, byName: map<string, Container>) {
    name in byName && GetProject(byName[name]) == project
  }

  /** The alphabetically first hit in the dependent's own project or, without one there, anywhere. */
  ghost predicate BestHit(found: string, flags: map<string, bool>, link: string, project: string,
                          byName: map<string, Container>) {
    && Hit(found, flags, link)
    && ((exists name :: Hit(name, flags, link) && OwnProject(name, project, byName)) ==>
          OwnProject(found, project, byName))
    && forall name ::
         Hit(name, flags, link) && (OwnProject(found, project, byName) ==> OwnProject(name, project, byName)) ==>
         name == found || Less(found, name)
  }

  /** Of the first i names none is a hit in the project, and cross is the first hit, if there is one. */
  ghost predicate Searched(names: seq<string>, i: nat, flags: map<string, bool>, link: string, project: string,
                           byName: map<string, Container>, cross: string) {
    && (forall k :: 0 <= k < i <= |names| && Hit(names[k], flags, link) ==> !OwnProject(names[k], project, byName))
    && (if cross == "" then forall k :: 0 <= k < i <= |names| ==> !Hit(names[k], flags, link)
        else
          && i <= |names| && cross in names[..i]
          && Hit(cross, flags, link) && !OwnProject(cross, project, byName)
          && forall k :: 0 <= k < i <= |names| && Hit(names[k], flags, link) ==>
               names[k] == cross || Less(cross, names[k]))
  }

  lemma OwnIsBest(names: seq<string>, i: nat, flags: map<string, bool>, link: string, project: string,
                  byName: map<string, Container>, cross: string)
    requires names == Ascending(flags.Keys) && i < |names| && Searched(names, i, flags, link, project, byName, cross)
    requires Hit(names[i], flags, link) && OwnProject(names[i], project, byName)
    ensures BestHit(names[i], flags, link, project, byName)
  {
    hide Contains, GetProject, Less;
    forall name | Hit(name, flags, link) && OwnProject(name, project, byName)
      ensures name == names[i] || Less(names[i], name)
    {
      assert name in Elements(names);
      var j :| 0 <= j < |names| && names[j] == name;
      assert j >= i;
    }
  }

  lemma CrossIsBest(names: seq<string>, flags: map<string, bool>, link: string, project: string,
                    byName: map<string, Container>, cross: string)
    requires names == Ascending(flags.Keys) && Searched(names, |names|, flags, link, project, byName, cross)
    ensures if cross == "" then forall name :: !Hit(name, flags, link)
            else Hit(cross, flags, link) && BestHit(cross, flags, link, project, byName)
  {
    hide Contains, GetProject, Less, OwnProject;
    forall name | Hit(name, flags, link)
      ensures cross != "" && !OwnProject(name, project, byName) && (name == cross || Less(cross, name))
    {
      assert name in Elements(names);
      var j :| 0 <= j < |names| && names[j] == name;
    }
  }

  lemma SearchedNext(names: seq<string>, i: nat, flags: map<string, bool>, link: string, project: string,
                     byName: map<string, Container>, cross: string)
    requires names == Ascending(flags.Keys) && i < |names| && names[i] != ""
    requires Searched(names, i, flags, link, project, byName, cross)
    requires Hit(names[i], flags, link) ==> !OwnProject(names[i], project, byName)
    ensures Searched(names, i + 1, flags, link, project, byName,
                     if Hit(names[i], flags, link) && cross == "" then names[i] else cross)
  {
    hide Less, OwnProject, Hit, Ascending, Elements;
    assert names[..i + 1] == names[..i] + [names[i]];
    if cross != "" {
      CrossEarlier(names, i, flags, link, project, byName, cross);
    }
  }

  lemma CrossEarlier(names: seq<string>, i: nat, flags: map<string, bool>, link: string, project: string,
                     byName: map<string, Container>, cross: string)
    requires names == Ascending(flags.Keys) && i < |names| && cross != ""
    requires Searched(names, i, flags, link, project, byName, cross)
    ensures Less(cross, names[i])
  {
    hide Contains, GetProject, Less, OwnProject, Hit;
    var k :| 0 <= k < i && names[..i][k] == cross;
    assert names[k] == cross;
  }

  /** Containers of the dependent's own project go first, then the first match of any project. */
  method FindByService(link: string, flags: map<string, bool>, dependentProject: string, byName: map<string, Container>)
    returns (found: string)
    requires forall name :: name in flags ==> name != "" && name in byName
    ensures found != "" ==> found in flags && flags[found] && Contains(found, link)
    ensures found == "" ==> forall name :: name in flags && flags[name] ==> !Contains(name, link)
    ensures found != "" ==> BestHit(found, flags, link, dependentProject, byName)
  {
    hide Contains, GetProject, Searched, BestHit, Less;
    var identifiers := SortedKeys(flags.Keys);
    var crossProjectMatch := "";
    NothingSearched(identifiers, flags, link, dependentProject, byName);
    for i := 0 to |identifiers|
      invariant Searched(identifiers, i, flags, link, dependentProject, byName, crossProjectMatch)
    {
      var name := identifiers[i];
      assert name in Elements(identifiers);
      ghost var before := crossProjectMatch;
      if flags[name] && Contains(name, link) {
        if GetProject(byName[name]) == dependentProject {
          OwnIsBest(identifiers, i, flags, link, dependentProject, byName, before);
          return name;
        }
        if crossProjectMatch == "" {
          crossProjectMatch := name;
        }
      }
      SearchedNext(identifiers, i, flags, link, dependentProject, byName, before);
    }
    CrossIsBest(identifiers, flags, link, dependentProject, byName, crossProjectMatch);
    found := crossProjectMatch;
    if found == "" {
      forall name | name in flags && flags[name] ensures !Contains(name, link) {
        assert !Hit(name, flags, link);
      }
    }
  }

  lemma NothingSearched(names: seq<string>, flags: map<string, bool>, link: string, project: string,
                        byName: map<string, Container>)
    ensures Searched(names, 0, flags, link, project, byName, "")
  {
  }

  method LinkedIdentifierMarkedForRestart(links: seq<string>, flags: map<string, bool>, dependent: Container,
                                          all: seq<Container>, ghost members: set<Container>)
    returns (found: string)
    requires UniqueNames(all) && Mirrors(all, flags, members) && dependent in all
    requires members <= Elements(all) && links == Links(dependent)
    ensures found != "" <==> MatchesMember(dependent, members)
    ensures found != "" ==> exists link, d :: link in links && d in members && d.name == found && LinkMatches(link, d)
  {
    hide LinkMatches, Links, GetProject;
    var byName := NameToContainer(all);
    var dependentProject := GetProject(dependent);
    for i := 0 to |links|
      invariant forall k, d :: 0 <= k < i && d in members ==> !LinkMatches(links[k], d)
    {
      found := FindRestarting(links[i], flags, dependentProject, byName);
      if found != "" {
        assert byName[found] in members && links[i] in Links(dependent);
        return;
      }
      forall d | d in members ensures !LinkMatches(links[i], d) {
        assert d in all && flags[d.name] && byName[d.name] == d;
      }
    }
    found := "";
  }

  ghost function Restarting(all: seq<Container>): set<Container>
    reads all`stale, all`linkedToRestarting
  {
    set c | c in all && c.ToRestart()
  }

  /** Marks a container in the lists and in the flags by name. */
  lemma MirrorsNext(all: seq<Container>, flags: map<string, bool>, members: set<Container>, c: Container)
    requires UniqueNames(all) && Mirrors(all, flags, members) && c in all
    ensures Mirrors(all, flags[c.name := true], members + {c})
  {
  }

  lemma LeastGrows(all: seq<Container>, cs: seq<Container>, start: set<Container>, members: set<Container>,
                   c: Container)
    requires c in cs && MatchesMember(c, members) && InsideEveryClosed(all, cs, start, members)
    ensures InsideEveryClosed(all, cs, start, members + {c})
  {
    forall s: set<Container> {:trigger Closed(cs, s)} | s <= Elements(all) && start <= s && Closed(cs, s)
      ensures members + {c} <= s
    {
      var link, d :| link in Links(c) && d in members && LinkMatches(link, d);
      assert MatchesMember(c, s);
    }
  }

  method FlagsByName(all: seq<Container>) returns (byID: map<string, Container>, flags: map<string, bool>)
    requires UniqueNames(all)
    ensures forall c :: c in all ==> c.id in byID && byID[c.id] == c
    ensures forall id :: id in byID ==> byID[id] in all
    ensures Mirrors(all, flags, Restarting(all))
  {
    byID, flags := map[], map[];
    for i := 0 to |all|
      invariant forall c :: c in all[..i] ==> c.id in byID && byID[c.id] == c
      invariant forall id :: id in byID ==> byID[id] in all
      invariant forall c :: c in all[..i] ==> c.name in flags && (flags[c.name] <==> c.ToRestart())
      invariant forall name :: name in flags ==> exists c :: c in all && c.name == name
    {
      assert all[i] in all;
      byID := byID[all[i].id := all[i]];
      flags := flags[all[i].name := all[i].ToRestart()];
    }
    assert all[..|all|] == all;
  }

  /** Sets the flag in both lists; with unique ids both entries are the same container. */
  method MarkLinked(all: seq<Container>, c: Container, byID: map<string, Container>)
    requires c in all && c.id in byID && byID[c.id] == c
    modifies c`linkedToRestarting
    ensures c.linkedToRestarting
    ensures Restarting(all) == old(Restarting(all)) + {c}
  {
    c.linkedToRestarting := true;
    byID[c.id].linkedToRestarting := true;
  }

  /** One pass over the list; unchanged means the set was closed already. */
  method Pass(all: seq<Container>, cs: seq<Container>, byID: map<string, Container>, flags: map<string, bool>,
              ghost start: set<Container>)
    returns (changed: bool, flags': map<string, bool>)
    requires UniqueNames(all) && forall c :: c in cs ==> c in all
    requires forall c :: c in all ==> c.id in byID && byID[c.id] == c
    requires Mirrors(all, flags, Restarting(all)) && InsideEveryClosed(all, cs, start, Restarting(all))
    modifies Elements(all)`linkedToRestarting
    ensures Mirrors(all, flags', Restarting(all)) && InsideEveryClosed(all, cs, start, Restarting(all))
    ensures old(Restarting(all)) <= Restarting(all)
    ensures changed ==> old(Restarting(all)) < Restarting(all)
    ensures !changed ==> Closed(cs, Restarting(all))
  {
    hide MatchesMember, LinkMatches, Links, Mirrors, InsideEveryClosed;
    changed, flags' := false, flags;
    ghost var before := Restarting(all);
    for i := 0 to |cs|
      invariant Mirrors(all, flags', Restarting(all)) && InsideEveryClosed(all, cs, start, Restarting(all))
      invariant before <= Restarting(all) && (changed <==> before != Restarting(all))
      invariant !changed ==> forall k :: 0 <= k < i && MatchesMember(cs[k], before) ==> cs[k] in before
    {
      var c := cs[i];
      if c.ToRestart() {
        continue;
      }
      ghost var members := Restarting(all);
      var links := GetLinks(c);
      var found := LinkedIdentifierMarkedForRestart(links, flags', c, all, members);
      if found != "" {
        LeastGrows(all, cs, start, members, c);
        MirrorsNext(all, flags', members, c);
        MarkLinked(all, c, byID);
        flags' := flags'[c.name := true];
        changed := true;
      }
    }
  }

  /** Afterwards the containers to restart are the least closed set around those that were. */
  method UpdateImplicitRestart(all: seq<Container>, cs: seq<Container>)
    requires UniqueNames(all) && forall c :: c in cs ==> c in all
    modifies Elements(all)`linkedToRestarting
    ensures LeastClosed(all, cs, old(Restarting(all)), Restarting(all))
    ensures forall c, link, d :: c in cs && link in Links(c) && d in Restarting(all) && Follows(link, d) ==>
              c in Restarting(all)
  {
    hide Closed, Mirrors, UniqueNames, Links, Follows;
    ghost var start := Restarting(all);
    var byID, flags := FlagsByName(all);
    var changed := true;
    while changed
      invariant start <= Restarting(all) && Mirrors(all, flags, Restarting(all))
      invariant InsideEveryClosed(all, cs, start, Restarting(all))
      invariant !changed ==> Closed(cs, Restarting(all))
      decreases Elements(all) - Restarting(all), changed
    {
      ghost var before := Restarting(all);
      changed, flags := Pass(all, cs, byID, flags, start);
      assert changed ==> Elements(all) - Restarting(all) < Elements(all) - before;
    }
    forall c, link, d | c in cs && link in Links(c) && d in Restarting(all) && Follows(link, d)
      ensures c in Restarting(all)
    {
      FollowersRestart(all, cs, start, Restarting(all), c, link, d);
    }
  }
}
