/** Docker Compose labels, as the update side reads them (pkg/compose). */
module Compose {
  import opened Text

  /** The value of com.docker.compose.depends_on. `Object(s)` stands for a text that opens
      with '{' and decodes as a JSON object with key set s; `Plain` is every other text,
      the empty one included, which is also what a missing label reads as. */
  datatype DependsOnLabel = Plain(text: string) | Object(services: set<string>)

  const NO_LABEL := Plain("")

  /** One entry of the legacy list: service:condition:required. */
  function EntryService(entry: string): string {
    TrimSpace(Split(TrimSpace(entry), ':')[0])
  }

  function EntryServices(entry: string): seq<string> {
    if EntryService(entry) == "" then [] else [EntryService(entry)]
  }

  /** The services a depends_on label names. */
  ghost function DependsOnServices(value: DependsOnLabel): seq<string> {
    match value
    case Object(services) => Ascending(services)
    case Plain(text) => if text == "" then [] else Collect(EntryServices, Split(text, ','))
  }

  /** A blank entry names no service, so skipping it early or late is the same. */
  lemma BlankEntry(entry: string)
    requires TrimSpace(entry) == ""
    ensures EntryService(entry) == ""
  {
    assert Split("", ':') == [""];
  }

  method ParseDependsOnLabel(value: DependsOnLabel) returns (services: seq<string>)
    ensures services == DependsOnServices(value)
  {
    match value {
      case Object(keys) => services := SortedKeys(keys);
      case Plain(text) =>
        if text == "" {
          return [];
        }
        services := ParseLegacy(Split(text, ','));
    }
  }

  method ParseLegacy(deps: seq<string>) returns (services: seq<string>)
    ensures services == Collect(EntryServices, deps)
  {
    services := [];
    for i := 0 to |deps|
      invariant services == Collect(EntryServices, deps[..i])
    {
      CollectNext(EntryServices, deps, i);
      var dep := TrimSpace(deps[i]);
      if dep == "" {
        BlankEntry(deps[i]);
        continue;
      }
      var name := TrimSpace(Split(dep, ':')[0]);
      if name != "" {
        services := services + [name];
      }
    }
    CollectAll(EntryServices, deps);
  }
}
