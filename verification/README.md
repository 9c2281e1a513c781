# A verified model of the update planner and executor

This project models the part of the supervisor that turns a list of containers with dependency
links into a safe stop-and-restart run, and the smaller protocols around it, and proves what they
promise. Each module follows one component of the program:

| modules | component |
|---|---|
| `Text`, `Digraph` | strings, sorting, directed graphs (shared vocabulary) |
| `Compose`, `Containers`, `LinkLaws` | Compose labels, container identifiers and links, and how they are read |
| `LinkResolution`, `Numerals`, `GraphBuilder`, `Kahn`, `CyclePath`, `Sorter` | the dependency sorter |
| `CycleDetection`, `DetectCycles` | the three-colour cycle detector |
| `LinkStability`, `Planner`, `ImplicitRestart`, `Scan`, `UpdateAction` | the planning half of `Update`, and the session as a whole |
| `Session`, `Report` | session progress and report |
| `UpdateRun`, `StartPhase`, `RollingRestart`, `BatchRun`, `Execution`, `Losses`, `TowerRuns` | the executing half of `Update`, and what it does to Watchtower instances |
| `SessionFacts`, `Scenarios` | what a session's report tells its reader, and inputs on which the program does less than it seems to promise |
| `Services`, `DeployAgreement` | the deploy-side order, and its agreement with the update side |
| `SelfUpdateChain`, `Cleanup` | the chain label, and removal of excess instances |
| `NotificationUrls` | the notification URL splitter and its writer |
| `UpdateLock` | the one-token update lock |

## How the model is built

- Code that changes state step by step is written as methods with loops and classes with fields,
  proved against specification functions; graphs, labels and verdicts are functions on values.
  Theorems are lemmas about those functions and about whole runs.
- A `Container` has constant metadata and three fields that a run rewrites: the stale flag, the
  linked-to-restarting flag and the chain label. A filtered list and the list of all containers hold
  the same objects; the source keeps two and copies the flags across by ID. Unique container IDs and
  unique non-empty names (`UniqueNames`) are assumed, as the daemon guarantees them.
- Ranging over a Go map is an arbitrary choice at every step, and results are proved not to depend on it.
- The Docker client is a class whose answers are arbitrary (`*`) and which records every request with
  its answer in a ghost trace. Cancellation is a flag that any check may find raised, for good. The
  answers that decide the scan (filter, pin check, staleness check) are parameters (`Scan.Answers`).
- The JSON form of `com.docker.compose.depends_on` is represented by its key set (`Compose.Object`);
  any other text is parsed character by character. A missing label reads as the empty text.
- `map[string]bool` values that only ever hold `true` are sets. 64-bit parsing of a replica number
  (`strconv.Atoi`) is modelled with its range.

## Main results

- **Sorting.** The sort fails exactly on a cyclic link graph and otherwise permutes the list with
  dependencies first, duplicate links included (`Sorter.SortExact`). What a failed sort leaves over is
  exactly what lies downstream of a cycle (`Sorter.UnsortedIffBehindCycle`).
- **Cycle detection.** Whatever the order of the roots, marks lie on cycles and hit every cycle
  (`CycleDetection.DetectionExact`), every cycle shares an edge with a fully marked one
  (`CycleDetection.CyclesShareMarked`), and where no edge lies on cycles with different nodes exactly the
  nodes on cycles are marked (`CycleDetection.AllMarkedOnSeparateCycles`).
- **Composition.** Every part of a list can be sorted exactly when the graph of its possible dependencies,
  what each link could come to stand for, has no cycle (`LinkStability.AllPartsSortIff`). For the
  containers that may come to be restarted this is the exact condition for the second sort of `Update`
  (`Planner.SecondSortIff`); stable links in a sortable list imply it (`LinkStability.StableIsSafe`), and so
  do exact links with plain names even when the first sort failed (`Planner.ExactIsSafe`). Without it the
  second sort can fail (`Scenarios.UpdateReplica`).
- **Link resolution.** What a link stands for is characterised exactly: the identifier it spells, else its
  replicas, whose numbers are exactly the numerals from 1 to the largest 64-bit integer, else the only
  identifier that serves it (`GraphBuilder.ResolveLink`, `Numerals.CandidatesIff`, `Numerals.PositiveIntegerIff`).
- **Implicit restart** computes the least closed set (`ImplicitRestart.UpdateImplicitRestart`), where a link
  follows exactly the container of that name, the containers of its project that hold its service, or
  those that hold the link (`ImplicitRestart.MatchesWhatItFollows`). What a deployment declares restarts
  together (`DeployAgreement.DependentsRestart`).
- **The whole update** (`UpdateAction.Update`): exactly the containers the plan calls for are run, what
  happened to each of them fits the verdict on it, every container is accounted for, and its images and
  category say exactly what the scan found and what the run did, also when a rolling run is canceled. The
  images handed over for cleanup are exactly those of the stale containers that are back without a rename.
  Dependencies are respected by the trace (`Execution.DependenciesRespected`).
- **Self-updates.** Outside run-once mode no Watchtower is started in any run without having been renamed,
  and in run-once mode nothing is renamed (`TowerRuns.RenamedFirst`, `TowerRuns.OnlyTowersRenamed`,
  `SessionFacts.SelfUpdatesRename`).
- **Losses.** With restarts on, no run loses a container, whatever Docker answers and whenever it is
  canceled. With restarts off a container is lost exactly when it is a regular one that was removed without
  a failure; no run can lose one exactly when restarts are on or the list holds no regular container that
  may be stopped (`Losses.NoLossIff`). So no session loses one in run-once mode, with self-update off or
  without a link to a Watchtower instance chosen for an update (`SessionFacts.QuietSessionLosesNone`).
- **Deploy and update agree** on one graph (`DeployAgreement.DeployedEdges`, `AcceptedSpecSorts`).
- **Protocol cores.** Chain labels list exactly the ancestors; removal of excess instances is bounded and
  complete; notification URLs round-trip exactly under a stated condition; the lock token is conserved.

## Where the code and its documentation differ

The model follows the code.

- `pkg/container/cycles.go:26-34` and `115-120` say that all nodes involved in cycles are marked. They are
  not: see `CycleDetection.UnmarkedNodeOnCycle`. A node is if it lies on a cycle none of whose edges is on a
  cycle without that node (`CycleDetection.MarkedOnBoundCycle`), and all are if no edge lies on cycles with
  different nodes (`CycleDetection.AllMarkedOnSeparateCycles`). No condition on the edges alone is exact:
  the order of the neighbors decides (`CycleDetection.NeighborOrderMatters`). The marks always hit every
  cycle, which is what the planner needs.
- The container named by a circular-reference error is the first one left unsorted. It lies downstream of
  a cycle and need not be on one; the reported path is empty exactly when no cycle is reachable from it
  (`Sorter.DetectAndReportCycle`). So the path can be a cycle that the named container is not part of
  (`Scenarios.NamedOffCycle`, `Scenarios.SortTwoLoops`). It is on a cycle exactly when every container left
  over without being on one comes, alphabetically, after one that is (`Sorter.NamedOnCycleIff`).
- `Update` can fail in its second sort although the first one succeeded, when a link that matched a
  container by name falls to a replica of it in the shorter list (`Scenarios.ReplicaExposed`,
  `Scenarios.UpdateReplica`). A shorter list can have such new dependencies exactly when its links are not
  stable (`LinkStability.StableLinksIff`), and one that cannot be sorted exactly when the possible
  dependencies have a cycle (`LinkStability.AllPartsSortIff`).
- A container that failed is filed as failed exactly when the scan recorded a new image for it, and as fresh
  otherwise (`SessionFacts.FailureShownIffNewImage`). The scan records its own image for a container that has
  no newer one, so one that only follows a container it depends on is never shown as failed, even when it was
  removed and did not start (`Scenarios.LinkedFailureIsFresh`).
- With restarts off no regular container is updated (`internal/actions/update.go:548`), but one that is
  linked to a stale Watchtower instance is put on the restart list (`320-332`), stopped and removed
  (`1103-1181`), not started again (`1439`) and reported as restarted (`1284-1287`): see
  `Scenarios.TowerUpdateLosesLinked`, `SessionFacts.LostIsShownRestarted` and `Losses.NoLossIff`.
- `internal/scheduling/scheduling.go:123-139` and `261-301` look the running instance up in its own chain
  label. No self-update ever writes an ID into its own label, so these guards never fire on labels the
  program wrote (`SelfUpdateChain.NeverOwnParent`).
- A deployment rejects a service that depends on itself; an update ignores such a dependency
  (`DeployAgreement.AcceptedSpecSorts`).

## Model

| member | source | states |
|---|---|---|
| `Compose.ParseDependsOnLabel` | pkg/compose/compose.go:33-87 | A JSON label yields its keys in ascending order whatever order the map is ranged in; any other text yields the trimmed, non-empty service names before the first colon of each comma entry |
| `Containers.GetLinks` | pkg/container/container.go:533-550 | The first source that has links wins (Watchtower label, Compose label, host configuration), and the container's own name never remains among them |
| `Containers.GetLinksFromWatchtowerLabel` | pkg/container/container.go:638-676 | No label means no answer, so the next source is asked; otherwise every non-empty entry, trimmed and without its slash |
| `Containers.GetLinksFromComposeLabel` | pkg/container/container.go:690-730 | The services of the label, each with the project in front exactly once; no services means the next source is asked |
| `Containers.GetLinksFromHostConfig` | pkg/container/container.go:744-798 | The targets of well-formed legacy links, then the container whose network is shared |
| `Containers.FilterSelfReferences` | pkg/container/container.go:507-517 | The other links, in order |
| `LinkLaws.EntryReads` | pkg/compose/compose.go:33-87 | An entry of a legacy Compose label names what stands before its first colon, without padding |
| `LinkLaws.WatchtowerLabelReads` | pkg/container/container.go:638-676 | The label lists the containers its comma entries name, in order, with or without padding and slash; the links are those but the own name, and a container is self-dependent exactly if it is among them |
| `LinkLaws.HostLinksRead` | pkg/container/container.go:744-798 | Legacy links of the form target:alias name their targets, in order, and the container whose network is shared comes last |
| `LinkLaws.WatchtowerLabelWins` | pkg/container/container.go:533-550 | With a Watchtower label no other source matters |
| `LinkLaws.ComposeLabelWins` | pkg/container/container.go:533-550 | Without one, a Compose label that names services makes the host configuration irrelevant |
| `LinkLaws.QualifiedOnce` | pkg/container/container.go:690-730 | Putting the project in front of a name twice is putting it there once, and a name that has it stays |
| `LinkLaws.ReplicaIdentifier` | pkg/container/container.go:568-608 | A replica with a number is filed so that the link project-service stands for it; without a number it is filed under project and service |
| `LinkLaws.ReplicasDiffer` | pkg/container/container.go:568-608 | Replicas of a service with different numbers have different identifiers |
| `LinkLaws.OtherIdentifiers` | pkg/container/container.go:568-608 | A container with a default name keeps it, one with only a service is filed under it, and any other one under its name, or its ID if it has none |
| `LinkResolution.LinkGraphEdge` | pkg/sorter/dependency.go:248-382 | The resolved graph has an edge exactly where some link of a listed container resolves to another listed container; never a self-loop, never a node outside the list |
| `Numerals.PositiveIntegerIff` | pkg/sorter/dependency.go:406-415 | A replica number is exactly an optional plus sign, leading zeros, and the decimal form of a number from 1 to the largest 64-bit integer |
| `Numerals.WhichNumbersCount` | pkg/sorter/dependency.go:406-415 | Signed or padded, a number counts exactly from 1 to 9223372036854775807 |
| `Numerals.ServiceIff` | pkg/sorter/dependency.go:440-464 | The service of an identifier is its last part, or the last before a replica number; a number at the end is never a service unless it is the whole identifier |
| `Numerals.CandidatesIff` | pkg/sorter/dependency.go:251-345 | A link stands exactly for the listed identifier it spells, else for every one that adds a replica number to it, else for the only one that serves it |
| `GraphBuilder.ResolveLink` | pkg/sorter/dependency.go:251-345 | A link stands for the identifier it spells, else for all replicas of that name (every listed name-n with n from 1 to the largest integer), else for the one container of that service; in ascending order, and the map order does not show |
| `GraphBuilder.FileContainers` | pkg/sorter/dependency.go:212-243 | Files every container under its identifier exactly when identifiers are distinct; otherwise names a repeated identifier with all its containers |
| `GraphBuilder.AddLinks` | pkg/sorter/dependency.go:253-370 | Indegrees and adjacency lists keep counting the same multiset of edges, duplicates included, the dependent itself left out |
| `GraphBuilder.BuildDependencyGraph` | pkg/sorter/dependency.go:209-385 | Succeeds exactly on distinct identifiers, and then indegrees and adjacency represent the resolved link graph |
| `Kahn.StepKeeps` | pkg/sorter/dependency.go:132-161 | One round keeps the invariant: every indegree counts the edges from unprocessed nodes, and processed and queued nodes are exactly those at zero, each once |
| `Kahn.KahnExhausts` | pkg/sorter/dependency.go:132-161 | The queue ends with a repetition-free listing, dependencies first, in which every missing node still waits for a missing node |
| `Kahn.MissedIffBehindCycle` | pkg/sorter/dependency.go:132-161 | A node is missing from the listing exactly when it lies downstream of a cycle |
| `Sorter.InitializeQueue` | pkg/sorter/dependency.go:475-488 | The nodes without dependencies in reverse alphabetical order, whatever the map order |
| `Sorter.ProcessQueue` | pkg/sorter/dependency.go:132-161 | The loop over the mutable indegrees and queue produces the specified order |
| `Sorter.SortExact` | pkg/sorter/dependency.go:125-176 | With distinct identifiers: no result exactly when the link graph has a cycle; otherwise a permutation of the input in which every dependency precedes its dependents |
| `Sorter.UnsortedIffBehindCycle` | pkg/sorter/dependency.go:506-554 | The containers a sort leaves out are exactly those downstream of a cycle of links |
| `Sorter.DetectAndReportCycle` | pkg/sorter/dependency.go:506-554 | An error exactly when something is left over; it names the first container left over, with a real simple cycle, which is empty exactly when no cycle is reachable from that container |
| `Sorter.NamedOnCycleIff` | pkg/sorter/dependency.go:506-554 | The named container is on a cycle exactly when every container left over off the cycles comes after one that is on a cycle |
| `Scenarios.NamedOffCycle` | pkg/sorter/dependency.go:506-554 | Five containers whose error names one that is on no cycle, with a path that is not empty |
| `Scenarios.SortTwoLoops` | pkg/sorter/dependency.go:125-176 | Sorting such containers fails with that error |
| `Sorter.SortByDependencies` | pkg/sorter/dependency.go:125-176 | The method computes the specified sort; a failure is a circular reference on distinct identifiers and a collision otherwise |
| `Sorter.SortPermutes` | pkg/sorter/dependency.go:41-93 | A successful sort keeps the multiset of containers and puts the Watchtower instances last in their original order |
| `Sorter.Sort` | pkg/sorter/dependency.go:41-93 | Sorts the slice in place into a value that does not depend on map order; on an error the slice is untouched and the error describes the regular containers |
| `CyclePath.FindCyclePath` | pkg/sorter/dependency.go:583-635 | A path exactly when a cycle is reachable from the start; it is then a simple cycle, reachable, with equal ends, every step an edge; the recursion terminates |
| `CyclePath.CycleSearch.Dfs` | pkg/sorter/dependency.go:583-635 | Returns no path only when the node is finished and cannot reach a cycle; the visiting set is always the current path |
| `CycleDetection.VisitKeeps` | pkg/container/cycles.go:69-113 | Visiting a node keeps the colours consistent with path and finish order, marks only nodes on cycles, and leaves every edge out of a finished node leading to an earlier one or joining two marked nodes |
| `CycleDetection.CoveredHits` | pkg/container/cycles.go:156-227 | Once all nodes are finished, no cycle can avoid the marks |
| `CycleDetection.DetectionExact` | pkg/container/cycles.go:69-113 | Every mark lies on a cycle, every cycle holds a mark, and there are no marks exactly when there is no cycle, for every order of the roots |
| `CycleDetection.CyclesShareMarked` | pkg/container/cycles.go:69-113 | Every cycle shares an edge with a cycle all of whose nodes are marked, for every order of the roots |
| `CycleDetection.MarkedOnBoundCycle` | pkg/container/cycles.go:26-34 | A node on a cycle none of whose edges is on a simple cycle without that node is marked, for every order of the roots |
| `CycleDetection.AllMarkedOnSeparateCycles` | pkg/container/cycles.go:26-34 | If simple cycles with a common edge have the same nodes, as when each edge lies on at most one, exactly the nodes on cycles are marked, for every order of the roots |
| `CycleDetection.NeighborOrderMatters` | pkg/container/cycles.go:76-108 | With the neighbors of one node swapped, the graph of `UnmarkedNodeOnCycle` has all its nodes marked in every order of the roots |
| `CycleDetection.UnmarkedNodeOnCycle` | pkg/container/cycles.go:26-34 | A graph of three nodes in which a node on a cycle stays unmarked |
| `CycleDetection.CycleDetector.Dfs` | pkg/container/cycles.go:69-113 | The search on mutable colours, path and marks computes the specified state |
| `CycleDetection.CycleDetector.MarkCycle` | pkg/container/cycles.go:84-104 | Marks the path from the gray neighbour to its end and nothing else |
| `DetectCycles.DetectCyclesIn` | pkg/container/cycles.go:156-227 | The marks are sound for, and hit every cycle of, the graph built from names and identifiers; empty exactly when that graph is acyclic; independent of the order of listing for these facts |
| `Services.GetServiceDependencies` | internal/actions/services.go:763-773 | A mapping wins over a list: its keys in ascending order; otherwise the list as declared |
| `Services.ServiceVisitor.Visit` | internal/actions/services.go:718-747 | Reports a cycle only when there is one; otherwise the service is listed after everything it depends on, earlier listings untouched |
| `Services.OrderedServiceNames` | internal/actions/services.go:718-761 | Fails exactly when the graph of defined services has a cycle, self-loops included, and never on an unknown service; otherwise lists every service once, dependencies first |
| `DeployAgreement.EncodeDependsOn` | internal/actions/services.go:338-366 | The label value written for a mapping has the mapping's keys; a list is joined by commas; nothing otherwise |
| `DeployAgreement.CustomNameIdentifier` | internal/actions/services.go:321-366 | Whatever its container name, a deployed service is filed like under its default name |
| `DeployAgreement.UserLabelsKept` | internal/actions/services.go:321-366 | The user's dependency labels survive unless the deployment declares dependencies itself |
| `DeployAgreement.DependsOnRoundTrip` | internal/actions/services.go:338-366 | Parsing the written label gives back the declared dependencies |
| `DeployAgreement.DeployedLinks` | pkg/container/container.go:690-730 | The links of a deployed container are its declared dependencies with the project in front |
| `DeployAgreement.QualifiedCandidates` | pkg/sorter/dependency.go:251-345 | Such a link resolves to the container of that very service if it is deployed, and to nothing otherwise |
| `DeployAgreement.DeployedEdges` | internal/actions/services.go:321-366 | The graph rebuilt from the labels has exactly the declared edges between existing, different services |
| `DeployAgreement.AcceptedSpecSorts` | internal/actions/services.go:711-772 | What the deployment accepts sorts at update time; apart from self-dependent services the two sides reject the same specifications |
| `DeployAgreement.DeployedRestarts` | internal/actions/update.go:462-518 | If the container deployed for a service is to restart, so is the one of every service that declares it |
| `DeployAgreement.DependentsRestart` | internal/actions/update.go:462-518 | ... and the one of every service that depends on it through others |
| `LinkStability.SteadyLinkIff` | pkg/sorter/dependency.go:251-345 | A link keeps standing only for what it stood for, whatever is taken out of the list, exactly unless it names a listed identifier that has further replicas or service matches, has replicas and a service match outside them, or has several service matches |
| `LinkStability.StableLinksIff` | pkg/sorter/dependency.go:248-382 | The dependencies within every part of a list are dependencies of the whole list exactly when every link already leads to each container it could come to stand for |
| `LinkStability.AllPartsSortIff` | internal/actions/update.go:325-344 | Every part of a list can be sorted exactly when the possible dependencies, what each link could stand for among other containers, have no cycle |
| `LinkStability.SublistSorts` | internal/actions/update.go:325-344 | Without a cycle of possible dependencies, replicas and service names included, the list and whatever is left when containers are taken out can be sorted |
| `LinkStability.StableIsSafe` | internal/actions/update.go:325-344 | A sortable list with stable links has no cycle of possible dependencies |
| `Planner.UnmarkedSorts` | internal/actions/update.go:121-131 | With exact links and plain names, containers the cycle detector left unmarked can always be sorted |
| `Planner.DetectorEdgeByName` | pkg/container/cycles.go:156-227 | A link that spells a container's name leads the detector to that container's identifier, whatever it is, unless another container goes by the name |
| `Planner.SecondSortIff` | internal/actions/update.go:286-344 | Every list of containers that may come to be restarted (after a failed first sort, the unmarked ones) can be sorted exactly when the possible dependencies among the regular ones have no cycle |
| `Planner.ExactIsSafe` | internal/actions/update.go:286-344 | Exact links with plain, distinct names leave no cycle of possible dependencies among the containers that may come to be restarted, whether the first sort succeeded or not |
| `Scenarios.ReplicaExposed` | internal/actions/update.go:325-344 | Three containers of which only the replica is stale: the restarts spread to exactly two of them, which cannot be sorted although the whole list can |
| `Scenarios.UpdateReplica` | internal/actions/update.go:50-344 | A whole session over such containers fails in its second sort unless it is canceled |
| `ImplicitRestart.LinkedIdentifierMarkedForRestart` | internal/actions/update.go:594-731 | Finds a name exactly when some link matches a container to restart, and then the name of such a container |
| `ImplicitRestart.FindByService` | internal/actions/update.go:661-725 | Finds the alphabetically first restarting container whose name contains the link, in the dependent's own project if it has one there |
| `ImplicitRestart.UpdateImplicitRestart` | internal/actions/update.go:462-518 | Terminates with the containers to restart being the least set that contains those that were and is closed under matching links; whatever follows a restarting container restarts |
| `ImplicitRestart.MatchesWhatItFollows` | internal/actions/update.go:594-731 | A link follows exactly the container of that name, or, read as project and service, the containers of that project by label or name whose names hold the service, or, if it does not read so, those whose names hold the link |
| `ImplicitRestart.ProjectServiceRestarts` | internal/actions/update.go:625-660 | A link of the form project-service restarts its container with every container of that project, by label or by name, whose name holds the service |
| `ImplicitRestart.OtherProjectsIgnored` | internal/actions/update.go:625-660 | Such links do not follow containers of other projects with other names |
| `ImplicitRestart.OnlyFollowersRestart` | internal/actions/update.go:462-518 | A container whose links follow none of the others restarts only if it did at the start |
| `ImplicitRestart.LeastClosedUnique` | internal/actions/update.go:462-518 | That set does not depend on the order of either list |
| `Scan.FilterContainers` | internal/actions/update.go:86-93 | Exactly the containers the filter admits, in order |
| `Scan.SkipSelfDependent` | internal/actions/update.go:107-119 | Exactly the self-dependent containers get a status, and it is skipped for that reason |
| `Scan.SkipCyclic` | internal/actions/update.go:121-131 | Exactly the containers the detector marked are added as skipped, for a circular dependency |
| `Scan.ClassifyOne` | internal/actions/update.go:152-261 | A container becomes stale exactly if it is not pinned, its check succeeds and finds it outdated, it may be updated and it verifies; it gets exactly one status, skipped if the check fails or it may be updated but does not verify, with its own image if nothing is new whatever it verifies, else with the newest |
| `Scan.ExpectedRecords` | internal/actions/update.go:152-261 | What the scan records, case by case, in terms of pin check, staleness check, permission and verification |
| `Scan.Classify` | internal/actions/update.go:137-261 | Up to a cancellation every container has a status and exactly the chosen, unskipped ones carry the stale flag; all that carry it verify |
| `UpdateAction.FirstSort` | internal/actions/update.go:286-323 | It fails exactly on a repeated identifier; a circular reference is tolerated and then no restart spreads; otherwise the restarts spread to the least closed set |
| `UpdateAction.Plan` | internal/actions/update.go:276-344 | The restart list is the sorted list of exactly the containers to restart that are not monitor-only; planning fails only on a repeated identifier or unsortable candidates, and never on a well-named list |
| `UpdateAction.UnplannableIff` | internal/actions/update.go:286-344 | For the candidates of a session the plan fails exactly when identifiers repeat or the links among the regular candidates form a cycle |
| `UpdateAction.ExactIsWellNamed` | internal/actions/update.go:276-344 | Exact links with plain, distinct names are always well named |
| `UpdateAction.MakeReport` | internal/actions/update.go:436-436 | Filing turns what the categories say about scan and run into what the states say, and leaves statuses that a further report would not change |
| `UpdateAction.Update` | internal/actions/update.go:50-437 | One session: it ends early only on a failed listing, a cancellation or a failed plan, the last never on well-named containers; exactly the planned containers are run and the trace fits the verdict on each; losses are exactly explained; the images handed over are those of the stale containers that are back without a rename, once each; every status has the images the scan found and is filed as what was done, failures included; the report lists these states and filing again would not change them |
| `SessionFacts.FailureShownIffNewImage` | pkg/session/report.go:189-237 | In the report of any session a container is failed exactly if it failed and the scan recorded a new image for it; a failure without a new image shows as fresh |
| `SessionFacts.ReportAccurate` | internal/actions/update.go:50-437 | If stale means another image, updated are exactly the stale containers that were started and restarted exactly the other ones that are back |
| `SessionFacts.LostIsShownRestarted` | internal/actions/update.go:1247-1312 | Whatever a session loses is a regular container, lost with restarts off, and its report says restarted |
| `SessionFacts.QuietSessionLosesNone` | internal/actions/update.go:320-344 | With restarts on, in run-once mode, with self-update off, or without a link to a Watchtower instance that its checks choose, no session loses a container |
| `SessionFacts.OnlyCurrentWatchtower` | internal/actions/update.go:536-569 | With a current container known, at most one Watchtower instance of a session is stale, and it is the current one; none in run-once mode or with self-update off |
| `SessionFacts.SelfUpdatesRename` | internal/actions/update.go:1385-1500 | In a session only listed Watchtower instances are renamed, outside run-once mode, each before its successor starts, and their images are left alone |
| `SessionFacts.LeftAloneShown` | pkg/session/report.go:189-237 | A filtered container off the restart list is reported skipped if the scan skipped it, else fresh if its recorded newest image is its own, else stale |
| `SessionFacts.UpToDateIsFresh` | pkg/session/report.go:189-237 | One that is pinned or whose check tells nothing new is reported fresh |
| `SessionFacts.MonitoredIsStale` | pkg/session/report.go:189-237 | One that is only monitored and has a new image is reported stale |
| `Scenarios.LinkedFailureIsFresh` | pkg/session/report.go:189-237 | A run that removes a linked container and fails to start it: every report files it as fresh |
| `UpdateRun.StopStaleContainer` | internal/actions/update.go:1103-1181 | Watchtower and unaffected containers are left alone; an unverifiable linked container is refused before anything is asked; the pre-update command is asked for exactly when hooks are on, and its error or skip ends the attempt; otherwise exactly one stop request decides, a missing container counting as stopped |
| `UpdateRun.StopContainersInReversedOrder` | internal/actions/update.go:1026-1088 | Stop requests come last to first; every container either failed or counts as stopped, and what was asked for it fits its verdict; only a cancellation leaves one untouched |
| `UpdateRun.RestartStaleContainer` | internal/actions/update.go:1357-1503 | Outside run-once mode a Watchtower is renamed before anything else, and otherwise nothing but a start is asked; a failed rename starts nothing; with restarts on, or for a Watchtower, there is a start; a renamed Watchtower is kept from restarting by itself once its successor has started, whatever the answer, and is stopped itself if the successor does not start; its chain label is extended |
| `TowerRuns.RenamedFirst` | internal/actions/update.go:1385-1500 | In any run outside run-once mode every start of a Watchtower comes after a successful rename of it; the old instance then loses its restart policy, or is stopped if the start failed |
| `TowerRuns.OnlyTowersRenamed` | internal/actions/update.go:1385-1410 | In any run only Watchtower instances are renamed, and none in run-once mode |
| `TowerRuns.OtherTowersAlone` | internal/actions/update.go:1264-1268 | Once the current container is known, a batch run asks nothing about any other Watchtower instance |
| `TowerRuns.TowersNotCleaned` | internal/actions/update.go:1294-1306 | Outside run-once mode no cleanup entry is a Watchtower's |
| `TowerRuns.CleanupEntries` | internal/actions/update.go:1294-1306 | The cleanup entries are exactly those of stale containers that are back, Watchtower instances only in run-once mode |
| `StartPhase.AddCleanupImageInfo` | internal/actions/update.go:1322-1340 | One entry per image, earlier entries kept |
| `StartPhase.RestartContainersInSortedOrder` | internal/actions/update.go:1200-1312 | Requests come first to last; every eligible container restarted or failed, no other was touched; non-stale ones that restarted are marked restarted; images to clean up are those of stale containers restarted without a rename, once each |
| `RollingRestart.PerformRollingRestart` | internal/actions/update.go:889-1010 | Every container to restart is stopped and then restarted or has failed, and what was asked for it fits its verdict; on cancellation all that were not reached are recorded as failed |
| `RollingRestart.OneAtATime` | internal/actions/update.go:889-1010 | Everything that happens to a container happens before anything happens to the next |
| `BatchRun.RunBatch` | internal/actions/update.go:374-408 | The two phases fit together, and the statuses are those implied by their outcomes |
| `BatchRun.BatchLosses` | internal/actions/update.go:1026-1312 | A batch run loses exactly the regular containers it removed without a failure while restarts are off, whatever Docker answers and whenever it is canceled |
| `BatchRun.RollingLosses` | internal/actions/update.go:889-1010 | So does a rolling run, canceled or not |
| `Losses.NoLossIff` | internal/actions/update.go:889-1312 | No run over a list can lose a container exactly if restarts are on or the list holds no regular container that may be stopped |
| `Losses.SmoothRun` | internal/actions/update.go:889-1312 | Over every list there is a run that removes each container that may be removed, and fails none of them |
| `Scenarios.TowerUpdateLosesLinked` | internal/actions/update.go:320-332 | With restarts off, a container linked to a stale Watchtower instance is on the restart list, and some run over that list loses it |
| `BatchRun.NestedTrace` | internal/actions/update.go:1035-1309 | For a container later in the list than another, pairwise: its stop comes before the other's, neither is stopped after anything has started, and its start comes after the other's |
| `BatchRun.DependencyFirst` | internal/actions/update.go:334-344 | A dependency stands before its dependents in the sorted restart list |
| `BatchRun.BatchReportExact` | internal/actions/update.go:374-408 | A listed container is filed as failed exactly if it failed and has a new image, as fresh if it failed without one, as updated or restarted exactly if it is back |
| `BatchRun.RollingReportExact` | internal/actions/update.go:889-1010 | So is it after a rolling run, completed or canceled |
| `BatchRun.BatchReportsNoOthers` | internal/actions/update.go:357-409 | A container that was not on the restart list is filed as what the scan made of it |
| `Execution.Execute` | internal/actions/update.go:357-409 | The configured mode is run over exactly the list; the losses are exactly explained; the cleanup list grows by one entry for each image of a stale container that is back without a rename, and by nothing else; completed or canceled, every category says what was done; only a rolling run can be cut short |
| `Execution.DependenciesRespected` | internal/actions/update.go:334-409 | If c depends on d: in a batch run c stops before d, neither stops after a start, and d starts before c, whichever of these happen; a rolling run is done with d before it touches c |
| `Session.Progress.AddSkipped` | pkg/session/progress.go:54-62 | One new skipped status with the reason and the current image on both sides; all others kept |
| `Session.Progress.AddScanned` | pkg/session/progress.go:70-81 | One new scanned status with both images; all others kept |
| `Session.Progress.UpdateFailed` | pkg/session/progress.go:87-104 | Exactly the listed containers with a status become failed, with their errors, in any order |
| `Session.Progress.MarkForUpdate` | pkg/session/progress.go:123-137 | Only the named status changes; an unknown ID changes nothing |
| `Session.Progress.MarkRestarted` | pkg/session/progress.go:143-157 | Only the named status changes; an unknown ID changes nothing |
| `Session.CategoryIdempotent` | pkg/session/report.go:189-237 | Filing a status that was filed already does not move it |
| `Report.SessionReport.CategorizeContainer` | pkg/session/report.go:189-237 | Skipped and restarted statuses stay what they are; any other with its own image as newest becomes fresh; updated, failed and stale ones stay; one that was only scanned becomes stale; exactly the list of that category grows, and scanned unless it was skipped |
| `Report.SessionReport.SortCategories` | pkg/session/report.go:243-251 | Every list ends up in the order of container IDs with the entries it had |
| `Report.NewReport` | pkg/session/report.go:162-182 | Every status is filed by that rule and is on exactly the list of its state, and on scanned unless skipped; the lists are sorted, whatever the map order; the states left behind are final |
| `Report.ReportAgain` | pkg/session/progress.go:181-185 | A second report on what any session or report left behind moves no state and lists the same |
| `Report.AllFromSlices` | pkg/session/report.go:109-145 | One entry per container ID, from the most significant list that has it, strictly sorted |
| `Report.All` | pkg/session/report.go:151-153 | The seven lists in their order of significance are what is merged |
| `Report.AllConserves` | pkg/session/report.go:109-153 | Every container of the session occurs exactly once in the whole listing, strictly sorted |
| `Report.ScannedIsUnion` | pkg/session/report.go:189-237 | Scanned is the disjoint union of updated, failed, stale, fresh and restarted; skipped is disjoint from it |
| `SelfUpdateChain.ChainIsJoin` | internal/actions/update.go:1411-1435 | The label of the n-th instance is the comma-joined list of its predecessors |
| `SelfUpdateChain.AncestorsOldestFirst` | internal/actions/update.go:1411-1435 | Over any sequence of self-updates the label splits back to exactly the ancestors, oldest first |
| `SelfUpdateChain.IsWatchtowerParent` | pkg/container/container_source.go:803-816 | True exactly when a trimmed entry of the chain is the non-empty ID |
| `SelfUpdateChain.ParentIffAncestor` | pkg/container/container_source.go:803-816 | For any text: it passes as a parent of the running instance exactly when it is an ancestor's ID; the instance itself never does |
| `SelfUpdateChain.PaddedParent` | pkg/container/container_source.go:803-816 | A padded entry of a label counts as well |
| `SelfUpdateChain.NeverOwnParent` | internal/scheduling/scheduling.go:273-301 | No instance of a history, running or superseded, is listed in its own label |
| `SelfUpdateChain.GetChainedContainers` | internal/actions/cleanup.go:210-253 | The listed containers the chain names, in listing order, the current one left out |
| `SelfUpdateChain.ChainedAreListedAncestors` | internal/actions/cleanup.go:210-253 | These are exactly the ancestors still listed |
| `Cleanup.GetFilteredContainers` | internal/actions/cleanup.go:155-196 | The other instances of the scope, in order; none without a current container |
| `Cleanup.AddExcessContainers` | internal/actions/cleanup.go:266-282 | One container for each ID of either list, in any order |
| `Cleanup.GetExcessContainers` | internal/actions/cleanup.go:114-144 | One container for each ID that is another instance of the scope or in the chain; never the current one |
| `Cleanup.TryRemoving` | internal/actions/cleanup.go:331-378 | At most three attempts, repeated only after a failure; a missing container counts as removed; a cancellation is seen only between attempts |
| `Cleanup.RemoveImages` | internal/actions/cleanup.go:450-529 | One request for each image with an ID, in order; returns exactly those Docker confirmed removed; fails exactly when some answer is neither success, missing nor in use |
| `Cleanup.RemoveExcessContainers` | internal/actions/cleanup.go:301-434 | The trace, the result and the caller's image list are those of a removal with the given answers: images are dropped unless every container is gone |
| `Cleanup.RemovalIsBounded` | internal/actions/cleanup.go:301-434 | Nothing outside the list is stopped, nothing is tried more than three times |
| `Cleanup.SuccessMeansGone` | internal/actions/cleanup.go:301-434 | Success means every container of the list is confirmed gone, and the count is right |
| `Cleanup.ImagesOnlyAfterAll` | internal/actions/cleanup.go:381-434 | An image is removed only when every container is gone, and only one that was already waiting or that a stopped instance ran and the current one does not |
| `Cleanup.AllImagesAsked` | internal/actions/cleanup.go:381-434 | Once every container is gone, the waiting images and those of the instances this run stopped that ran another image are all asked to be removed |
| `Cleanup.ImagesLeft` | internal/actions/cleanup.go:381-434 | The image list is emptied unless every container is gone, then holds only images confirmed removed, or stays as it was when images are kept; a cancellation loses none of it |
| `Cleanup.RemoveExcessWatchtowerInstances` | internal/actions/cleanup.go:46-100 | The current instance is never stopped; without an error every other instance of the scope and every listed ancestor is confirmed gone; images go only without an error |
| `Cleanup.ExcessIsAncestorsAndPeers` | internal/actions/cleanup.go:114-144 | Along a history of self-updates the excess is exactly the listed ancestors and the other Watchtower instances whose scope is the same, no scope and none being one |
| `NotificationUrls.WriteURLs` | cmd/notify-upgrade.go:97-108 | The line is the variable followed by the URLs, separated by single spaces |
| `NotificationUrls.SplitNotificationValues` | internal/flags/flags.go:597-688 | The scan and the recombination compute the specified split |
| `NotificationUrls.PartsOfWords` | internal/flags/flags.go:597-650 | The scanner's parts are the non-empty comma segments of the space-separated words, and a part counts as following a comma exactly when it is not the first of its word |
| `NotificationUrls.RoundTrip` | internal/flags/flags.go:597-688 | For every list of texts: splitting what was written returns the list exactly when no text has a space, an empty or padded comma segment, or "://" in a segment after a comma |
| `NotificationUrls.WhitespaceFreeSurvives` | internal/flags/flags.go:597-688 | For URLs without whitespace the condition is about commas only: no empty segment, no "://" after a comma |
| `UpdateLock.TokenConserved` | internal/scheduling/scheduling.go:30-51 | In every reachable state, for any number of callers, the tokens in the channel and the callers holding one add up to one |
| `UpdateLock.MutualExclusion` | pkg/api/update/update.go:104-164 | At most one update, apply, check or download runs |
| `UpdateLock.ReleaseNeverBlocks` | pkg/api/update/update.go:104-164 | Whoever holds the token can return it at once |
| `UpdateLock.WaitingMakesProgress` | internal/scheduling/scheduling.go:142-158 | No deadlock: a waiting caller can take the token, or another caller holds it and can return it |
| `UpdateLock.SkippedOnlyWhileBusy` | internal/scheduling/scheduling.go:148-158 | A request is turned away as redundant only while another one runs |
| `UpdateLock.TurnedAwayIff` | internal/scheduling/scheduling.go:148-158 | A waiting caller can be turned away as redundant exactly if it is a run on start or a full request and somebody else is inside |
| `UpdateLock.WhoLeaves` | pkg/api/update/update.go:104-140 | Whoever waits leaves without the token otherwise only as a targeted request whose client left, or as a shutdown; a scheduled run never does |
| `UpdateLock.ShutdownSeesIdle` | internal/scheduling/scheduling.go:30-51 | A shutdown that looks finds the token in the channel exactly when nothing runs |
| `UpdateLock.TakerIsAlone` | internal/scheduling/scheduling.go:30-51 | Whoever takes the token, a waiting shutdown included, finds nothing running and is then the only one inside |
| `UpdateLock.FirstRunSkips` | internal/scheduling/scheduling.go:183-201 | With the option set, exactly the first scheduled run skips the self-update, and without it none does |
| `UpdateLock.ExtractImages` | pkg/api/update/update.go:87-102 | The images are the comma entries of all image parameters, in order |
| `UpdateLock.TargetedIffImageParameter` | pkg/api/update/update.go:104-140 | A request waits for the lock exactly when it has an image parameter, even an empty one |

## Left out

- Docker, registry, HTTP, cron and file access, health waits and post-update hooks: foreign calls; where their answers steer the code they are arbitrary answers of a client, otherwise they are omitted.
- JSON encoding and decoding of the depends_on label: the key set is assumed to survive.
- Image name parsing, digests and `VerifyConfiguration`: answers of `Scan.Answers` and a constant of the container.
- The pull-failure delay, the pre- and post-check hooks and all logging: no effect on plan, trace or report.
- Notification templates and delivery, the command line, environment handling, YAML specifications.
- Network, MAC address and host configuration copying: they depend on Docker's own merging.
- DeployAgreement.DeployedEdges: assumes default container names, names without hyphen, separator or blank, no dependency labels set by hand and no shared network, because other names can be matched as replicas or services.
- Planner.SecondSortIff: ranges over every list of containers that may be restarted; the lists that one session can produce are closed under matching links, so an ill-named list need not fail in any session. For a given session `UpdateAction.UnplannableIff` is exact.
- CycleDetection.AllMarkedOnSeparateCycles: its condition is sufficient only, because whether the others are marked depends on the order of the neighbors (`CycleDetection.NeighborOrderMatters`).
- SessionFacts.ReportAccurate: assumes that the client never calls a container stale for the image it runs; `SessionFacts.FailureShownIffNewImage` and `UpdateAction.Update` do not.
- Cleanup.RemoveExcessContainers: image names are not part of the recorded image information, because nothing depends on them.
- NotificationUrls.SplitNotificationValues: characters are units; invalid UTF-8 bytes and the warning for invalid URLs are not modelled.
- UpdateLock.TokenConserved: panics inside a holder are covered only in that the deferred release is a step like any other; fairness of the channel is not modelled.
