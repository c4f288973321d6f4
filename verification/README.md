# Verified model of the devcontainer engine

The engine brings a dev container up from a `devcontainer.json`. Behind its
Docker plumbing sit several real algorithms: it grows a list of features through
their `dependsOn`, orders them, pins them in a lockfile, merges metadata layers,
writes those layers into an image label and reads them back, orchestrates compose
services level by level, runs lifecycle hooks once per container, caches OCI
features on disk and merges `PATH`. This project models those algorithms in Dafny
and proves what they promise, for every input, every run and every reachable state.

## How it is laid out

| files | what they hold |
|---|---|
| `Prelude`, `Ordering`, `Graphs` | sequences, sorting, string order; paths, cycles, longest chains |
| `FeatureModel`, `FeatureTerms`, `FeatureGraph`, `Kahn`, `CyclePath`, `TopoSort`, `Determinism`, `Overrides`, `FeatureOrder`, `InstallOrder` | options, the feature graph, `topoSort` with its depth tracking and cycle search, `Order` |
| `Locking`, `Expansion`, `PinnedFetch`, `Layering`, `LockProtocol`, `LockLater`, `LockRefused`, `LockRefusalRun`, `InputsHash` | the `layerFeatures` loop, what it installs, the lockfile over several runs, the local-feature walk of the compose inputs hash |
| `ComposeModel`, `ComposeSpec`, `ComposeGraph`, `ComposeUp`, `ComposeSafety`, `ComposeTerms`, `ComposeProgress`, `ComposeRuns`, `ComposeReuse`, `ComposeRecreate`, `ComposeDown` | services and their hash, levels, `Up` as a machine over interleaved steps, teardown |
| `Json`, `Metadata`, `MergeLists`, `MountLists`, `HookLists`, `MetadataMerge`, `MergeFields`, `MergeLaws`, `MetadataLabel`, `Reattach`, `LabelTerms` | `MergeMetadata`, its algebra, the label as a JSON tree, reattach against the full path |
| `ParallelHooks`, `Lifecycle`, `PhaseOrder`, `OciCache`, `PathText`, `PathMerge`, `PathOrder` | run-once markers, the feature cache, `mergePath` |

`FeatureTerms`, `InstallOrder`, `PinnedFetch`, `ComposeTerms`, `MergeFields`,
`LabelTerms` and `PhaseOrder` state results on the inputs themselves: on references,
digests, service fields, layer fields, JSON and phases, without the model's own
helpers, so that a slip in a helper shows.

Code that updates things in place is a method or a class whose contract ties the
new state to a function of the old one; the theorems are then lemmas about that
function. `Up` is different: its goroutines interleave, so each `ensureService` is
a task that takes one runtime call at a time (`ComposeUp.TaskStep`), a run is any
sequence of enabled actions, and each answer of the runtime, each order in which a
Go map is walked and each change someone else makes to a container's status or to
the image store is an action.

## What is assumed

- A service's `Name` is its key in the project; container ids are never empty.
- The configuration digest and the printed form of an option map are injective.
- Container start times increase from one restart to the next, and reading a marker
  file that is there does not report it missing. A container's image may hold markers,
  but none under a key of that container itself.
- The feature store is content-addressed: two references that resolve to one
  digest yield the same metadata. The results about whole expansions assume one
  answer per reference within a call, and the lockfile results also between calls,
  and that what image labels record of artifacts is true; the invariant of the
  expansion (`Expansion.MovingInv`) needs neither.
- Runtime, registry, feature store and file system are state with arbitrary
  failures; variable substitution, the CSV form of a mount and hook commands are
  arbitrary functions.

## Where the code falls short of its documentation

- `MergeMetadata`'s comment calls it idempotent. A second merge of the same layers
  adds their hooks again, and every mount without a target; `MergeLaws.MergeTwice`
  gives the exact condition and `MergeLaws.HookAddedAgain` an input.
- `gateLevel` keeps one condition per dependency. When strict dependents disagree,
  the order in which a map is walked decides which one is checked
  (`ComposeSafety.CheckedIffAgreed`), and a service then can start unchecked:
  `ComposeRuns.GatedIffAgreed` says when over all runs, `ComposeRuns.ConditionMissed`
  gives a run.
- An image that is absent at the first `Up` is stamped by its reference, so the
  next `Up` recreates the container: `ComposeRecreate.AbsentImageRecreates` is the
  pair of runs, `ComposeRecreate.RecreatedIffMoved` the exact condition.
- A single hook that runs nothing, a hook with both forms, and a mount that names
  nothing are lost in the label; `Reattach.ReattachAgrees` says that these are the
  only cases, `Reattach.EmptyCommandLost` shows one. A base image label that does
  not parse is ignored by the full path and refused by reattach
  (`Reattach.GarbledLabelRefused`).
- A `PATH` entry declared twice can pull the insertion point back
  (`PathOrder.RepeatedEntryReorders`); `PathOrder.DeclaredOrder` says exactly when
  the declared order is lost.
- A phase whose marker was written although the write reported failure is not
  retried; `Lifecycle.FailedPhaseRetries` says this and an unreadable matching marker
  are the only such cases, and only while the phase keeps its key: a restart gives
  `postStart` another one.
- The call after an upgrade call can fail although nothing changed: a feature the
  base image carries keeps its options unmerged, is then asked for again, and names
  a local path that was dropped as a duplicate by then.
  `LockRefusalRun.UpgradeThenRefused` is such a pair of calls, `LockLater.LaterRuns`
  says exactly when, `LockRefused.RefusedOnlyIf` what must be the case beforehand.
- `registryUnreachable` takes every failure without an error status for an outage,
  so a registry that answers with something unusable is also passed over for the
  record of a floating tag: `OciCache.FloatingFollowsRegistry` says exactly when,
  `OciCache.UnusableServesRecord` gives a history.

## Model

| member | source | states |
|---|---|---|
| `FeatureModel.MergedOptions` | feature/options.go:23-76 | the request wins over defaults, every default is there, nothing else is, and it fails exactly when a declared option rejects its value |
| `FeatureModel.MergeOptions` | feature/options.go:23-50 | the two map loops, for any iteration order, yield the merged options or the rejection |
| `FeatureTerms.RejectsExactly` | feature/options.go:54-87 | a request fails exactly when it gives a declared option a value that prints as none of the allowed ones or, where all are allowed, is not of the boolean or string type declared |
| `FeatureTerms.SameOptionsIs` | feature/graph.go:176-188 | an entry holds a request's options exactly when the request is good and the entry's options are the values it gives plus the defaults of what it leaves out |
| `FeatureTerms.IdentityIs` | feature/graph.go:282-298 | the id of any reference: what precedes its last at sign, and of that what precedes its tag, a scheme's colon kept unless a slash follows the last one |
| `FeatureGraph.DependencyEntries` | feature/graph.go:163-174 | of the entries with the key's id, exactly those with equal options after defaults, or all of them when none has |
| `FeatureGraph.BuildGraph` | feature/graph.go:58-91 | adjacency lists hold exactly the installsAfter and dependsOn edges, in-degrees count them, and a feature starts at zero exactly when nothing precedes it |
| `Kahn.QueueStep` | feature/graph.go:111-135 | a turn keeps the queue invariant: listed and queued entries are distinct and are exactly those whose blockers are all listed |
| `Kahn.DepthStep` | feature/graph.go:126-134 | a turn keeps every listed or queued entry's depth one more than its deepest predecessor's |
| `Kahn.FullListing` | feature/graph.go:111-140 | an exhausted queue that listed everything lists a permutation that respects every edge, so the graph has no cycle |
| `Kahn.ChainBound` | feature/graph.go:93-134 | no chain ending in a listed entry is longer than its depth |
| `Kahn.ChainExists` | feature/graph.go:93-134 | a chain from a root of exactly the recorded depth ends in each listed entry |
| `Kahn.DepthExact` | feature/graph.go:93-144 | the largest depth of a full listing is the length of the longest chain in the graph |
| `TopoSort.BuildDeepestPath` | feature/graph.go:204-227 | walking back from the deepest entry yields a chain from a root, as long as the depth, one level per step |
| `CyclePath.Visit` | feature/graph.go:238-262 | the search either leaves finished entries that lead only to earlier finished ones, or closes a simple cycle whose parent links lead back to its start |
| `CyclePath.CycleOf` | feature/graph.go:231-280 | for entries the queue could not list, the result minus its last element is one simple cycle; the fallback is never used |
| `TopoSort.TopoSort` | feature/graph.go:53-155 | for two or more features: an install order if acyclic and less than 64 deep, the exact depth and a longest chain if deeper, one simple cycle if cyclic; a warning exactly from depth 16; shorter lists pass unchanged |
| `InstallOrder.SortedInTurns` | feature/graph.go:51-135 | a successful sort lists features turn by turn: first those nothing in the list precedes, then for each listed feature those it was the last to hold up, and within a turn by reference and then by the JSON of the options |
| `InstallOrder.IndependentSorted` | feature/graph.go:190-199 | features without edges among them come out ascending by reference and JSON of the options |
| `InstallOrder.DepthLimits` | feature/graph.go:14-18 | a list whose longest chain has d edges sorts exactly below 64, with a warning exactly from 16 on, and reports d |
| `Determinism.RunsAgree` | feature/graph.go:93-135 | relabelled inputs go through relabelled turns of the queue, whatever the order of map iteration |
| `FeatureOrder.SplitByOverride` | feature/order.go:48-68 | the taken-map loops yield the features named by an override and the rest |
| `Overrides.SplitPermutes` | feature/order.go:48-68 | the two parts together are the input |
| `FeatureOrder.Order` | feature/order.go:27-41 | the overridden features followed by an outcome of sorting the rest |
| `FeatureOrder.OrderPermutes` | feature/order.go:14-41 | a successful Order returns a permutation of its input |
| `FeatureOrder.OverridesLead` | feature/order.go:43-68 | exactly the features an override entry has the id of lead, each no later in the overrides than those behind it |
| `FeatureOrder.OrderSortsRest` | feature/order.go:27-41 | the others, in the order they have in the list, are sorted: Order fails and warns as that sort does and ends with its result |
| `FeatureOrder.SortDeterministic` | feature/graph.go:53-199 | on distinct (ref, options), topoSort answers alike for every permutation of its input: same slice and warned depth, or same kind of failure and depth |
| `FeatureOrder.OrderDeterministic` | feature/order.go:27-41 | without overrides, Order answers alike for every permutation of its input |
| `FeatureOrder.OrderIdempotent` | feature/order.go:21-41 | ordering an ordered list again succeeds and returns it, with overrides too |
| `Expansion.CollectDependencies` | up.go:462-484 | the key loop yields the requests a feature's dependsOn adds to the list, or fails on a refused local path |
| `Expansion.DependenciesIs` | up.go:462-484 | each added entry is a request of the feature, and afterwards every dependsOn key is requested somewhere in the list with equal options |
| `Expansion.StepInv` | up.go:1432-1505 | a turn of the growing list keeps: what is ahead is unfetched, dropped entries have a kept twin, every processed entry's dependencies are met, no fetched pair occurs twice |
| `Expansion.IterateInv` | up.go:1432-1505 | the same over any number of turns |
| `Expansion.MovingInv` | up.go:1432-1505 | the same when references move between two turns |
| `Expansion.StepDecreases` | up.go:1432-1505 | every turn lowers (pairs not yet kept, baked entries ahead, list remainder), although dropped aliases may be requested again |
| `Expansion.Config.MarkAlreadyInstalled` | up.go:413-452 | exactly the features some label entry matches under the lock are flagged, with that entry's metadata, in place |
| `Expansion.Config.Turn` | up.go:1432-1505 | one pass of the loop body over the live list is the step of the model |
| `Expansion.Config.Expand` | up.go:1424-1505 | the loop ends whenever finitely many (content, options) pairs are reachable, in the state the model reaches, entries that came with their directory passed over; from a list without such entries that state satisfies the invariant |
| `PinnedFetch.FetchTurn` | up.go:1455-1505 | a turn on an unfetched entry installs what the store serves for it: under a lock the artifact at the locked digest that bears it, else what its reference or local path names; kept in place unless an earlier entry has its content and options; it fails when there is no such artifact or it refuses the options |
| `PinnedFetch.BuiltInTurn` | up.go:1434-1454 | a turn on an entry the image carries installs nothing: its dependencies are the label's or, where that is silent, those of the artifact the label resolved, and it fails when neither is to be had |
| `PinnedFetch.OtherDigestFails` | feature/lockfile.go:183-190 | a locked entry whose artifact resolves to another digest, read after the at sign for OCI and whole otherwise, stops the call |
| `PinnedFetch.IterateBears` | up.go:1466-1476 | over any number of turns every entry come to and every one dropped bears the digest its reference is locked to |
| `PinnedFetch.LockedDigests` | up.go:1424-1505 | from the declared features and the label: the same for all that was taken from the image, fetched or dropped, wherever references move between turns |
| `PinnedFetch.MarkedIs` | lockfile.go:71-92 | a feature is taken from the image exactly when some label entry matches it and, outside disabled mode, was resolved, bears the locked digest if there is one, and the mode is not upgrade; the first such entry is taken |
| `PinnedFetch.RequestIs` | up.go:462-484 | a request names one dependsOn key with its options, carries nothing, and its key's beginning makes it local, a URL or OCI |
| `Layering.DependenciesInstalled` | up.go:1432-1517 | after expansion and ordering of two or more features every dependsOn of every listed feature is met by an entry, and every newly fetched entry that meets it under the key's id stands strictly before |
| `Layering.NoFetchedDuplicates` | up.go:551-558 | no fetched entry shares resolved reference and options with an earlier entry, absent options being told from empty ones |
| `Locking.LoadLock` | lockfile.go:44-58 | fails exactly when the mode is frozen and there is no lockfile |
| `Locking.LockEntry` | feature/lockfile.go:145-168 | the entry recorded for an artifact, dependencies sorted; none for a local feature |
| `Locking.ChangedKeys` | feature/lockfile.go:103-129 | no key changed exactly when the lockfiles are equal |
| `Locking.Changed` | feature/lockfile.go:113-129 | the two map loops, in any order, yield the added, removed and re-pinned keys, sorted |
| `Locking.Equal` | feature/lockfile.go:103-108 | equality of lockfiles, a missing one equal only to a missing one |
| `Locking.Commit` | lockfile.go:99-120 | unchanged exactly when the file read equals the one built; otherwise written, or in frozen mode reported with the changed keys |
| `Locking.CommitNoFeatures` | lockfile.go:122-138 | stale entries are dropped, or all reported in frozen mode; nothing happens without a lockfile |
| `PinnedFetch.NextLockfileIs` | lockfile.go:99-120 | the lockfile built holds exactly the non-local references; each entry is that of the last feature under it: its lock when the image carries it, else version, what it resolved to or was fetched from, digest and ascending dependsOn keys |
| `LockProtocol.ExpansionReaches` | up.go:1432-1505 | kept and dropped entries together name exactly the references reachable through dependsOn |
| `LockProtocol.FirstCommit` | lockfile.go:99-120 | a from-scratch commit records exactly the reachable non-local references, each with its artifact's entry, whatever was baked, dropped or aliased |
| `LockProtocol.FetchPinned` | feature/lockfile.go:172-201 | under its pin a reference yields the artifact it yielded without one, asked for by digest |
| `LockProtocol.SameStart` | lockfile.go:99-120 | from the same marked list, a locked run ends with the same features and builds the lockfile it read |
| `LockLater.MarksAgree` | lockfile.go:77-92 | after a first default call the same features are taken from the base image under the lockfile as without one |
| `LockLater.RunsOut` | up.go:1432-1505 | a run whose every request is known to be good neither fails nor goes on forever |
| `LockLater.UpgradeSound` | up.go:1432-1505 | a finished upgrade run shows every request reachable from its list to be good, whatever the check of local paths would say of it later |
| `LockLater.LaterRuns` | lockfile.go:61-120 | from the declared features and the label, after a from-scratch call in default or upgrade mode: a default or frozen call, marking anew what the base image carries, ends and builds the lockfile it read exactly unless some turn names a local path that is refused to it and no longer listed, and fails then, which never happens after a default call; every non-local feature it fetches it asks for by its pin |
| `LockLater.TurnRefuses` | up.go:462-500 | a turn refuses such a path and fails, or is the turn of a world in which no one checks local paths |
| `LockRefused.RefusedOnlyIf` | up.go:413-500 | that failure needs a declared feature the base image carries, and a reachable artifact naming a local path it may not that is not declared with those options or shares its content with another reachable reference |
| `LockRefused.SteadyRun` | up.go:540-558 | a local path declared as asked for, whose content no other reachable reference has, stays listed over any number of turns |
| `LockRefusalRun.NextRefuses` | up.go:462-500 | a library carried with unmerged options, an application asking for it with merged ones and a path with a second spelling: the library is fetched anew and refused the path |
| `LockRefusalRun.UpgradeThenRefused` | up.go:1424-1509 | four declared features, an upgrade call that ends well and the default call after it that fails |
| `InputsHash.HashLocals` | up_compose_reattach.go:141-167 | the hash covers, each once and with its digest, exactly the local features reachable through local dependsOn beyond the declared ones; it fails only on one of them that cannot be read |
| `InputsHash.LocalDepsAre` | up_compose_reattach.go:141-167 | the walk goes from a feature exactly to the dependsOn keys that begin as a path does |
| `InputsHash.HashCovers` | up_compose_reattach.go:137-167 | every local feature the build would list at any turn from the declared features is declared or is covered by the hash |
| `ComposeGraph.TopoSort` | compose/graph.go:30-85 | sorted levels that partition the services, or a cycle; a cycle exactly when the graph without self-edges has one |
| `ComposeGraph.LevelIsDepth` | compose/graph.go:54-85 | a service's level is the length of its longest dependency path |
| `ComposeGraph.FindCycle` | compose/graph.go:90-134 | the walk over stuck services ends in a closed simple cycle and never dead-ends |
| `ComposeGraph.ServiceClosure` | compose/graph.go:171-196 | the least set that holds the named services and is closed under edges, sorted |
| `ComposeGraph.MakeKeepSet` | compose/orchestrator.go:872-888 | every service, or the least closed set of those asked for |
| `ComposeSafety.MakePlan` | compose/orchestrator.go:108-142 | what Up starts from is a valid plan, whatever services are asked for and whatever absent names they mention; it fails exactly on a cycle |
| `ComposeTerms.DepsNamed` | compose/graph.go:136-162 | a service depends on exactly the other services of the project that it lists in depends_on or whose network, process or IPC namespace it shares |
| `ComposeSpec.HashSeesOnlyStripped` | compose/hash.go:46-91 | two configurations hash alike exactly when image and all but the stripped fields are equal |
| `ComposeSpec.EqualHashEqualSpec` | compose/orchestrator.go:626-757 | equal hashes translate to run specs that differ at most in limits a deploy section supplies and in the ids of joined containers, and not at all when those agree |
| `ComposeSpec.LabelsStick` | compose/orchestrator.go:633-649 | no label a service declares changes the hash, service or project label; the digest label likewise, and it holds the digest exactly when there is one or the engine sets none |
| `ComposeTerms.CreatesAsDeclared` | compose/orchestrator.go:626-757 | every container any run creates has its service's image, name, command, entrypoint, user, directory, set variables, mounts, ports, restart policy, health check, flags, capabilities and limits as declared, its labels under the orchestrator's own, and joins what was recorded |
| `ComposeUp.GatherRequirements` | compose/orchestrator.go:476-507 | the requirement loops of gateLevel for a given order of the services and any order of their dependencies |
| `ComposeSafety.RequirementsAsked` | compose/orchestrator.go:476-507 | every requirement was asked for, none asked for is missing, and an optional one never displaces a strict one |
| `ComposeSafety.FirstStrictDecides` | compose/orchestrator.go:496-503 | the first strict dependent in map order decides the condition |
| `ComposeSafety.CheckedIffAgreed` | compose/orchestrator.go:496-503 | a strict condition is checked under every map order exactly when all strict dependents agree on it |
| `ComposeRuns.GatedIffAgreed` | compose/orchestrator.go:463-617 | over all runs: a service never starts before a condition it strictly requires was observed exactly when all strict dependents agree on it |
| `ComposeRuns.DisagreementMisses` | compose/orchestrator.go:496-503 | in every valid plan whose strict dependents disagree there is a run that starts a service without its condition ever being looked at |
| `ComposeRuns.ConditionMissed` | compose/orchestrator.go:496-503 | a valid plan of three services and a run of it that starts one although its database was never seen healthy |
| `ComposeSafety.PassSatisfies` | compose/orchestrator.go:541-617 | a poll passes exactly when the container is healthy, or runs with no active healthcheck declared, or exited 0, as asked |
| `ComposeTerms.GateOpensIff` | compose/orchestrator.go:541-583 | a wait can end well exactly when the container is healthy, or runs, reports nothing and its service has no health check, a disabled one, an empty test or NONE, or exited 0, as asked |
| `ComposeTerms.GateFailsAtOnceIff` | compose/orchestrator.go:584-605 | a wait can always time out; it fails at once exactly on an unhealthy container or one that exited otherwise, as asked |
| `ComposeSafety.StepInv` | compose/orchestrator.go:108-226 | every enabled action, of any task, gate or status change, keeps the invariant of Up |
| `ComposeSafety.RunInv` | compose/orchestrator.go:108-226 | the invariant holds after every run |
| `ComposeSafety.StartsAfterDependencies` | compose/orchestrator.go:144-202 | in every interleaving a container is created or started only after each other service it depends on was ensured, and that id is in the result and still names that service's container |
| `ComposeSafety.JoinsRecorded` | compose/orchestrator.go:709-734 | every created container joins exactly the containers recorded for the services its modes name |
| `ComposeSafety.StartsAfterConditions` | compose/orchestrator.go:463-617 | a service starts only after each condition it strictly requires was observed, provided strict dependents agree |
| `ComposeTerms.StartsOnTerms` | compose/orchestrator.go:463-617 | on the services' own fields: no container is created or started before each service its own requires under a condition was seen to meet it, one without a health report only with no active check declared, provided the kept services requiring it ask the same |
| `ComposeTerms.StartsAfterNamed` | compose/orchestrator.go:144-202 | nor before each other service of the project that its own names was recorded |
| `ComposeTerms.OnlyKeptStart` | compose/orchestrator.go:144-202 | containers are created and started only for services asked for or depended on |
| `ComposeTerms.RecordedRan` | compose/orchestrator.go:318-436 | every container in the result was running at some point of the run |
| `ComposeProgress.BreaksIff` | compose/orchestrator.go:318-458 | a service's bring-up fails exactly when listing, removing, creating, pulling or starting does, or a namespace to join has no container; an image or container that cannot be inspected fails none |
| `ComposeProgress.StepsBounded` | compose/orchestrator.go:156-226 | whatever is answered and happens meanwhile, Up takes at most eleven steps a service and two a level |
| `ComposeProgress.CanStillFinish` | compose/orchestrator.go:156-226 | as long as nothing failed every run can be carried on to a good end, provided each joined namespace is that of another service of the project |
| `ComposeSafety.FinishedComplete` | compose/orchestrator.go:156-226 | an Up that ends well recorded every kept service and no other |
| `ComposeSafety.OnlyStrictFails` | compose/orchestrator.go:511-536 | a gate aborts Up only over a condition some kept service strictly requires |
| `ComposeReuse.RemovedOnlyOnDrift` | compose/orchestrator.go:346-410 | over any sequence of Ups a container stands until one that does not adopt removes it because its inspection failed or its own stored hash or digest differs |
| `ComposeReuse.AdoptingKeepsAll` | compose/orchestrator.go:346-364 | adopting Ups remove nothing |
| `ComposeReuse.SettledReuses` | compose/orchestrator.go:318-436 | an Up over settled containers creates and removes nothing and returns their ids |
| `ComposeReuse.SecondUpReuses` | compose/orchestrator.go:318-436 | a second Up of an unchanged plan with unmoved images creates and removes nothing in any interleaving and returns the same ids |
| `ComposeRecreate.RecreatedIffMoved` | compose/orchestrator.go:318-458 | after an Up that ended well, a second one with answered inspections removes a service's container only if the image it found in the store had moved from the stamped digest, and if it ends well exactly then |
| `ComposeRecreate.AbsentImageRecreates` | compose/orchestrator.go:412-458 | two Ups of any lone service: the first misses and pulls the image and stamps the reference, the second removes the container |
| `ComposeDown.OrderForTeardown` | compose/orchestrator.go:902-935 | a permutation of the listed containers, later levels first when the project sorts, else by name |
| `ComposeDown.TeardownOrder` | compose/orchestrator.go:902-943 | by the level of the service a container's label, or without one its name, says, the last first, and by name within a level |
| `ComposeDown.DependentsFirst` | compose/orchestrator.go:902-935 | every container of a dependent, by label or name, precedes every container of what it depends on, directly or not |
| `ComposeDown.Runtime.Down` | compose/orchestrator.go:230-251 | what was listed is stopped and removed in that order up to the first refused removal, and nothing else changes |
| `ComposeDown.NoOrphans` | compose/orchestrator.go:235-251 | however far Down got, when a container was stopped or removed every container depending on it had been removed before |
| `ComposeDown.DownComplete` | compose/orchestrator.go:230-251 | on success the project's containers and only those are gone |
| `MergeLists.PickText` | config/merge_metadata.go:222-235 | the user's string, or else the last non-empty one |
| `MergeLists.LastTextIs` | config/merge_metadata.go:222-235 | which one that is, position by position |
| `MergeLists.PickSome` | config/merge_metadata.go:237-248 | the user's flag, or else the last one set |
| `MergeLists.LastSomeIs` | config/merge_metadata.go:237-248 | which one that is, position by position |
| `MergeLists.FindLast` | config/merge_metadata.go:64-72 | the backward walk for host requirements finds the last one set |
| `MergeLists.UnionDedup` | config/merge_metadata.go:270-289 | the seen-set loops yield the union of the two lists without repeats |
| `MergeLists.DedupKeepsFirst` | config/merge_metadata.go:270-289 | it keeps exactly the first occurrences, where they stand |
| `MergeLists.MergeMaps` | config/merge_metadata.go:294-305 | layers overlaid in order, the user's map last, for any order of keys |
| `MergeLists.OverlayLast` | config/merge_metadata.go:294-305 | each key has the value of the last layer that holds it |
| `MountLists.DedupByTarget` | config/merge_metadata.go:318-341 | the backward walk and reversal keep one mount per target |
| `MountLists.LastMountWins` | config/merge_metadata.go:307-341 | it keeps exactly the mounts no later one overrides, where they stand |
| `MountLists.MountsTwice` | config/merge_metadata.go:307-341 | adding the same mounts again changes nothing exactly when all have a target |
| `HookLists.PrependHooks` | config/merge_metadata.go:347-361 | layer hooks that run something, in layer order, before the user's |
| `MetadataMerge.ResolvedConfig.MergeMetadata` | config/merge_metadata.go:47-114 | the in-place merge leaves the folded value of every field |
| `MergeFields.MergedFields` | config/merge_metadata.go:47-361 | every merged field, told by position in the layers' own field of that name, with variables resolved where the code resolves them: texts and flags the user's or the last layer's, maps key by key, unions by first occurrence, mounts by last target, entrypoints and hooks in chain order |
| `MergeFields.DefaultsLast` | config/resolved.go:87-102 | what neither user nor layer sets: overrideCommand true, a login interactive probe, and waiting for updateContent exactly when the user or some layer gives it something to run, else postCreate |
| `MergeLaws.MergeInSteps` | config/merge_metadata.go:47-114 | merging A++B is merging B and then A in every field but entrypoints, and in those exactly when A is empty or B declares none |
| `MergeLaws.MergeTwice` | config/merge_metadata.go:45-114 | merging twice is merging once but for mounts and hooks, and in those exactly when every layer mount has a target and no layer declares a hook |
| `MergeLaws.HookAddedAgain` | config/merge_metadata.go:45-114 | a layer whose hook a second merge adds again |
| `MetadataLabel.HookBack` | config/normalize.go:43-86 | a hook written to the label is read back in normal form |
| `MetadataLabel.MountListBack` | config/normalize.go:88-126 | the mounts written are read back but for those that name nothing |
| `MetadataLabel.EntryRoundTrip` | feature/metadata.go:109-307 | any layer written as a label entry is read back in normal form, field by field |
| `LabelTerms.EntryMeans` | feature/metadata.go:240-307 | any entry decodes to a layer exactly when each field, by its JSON, is that layer's: null as absent, commands as strings or lists, mounts as objects or comma-separated strings, what is no mount passed over |
| `LabelTerms.EntryWrites` | feature/metadata.go:109-198 | the entry written for any layer holds exactly what the layer sets, each in its plain JSON form, and means the layer in normal form |
| `LabelTerms.LabelSays` | feature/metadata.go:63-107 | a build's label holds the base layers' entries, then one for each feature installed, in order, with the artifact it resolved to and its dependencies though there be none, then one with the users and nothing else |
| `Reattach.BuildLabel` | feature/metadata.go:77-107 | base layers, newly installed features with their resolved references, and a trailing entry for the resolved users |
| `Reattach.ParseLabel` | feature/metadata.go:214-238 | an absent label, the single object of old images, or every entry of an array decoded; an error for anything else |
| `Reattach.AllOfIff` | feature/metadata.go:225-237 | an array parses exactly when each of its entries does |
| `Reattach.DecodeMounts` | config/normalize.go:88-126 | the recognised mounts, in order |
| `Reattach.LabelParses` | feature/metadata.go:77-240 | every label a build writes parses, to its layers in normal form |
| `Reattach.HooksSurvive` | feature/metadata.go:176-198 | the hooks merged from the label are the original ones exactly when each was in normal form |
| `Reattach.MountsSurvive` | feature/metadata.go:154-174 | the mounts merged from the label are the original ones exactly when none was blank |
| `Reattach.TailIgnored` | up_compose_reattach.go:366-383 | the trailing entry and the layers of unfetched features change no merged field |
| `Reattach.BuiltAgrees` | up.go:1582-1599 | with something to install: reading the label the build wrote merges to the full path's configuration exactly when every layer is in normal form |
| `Reattach.UnbuiltAgrees` | up_compose_reattach.go:366-383 | with nothing to install: reattach agrees with the full path exactly when the base image's label parses |
| `Reattach.ReattachAgrees` | up_compose_reattach.go:366-383 | for every base label, configuration and feature list, both cases together: reattach yields the configuration of the full path exactly under those conditions |
| `Reattach.GarbledLabelRefused` | up_compose_reattach.go:369-373 | a label that does not parse: the full path goes on without it, reattach gives up |
| `Reattach.EmptyCommandLost` | feature/metadata.go:176-198 | a feature whose hook the label loses |
| `ParallelHooks.Aggregate` | lifecycle.go:331-356 | the flag loop yields the first error, else the first non-zero exit, and the transcript in slot order |
| `ParallelHooks.ExecParallel` | lifecycle.go:305-357 | whatever the commands answer and in whatever order they end, the verdict is that of their outcomes sorted by name |
| `ParallelHooks.PassesIffAll` | lifecycle.go:331-356 | a hook passes exactly when every command ran and exited 0 |
| `ParallelHooks.FirstIs` | lifecycle.go:331-356 | the error reported is that of the first command not run, the exit code the first that is not 0 |
| `ParallelHooks.TranscriptIs` | lifecycle.go:331-356 | the transcript prints what each command wrote under its name in brackets, in order, leaving out silent ones |
| `Lifecycle.Container.RunHooks` | lifecycle.go:131-152 | the hooks up to and including the first that fails |
| `Lifecycle.Container.RunPhase` | lifecycle.go:96-170 | a phase with no commands or a matching marker does nothing; otherwise hooks, then marker |
| `Lifecycle.Container.RunAll` | lifecycle.go:58-69 | the phases in order up to the first that fails |
| `Lifecycle.HistoryInv` | marker.go:92-108 | over every sequence of Ups, failures and restarts: what completed is marked under its key, nothing repeats it, and a readable marker is of a completion or the image's own |
| `Lifecycle.CompletedOnce` | marker.go:92-108 | after a phase completed under a key no hook of it runs under that key again, whatever markers the image holds; create-keyed phases complete once per container |
| `Lifecycle.FailedPhaseRetries` | lifecycle.go:58-170 | after any history, whatever restarts and Ups that do not run the phase lie in between: a phase that failed is run from its first hook by the next Up that comes to it, exactly unless every hook passed and the marker was written unreported, or a matching marker could not be read, and the phase still has the key it had |
| `PhaseOrder.UpAccount` | lifecycle.go:19-170 | an Up succeeds exactly when no phase stops it and then logs what is left to do of initialize, onCreate, updateContent, postCreate, postStart and postAttach, in that order; a failing one logs all of each phase before the first that stops it and part of that one |
| `PhaseOrder.PhasesInOrder` | lifecycle.go:58-69 | in every Up of every history events never go back to an earlier phase, each earlier in-container phase with commands is done under its time before, and success leaves all of them done and marked, provided no marker of the image carries one of the container's own keys |
| `OciCache.DiskStore.FetchOCI` | feature/oci.go:48-103 | local first for digests and exact versions, the registry first for other tags, the record as a last resort |
| `OciCache.HistoryInv` | feature/oci.go:140-210 | over every history, extracted entries hold their digest's content and records hold digests the registry once bound |
| `OciCache.FetchesContent` | feature/oci.go:48-103 | after any history a fetch returns the content of the digest it names, and a digest reference its own |
| `OciCache.TagYields` | feature/oci.go:48-103 | a tag yields what the registry binds it to now or bound it to at the last record; a floating tag the latter only when the call fails without an error status |
| `OciCache.GoodAnswerServes` | feature/oci.go:48-103 | after any history a registry that answers with a feature is followed: a digest yields its content, a floating tag that of the digest it is bound to, an exact version that or its record's |
| `OciCache.ExactIsVersion` | feature/oci.go:118-122 | a tag counts as an exact version exactly when it is three numbers with dots between them |
| `OciCache.FloatingFollowsRegistry` | feature/oci.go:71-127 | after any history a floating tag is answered from its record exactly when the call fails without an error status and the recorded content is there; otherwise it yields what the registry serves, or nothing |
| `OciCache.UnusableServesRecord` | feature/oci.go:121-127 | a registry that answers, with something unusable, and a tag served from its record although bound elsewhere by then |
| `OciCache.ExactStaysLocal` | feature/oci.go:58-69 | a recorded exact version whose content is kept is served from disk for good |
| `OciCache.RecordedIsHeld` | feature/oci.go:89-102 | a successful fetch with its record written brings that state about |
| `PathText.SplitJoin` | userenvprobe.go:169-185 | splitting a joined path gives its entries back |
| `PathMerge.MergePathText` | userenvprobe.go:169-185 | the in-place insertion with its moving cursor, as text |
| `PathMerge.ProbedKept` | userenvprobe.go:169-185 | the probed entries are an in-order subsequence of the result |
| `PathMerge.AddedOnce` | userenvprobe.go:169-185 | the result holds the probed entries and each missing allowed remote entry once, and no more |
| `PathMerge.PathHolds` | userenvprobe.go:152-185 | entry by entry: the merged path holds the probed ones as often as they were and, once each, the missing remote ones that are in no sbin directory or whose user is root, 0 or unset |
| `PathMerge.MergePathIdempotent` | userenvprobe.go:169-185 | merging again changes nothing |
| `PathOrder.DeclaredOrder` | userenvprobe.go:169-185 | for any remote path, repeats included: the merged path lists the declared entries in declared order exactly when the probed one did and, wherever an entry is added, the last entry handled before it is the one first declared latest |
| `PathOrder.DistinctInTurn` | userenvprobe.go:169-185 | entries declared once each always satisfy that condition |
| `PathOrder.RepeatedEntryReorders` | userenvprobe.go:169-185 | for any four distinct entries, one declared twice puts a later one before an earlier one |

## Left out

- FeatureOrder.SortDeterministic: does not say that two permutations report the same path of a cycle or of a deepest chain, because the code's searches start from input positions; kind and depth agree.
- ComposeReuse.SecondUpReuses: asks that the second Up's inspections of images and containers be answered and that no one else move the image of a kept service meanwhile, because otherwise the code recreates, and that the engine's own labels leave the digest label unset.
- ComposeSafety.StartsAfterConditions: is for conditions the strict dependents agree on, because otherwise the code may check another one; `ComposeRuns.GatedIffAgreed` shows this is exact.
- ComposeProgress.CanStillFinish: asks that a kept service join no namespace of its own or of a service the project lacks, because creating its container then fails, as `ComposeProgress.BreaksIff` says; a container that is there already would still do.
- ComposeRecreate.RecreatedIffMoved: is for services whose image the store holds when the second Up starts, because otherwise what the reference resolves to depends on which service pulls it first.
- ComposeDown.Runtime.Down: leaves out networks, volumes and images; Engine.Down passes no project, so the code promises nothing about volumes.
- Reattach.BuildLabel: leaves out customizations, which no merged field reads.
- InputsHash.HashLocals: covers the walk over local dependencies, not the other fields that enter the compose inputs hash; the walk is given a finite set of references closed under local dependsOn.
- The runtime back ends, the registry protocol, archives, HTTPS fetches and generated Dockerfiles.
- Loading compose projects, refusing unsupported ones, the conversion of ports and health checks, YAML overrides and the `docker compose` back end.
- Networks, volumes and hosts-file patching in Up, and containers removed by someone else while Up runs.
- The conditions under which reattach gives up and takes the full path; the merge it commits to is in.
- Initialize on the host beyond its place in the phase order, user id reconciliation, secrets, events and the command line.
- The probe that reads the user's environment and the merge of variables other than `PATH`.
- SHA-256, JSON text and wall-clock time; of the regular expressions only the exact-version tag and the `/sbin` test are modelled.
