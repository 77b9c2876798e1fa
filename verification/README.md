# Verification of the sandbox infrastructure

Dafny models of the parts of the infrastructure whose correctness rests on state, concurrency or arithmetic, with
proofs. `dafny verify dfyconfig.toml` checks everything. One module models one component; `Prelude.dfy` holds the
shared datatypes and the splitting of text at a separator.

- **Snapshot layers** (`BuildMapping.dfy`, `SnapshotLayers.dfy`, `LayerReads.dfy`). A paused sandbox's memory is a diff of
  dirty pages laid over the layers below it. Merging two lists of mappings is an overlay: reading through the result is
  reading the diff where it has an entry and the base elsewhere. From there: the validation accepts exactly the gapless
  mappings, merging preserves validity, and the reader's loop over the merged header returns the paused image.
- **Placement** (`Placement.dfy`). The scan for the least busy node, over every iteration order of the node map, and the
  retry loop over distinct nodes.
- **Accounting** (`Accounting.dfy`). The per-node counters kept by concurrent insert and delete hooks, against the
  recomputation from the instance cache.
- **Sandbox lifecycle on a node** (`Host.dfy`, `Cleanup.dfy`, `SandboxResources.dfy`, `NetworkSlots.dfy`,
  `PauseProtocol.dfy`). What the registered functions do to the host; the two-level clean-up stack, first as the class
  and then as a protocol of concurrent registrations and calls; the staged creation of a sandbox with what each stage
  really starts, and its clean-up; the conservation of network slots; the pause handlers and exit goroutines over the
  sandbox map, the mutex and the permits.
- **Template builds** (`TemplateBuild.dfy`). The transaction over the env, alias and build tables, and the lookup by alias or ID.
- **Batched loading** (`EdgeLoading.dfy`). One query with an IN list and a grouping map refines the lookup row by row.
- **Paths** (`Paths.dfy`, `Directories.dfy`). Resolving user paths, the walk over the ancestors, and the creation of
  missing directories on a tree whose host follows paths piece by piece.
- **Smaller cores** (`SpawnCounter.dfy`, `SandboxList.dfy`, `MetricsFanout.dfy`, `Routing.dfy`, `LogBuffer.dfy`).

Objects that the program updates in place are classes here, its loops are loops, and its concurrent parts are state
machines whose events are the atomic steps of the goroutines. A property of every run is a lemma over every sequence
of events that is a run.

Calls to the outside (databases, other services, clocks, the host's file system) may succeed or fail as they like:
their outcomes are method parameters, event parameters or arbitrary choices. `Unescape` in `SandboxList.dfy` and the
query answer `all` in `EdgeLoading.dfy` are functions passed in.

## What the proofs found

Some expected properties hold only under a condition. Each has a lemma that states the exact condition, and where the
failing case is not obvious, one that exhibits it.

- The node returned by the scan is not always the least busy one. It can exceed the least full load by at most its own
  starting CPUs, hence by 24, and that bound is reached (`Placement.ScanBound`, `Placement.ScanBoundReached`).
- The per-node counters can go negative: both hooks are started as goroutines, so a delete hook may overtake the insert
  hook of the same object. They never do exactly if that order is kept (`Accounting.NeverNegativeIffOrdered`,
  `Accounting.OvertakingRun`). The recomputation skips items that have expired but are not evicted yet, so it agrees
  with the counter exactly if their share vanishes (`Accounting.RecomputationAgrees`).
- A slot whose giving back fails is lost: once all clean-ups are done, all slots are free exactly if no such call
  reported an error (`NetworkSlots.AllFreeAgain`, `NetworkSlots.LosingRun`).
- A process whose start fails while its link is replaced keeps running with no function registered to stop it, and a
  listener whose socket cannot be opened up stays open; these, and a process that cannot be killed, are all that a
  clean-up can leave if every function works (`SandboxResources.UncoveredIsLeaked`, `SandboxResources.LeavesTheLeaked`).
- A clean-up in which nothing goes wrong still reports an error, exactly if it kills a process that has ended by itself
  or stops a fault handler that has ended without stopping itself; so the stop after a wait for the process always
  reports one if it is the first (`SandboxResources.ReportsOwnEnds`, `SandboxResources.End`).
- The exit goroutine removes its sandbox from the map by ID. It removes another object exactly if the ID was inserted
  again since and is still there, and such a run exists (`PauseProtocol.ExitRemovesById`, `PauseProtocol.StaleExit`).
- A committed build keeps aliases apart from env IDs exactly if its own ID already names an env or is no alias. The
  access check of a rebuild runs before the transaction; if the env is deleted in between and its ID is taken as an
  alias, the lookup finds two envs (`TemplateBuild.CommitSeparates`, `TemplateBuild.StaleRebuild`).
- The header lookup answers for the start of the block of the offset asked for, so a read returns the bytes asked for
  at block boundaries and only there (`SnapshotLayers.HeaderLookup`, `LayerReads.ReadsExactly`).
- A read that goes past the end of the image returns the rest of it, with an end-of-file error, only if the header's
  search still looks at the block past the end. It does not if the number of blocks is a multiple of 64 and no empty
  entry starts at the end: then the read fails and returns nothing (`LayerReads.SearchedPastEnd`, `LayerReads.ReadAt`).
  A template without a stored header whose file does not fill its last block is answered at its very end with the bytes
  of that block over again instead (`LayerReads.AnswersAtEnd`).
- Creating directories fails on a path that detours through a directory not yet there, though no file is in the way
  (`Directories.EnsureDirs`, `Directories.DetourMustExist`).
- The walk over the parents ends exactly for absolute paths (`Paths.WalkEndsIffAbsolute`). Of several envs with the same
  ID in one batch only the last gets its builds (`EdgeLoading.BuildsJoinIff`).
- Listing sandboxes dereferences nil exactly when a selected instance of the team has no build ID or an unknown build;
  the check for a missing build ID in the second loop comes too late to prevent it (`SandboxList.GetSandboxes`). The
  comment above the sort says descending; the comparison sorts ascending, and the model follows the code.
- A host reaches its sandbox exactly if the sandbox ID has no dash (`Routing.HostRoundTrip`).

## Model

| member | source | states |
|---|---|---|
| BuildMapping.MergeMappings | packages/shared/pkg/storage/header/mapping.go:75-236 | the merged list is sorted, stays in whole blocks inside the image, and at every byte locates what the diff locates, else what the base locates |
| BuildMapping.LocateAt | packages/shared/pkg/storage/header/mapping.go:14-20 | in a sorted list the entry covering a byte decides where the byte is stored |
| BuildMapping.SplitBase | packages/shared/pkg/storage/header/mapping.go:138-179 | a diff entry inside a base entry splits it in up to two visible parts without changing what is read |
| BuildMapping.MergeEnd | packages/shared/pkg/storage/header/mapping.go:224-236 | once one side is used up, appending the remainder of the other completes a sorted overlay |
| SnapshotLayers.ValidateMappings | packages/shared/pkg/storage/header/inspect.go:88-112 | accepts exactly the lists of block-sized entries that follow each other without gap or overlap up to the size, and panics exactly on an empty list for a non-empty image |
| SnapshotLayers.ContiguousCovers | packages/shared/pkg/storage/header/inspect.go:88-112 | a validated list is sorted and locates exactly the bytes of the image |
| SnapshotLayers.CoversIsContiguous | packages/shared/pkg/storage/header/inspect.go:88-112 | conversely, sorted block-sized entries locating every byte pass the validation |
| SnapshotLayers.OverlayIsContiguous | packages/shared/pkg/storage/header/mapping.go:75-236 | merging a block-aligned diff into a valid mapping gives a valid mapping |
| SnapshotLayers.CreateMapping | packages/shared/pkg/storage/header/mapping.go:22-67 | the entries locate exactly the bytes of dirty blocks, each block at its rank among the dirty ones |
| SnapshotLayers.CreateDiff | packages/shared/pkg/storage/header/diff.go:21-37 | succeeds exactly if every dirty page lies inside the source and there is room to write them all, and then holds each dirty page's bytes at its rank |
| SnapshotLayers.OverlayDescribes | packages/orchestrator/internal/sandbox/sandbox.go:403-415 | every byte of the paused image, dirty or clean, is where the merged layers locate it |
| SnapshotLayers.SnapshotMemory | packages/orchestrator/internal/sandbox/sandbox.go:384-415 | a snapshot of a valid header succeeds exactly if no dirty page exceeds the image and the diff can be written; where the page size is the header's block size, its mapping is valid and describes the image |
| SnapshotLayers.NewHeader | packages/shared/pkg/storage/header/header.go:18-46 | without a mapping every byte of the image is the byte of the same offset in the build's own file, and a given mapping is kept; the index knows every block where an entry starts and points to the last entry starting there; its bit set has the words for all blocks, and for an entry starting beyond them |
| SnapshotLayers.HeaderLookup | packages/shared/pkg/storage/header/header.go:48-73 | the answer is right for the first byte of the offset's block and the rest of the entry, and is the offset's own place exactly at block boundaries |
| LayerReads.ReadAt | packages/orchestrator/internal/sandbox/build/build.go:38-96 | over a valid header, or one with a single entry whatever its size, a read inside the image returns the bytes from the start of the offset's block on; where the image fills its last block, a longer read returns those up to the end, with end of file, exactly if the search looks at the block past it, and none, with an error, if it does not |
| LayerReads.ReadTemplate | packages/orchestrator/internal/sandbox/template/storage.go:40-69 | a template without a stored header: reads at block boundaries return the bytes of the build's own file |
| LayerReads.AnswersAtEnd | packages/shared/pkg/storage/header/header.go:48-73 | such a header still answers at the very end of the image exactly if the image does not fill its last block |
| LayerReads.SearchedPastEnd | packages/shared/pkg/storage/header/header.go:28-64 | the search looks at the block past the image exactly if the number of blocks is no multiple of 64, or an empty entry starts there |
| LayerReads.ReadsExactly | packages/orchestrator/internal/sandbox/build/build.go:38-96 | those are the bytes asked for at a block boundary, and for every image only there |
| LayerReads.SnapshotAndRead | packages/orchestrator/internal/sandbox/sandbox.go:384-415 | a snapshot that succeeds, read back through the new header over the old builds and the diff, gives the paused image at every block boundary; a read past the end gives the rest, or nothing if the number of blocks is a multiple of 64 and no empty entry starts at the end |
| Placement.ScanChoices | packages/api/internal/orchestrator/create_instance.go:237-265 | the nodes some iteration order returns are exactly the eligible ones whose settled CPU usage exceeds no eligible node's full load |
| Placement.ScanBound | packages/api/internal/orchestrator/create_instance.go:258 | if any node is eligible one is returned, its full load at most its own starting CPUs, hence 24, above any eligible node's |
| Placement.ScanBoundReached | packages/api/internal/orchestrator/create_instance.go:258 | the bound of 24 is attained: the comparison can return a node that is not the least busy |
| Placement.ScanNodes | packages/api/internal/orchestrator/create_instance.go:237-265 | the loop over the node objects computes the scan: skipped nodes are the unready, excluded and overfull ones |
| Placement.GetLeastBusyNode | packages/api/internal/orchestrator/create_instance.go:218-268 | a returned node is in the map, eligible, and its settled usage below every eligible node's full load; none is returned exactly if no node is eligible or the wait ends before a scan |
| Placement.ChosenMeans | packages/api/internal/orchestrator/create_instance.go:237-265 | a choosable node is ready, not excluded and starts at most three sandboxes, and its settled CPU usage exceeds no such node's usage with the CPUs it starts |
| Placement.CreateSandbox | packages/api/internal/orchestrator/create_instance.go:113-165 | at most three nodes are asked, all distinct, each chosen among those not tried yet, but for the snapshot's node, which a resume asks first if it is ready; success means the last one accepted and the others refused, failure has three refusals, the request's end or a lack of nodes as its reason; afterwards every node is as before but for one failure counted per refusal |
| Placement.FailuresCounted | packages/api/internal/orchestrator/create_instance.go:138-165 | the counters that grew are those of the refusing nodes, by one each; the sandbox is in progress nowhere it was tried and other sandboxes' entries are unchanged |
| Accounting.CountersAgree | packages/api/internal/orchestrator/cache.go:131-249 | in every reachable state a counter is the sum over the cached instances, less those whose insert hook is due, plus those whose delete hook is due |
| Accounting.CounterSign | packages/api/internal/orchestrator/cache.go:131-249 | a counter is negative exactly if objects deleted before insertion outweigh the ones inserted and not deleted |
| Accounting.NeverNegativeIffOrdered | packages/api/internal/cache/instance/instance.go:141-201 | no run makes a counter negative exactly if delete hooks never overtake insert hooks |
| Accounting.OvertakingRun | packages/api/internal/cache/instance/instance.go:173-201 | a sandbox evicted before its insert hook ran leaves its node at minus its CPUs |
| Accounting.InstanceCache.SetIfAbsent | packages/api/internal/cache/instance/lifecycle_cache.go:73-75 | an object is stored, and so counted as added, only if its sandbox is not cached |
| Accounting.InstanceCache.RemoveForEviction | packages/api/internal/cache/instance/lifecycle_cache.go:44-71 | the cached object of the key is removed and becomes due for the delete hook |
| Accounting.InstanceCache.InsertInstance | packages/api/internal/orchestrator/cache.go:217-249 | the insert hook adds the instance's CPUs and RAM to its node and changes nothing else |
| Accounting.InstanceCache.DeleteInstance | packages/api/internal/orchestrator/cache.go:131-215 | the delete hook subtracts them again |
| Accounting.InstanceCache.GetNodes | packages/api/internal/orchestrator/node.go:96-125 | the recomputed CPU, RAM and count of each node are the totals over its unexpired cached instances: the plain sums where they fit in 32 bits, else their 32-bit values |
| Accounting.SumGrows | packages/api/internal/orchestrator/node.go:107-117 | one more instance adds its CPUs, its memory and one to the sums of its own node, and nothing to any other |
| Accounting.RecomputationAgrees | packages/api/internal/orchestrator/node.go:107-117 | with no hook pending the recomputation equals the counter in 32 bits exactly if the expired instances' share is zero in 32 bits |
| Cleanup.Stack.Run | packages/orchestrator/internal/sandbox/cleanup.go:31-54 | the first call runs priority functions in reverse, then ordinary ones in reverse, all of them despite errors and with their effects on the host in that order; every call returns the same joined error |
| Cleanup.ErrorsRead | packages/orchestrator/internal/sandbox/cleanup.go:36-54 | the joined errors are those of the calls that returned one, each once, in the order of the calls |
| Cleanup.RunCallsOnce | packages/orchestrator/internal/sandbox/cleanup.go:36-54 | with registrations going on concurrently, everything registered before Run is called exactly once, in that order, with what was added before its level's loop started |
| Cleanup.RunReturnsSame | packages/orchestrator/internal/sandbox/cleanup.go:31-34 | after the run has finished, every later call returns its error and calls nothing |
| SandboxResources.NewSandbox | packages/orchestrator/internal/sandbox/sandbox.go:60-296 | the creation stops at its first failing stage; the host then uses what was started, not undone by that stage and not ended by itself, the stack has the functions registered before it, and the pool one slot less if one was served |
| SandboxResources.StartProcess | packages/orchestrator/internal/sandbox/fc/process.go:128-275 | which stage stops the start, and whether the process still runs and the link still exists then: some failures kill the process, some do not |
| SandboxResources.StartUffd | packages/orchestrator/internal/sandbox/uffd/handler.go:85-111 | the listener stays open exactly if listening succeeded, also when its socket cannot be opened up |
| SandboxResources.UncoveredIsLeaked | packages/orchestrator/internal/sandbox/sandbox.go:60-296 | for every stopping stage, what is in use without a registered function to give it up is exactly the listener of a socket not opened up, and a process that has not ended by itself when its link could not be replaced or killing it failed |
| SandboxResources.LateStartFailure | packages/orchestrator/internal/sandbox/fc/process.go:227-240 | a link that cannot be removed leaves the process running with no function to stop it, while the slot has one |
| SandboxResources.Create | packages/orchestrator/internal/server/sandboxes.go:58-80 | a failed creation is cleaned up at once: each registered function is called once, the slot's last, exactly what no working function gives up stays in use, the slot is back in the pool or released unless that goes wrong, and if nothing goes wrong an error means that the process or the fault handler had ended by itself |
| SandboxResources.End | packages/orchestrator/internal/server/sandboxes.go:84-98 | of the delete's stop, the stop after the wait and the last run only the first has an effect, the same as above, and all three return its error, whether or not the process or the fault handler ended by itself before |
| SandboxResources.ReportsOwnEnds | packages/orchestrator/internal/sandbox/sandbox.go:240-258 | if nothing goes wrong with the functions, a clean-up reports an error exactly if it kills a process that has ended, or stops a fault handler that has ended without stopping itself |
| SandboxResources.LeavesTheLeaked | packages/orchestrator/internal/server/sandboxes.go:58-80 | if every registered function works, something stays in use exactly if the creation stopped at one of the leaking stages and, for the process, it has not ended by itself |
| Host.Pool.Get | packages/orchestrator/internal/sandbox/network/pool.go:101-119 | a used slot is taken first, even when the request has ended; otherwise a new one; none only if there is no used slot and either no new one or an ended request |
| Host.Pool.Return | packages/orchestrator/internal/sandbox/network/pool.go:121-149 | the slot goes to the channel for reuse, or if that is full its key is released; an error is reported exactly if then the network or the key stays |
| Host.Host.Perform | packages/orchestrator/internal/sandbox/sandbox.go:99-258 | what each registered function gives up and when it reports an error: closing the listener removes its socket file, and a process or fault handler that has ended cannot be stopped |
| Host.SilentMeansDone | packages/orchestrator/internal/sandbox/sandbox.go:99-258 | a function that reports no error has given up everything it can, but for the closing of the overlay and the unlinking of a closed socket |
| Host.Host.SignalUffd | packages/orchestrator/internal/sandbox/uffd/handler.go:74-111 | the stop function signals once and then repeats its first answer, an error if the handler had ended; the signalled handler closes the listener, which removes the socket file |
| NetworkSlots.SlotsConserved | packages/orchestrator/internal/sandbox/network/pool.go:101-149 | in every run of many sandboxes each slot is exactly one of free, lost and held by one sandbox, and lost exactly if some sandbox logged an error of the call giving it back |
| NetworkSlots.AllFreeAgain | packages/orchestrator/internal/sandbox/network/pool.go:121-149 | once all clean-ups are done all slots are free exactly if no call giving one back reported an error |
| NetworkSlots.LosingRun | packages/orchestrator/internal/sandbox/network/pool.go:121-149 | a run in which a slot is lost |
| NetworkSlots.SlotReturnedLast | packages/orchestrator/internal/sandbox/cleanup.go:36-54 | a slot's function is called once and after every other function of its sandbox; the sandbox has lost the slot exactly if that call logged an error |
| NetworkSlots.BoxRunsAlone | packages/orchestrator/internal/sandbox/cleanup.go:36-54 | whatever other sandboxes do, a sandbox's clean-up is a run of its own stack with exactly what it registered and called |
| NetworkSlots.AcquireStarts | packages/orchestrator/internal/sandbox/sandbox.go:88-99 | a sandbox that takes a slot takes it from the free ones and starts with the slot's function as its only one |
| PauseProtocol.PermitsConserved | packages/orchestrator/internal/server/sandboxes.go:203-218 | in every run free permits and unreleased holders make eight, each finished call released once, refused ones never, and at most eight calls are inside a snapshot before its early release |
| PauseProtocol.SnapshotAtMostOnce | packages/orchestrator/internal/server/sandboxes.go:220-235 | in every run no two pauses own the same object, and snapshots are distinct objects among those inserted |
| PauseProtocol.ExitRemovesById | packages/orchestrator/internal/server/sandboxes.go:86-98 | over all runs, the removal at an object's exit leaves every other object in the map exactly if its ID is gone from the map or was not inserted again since; otherwise the object inserted last goes missing |
| PauseProtocol.StaleExit | packages/orchestrator/internal/server/sandboxes.go:82-98 | a run in which the exit of a deleted sandbox removes its successor, so that a pause of that finds nothing |
| PauseProtocol.TableHoldsLatest | packages/orchestrator/internal/server/sandboxes.go:82-235 | over all runs, an object is in the map exactly if its insertion is the last under its ID and no delete, exit or pause removal of that ID came after it |
| PauseProtocol.LookupFinds | packages/orchestrator/internal/server/sandboxes.go:220-229 | a pause obtains exactly the object standing under its ID, and is sent away without one if there is none |
| PauseProtocol.DeletedIsGone | packages/orchestrator/internal/server/sandboxes.go:157-190 | after a delete, with no insertion of the ID in between, a pause finds no sandbox |
| PauseProtocol.CallsGoOn | packages/orchestrator/internal/server/sandboxes.go:194-275 | in every run a pause makes at most ten steps, each taking it further |
| PauseProtocol.SnapshotsRecorded | packages/orchestrator/internal/server/sandboxes.go:235-275 | in every run there are as many snapshots as pauses that began one |
| TemplateBuild.GetCPUAndRAM | packages/api/internal/handlers/template_request_build.go:370-416 | accepts exactly the values within the limits with even memory, and returns those given or the defaults 2 and 1024 |
| TemplateBuild.Database.TemplateRequestBuild | packages/api/internal/handlers/template_request_build.go:54-368 | the tables change only on acceptance, and then by the whole request; without faults it is accepted exactly if access, resources, build ID and alias allow, and each refusal code has its reason |
| TemplateBuild.CommitKeeps | packages/api/internal/handlers/template_request_build.go:188-329 | a commit keeps foreign keys, one waiting build and one renamable alias per env; its build is the env's only waiting one and its alias points to the env |
| TemplateBuild.CommitEnvs | packages/api/internal/handlers/template_request_build.go:198-213 | an existing env keeps its team and counts one more build, a new one has the request's team and one build, and all others stay |
| TemplateBuild.CommitsBuilds | packages/api/internal/handlers/template_request_build.go:223-250 | the env's waiting builds become failed and keep everything else, the new build waits with the resources asked for or the defaults, and all others stay |
| TemplateBuild.CommitsAliases | packages/api/internal/handlers/template_request_build.go:252-323 | a new alias replaces the env's renamable ones, and all others stay |
| TemplateBuild.CommitFindsNoMore | packages/shared/pkg/db/envs.go:115-135 | a commit uploads no build and takes none back, so the lookup finds no env without an uploaded build from before |
| TemplateBuild.DeleteForgets | packages/shared/pkg/db/envs.go:115-135 | a deleted env is not found any more, and the lookups of the others stay as they were |
| TemplateBuild.UploadFinds | packages/shared/pkg/db/envs.go:115-135 | an uploaded build makes its env found by ID and by each alias |
| TemplateBuild.CommitSeparates | packages/api/internal/handlers/template_request_build.go:252-323 | a commit keeps aliases apart from env IDs exactly if its own ID is an existing env's or no alias |
| TemplateBuild.RunsSingleValued | packages/shared/pkg/db/envs.go:115-135 | over every timely run of builds, deletions and status changes the lookup by alias or ID finds at most one env |
| TemplateBuild.StaleRebuild | packages/api/internal/handlers/template_request_build.go:117-131 | a run in which a rebuild passes the access check, its env is deleted, and committing it makes the lookup find two envs |
| EdgeLoading.LoadCreator | packages/shared/pkg/models/env_query.go:631-662 | asks once for each distinct key, fails exactly on a query error or an unexpected row, and gives each env the last row answered for its key |
| EdgeLoading.LastWithIsLast | packages/shared/pkg/models/env_query.go:648-660 | the row an env gets is the one with its key after which no other has it |
| EdgeLoading.CreatorsJoin | packages/shared/pkg/models/env_query.go:631-662 | for any answer with exactly the rows of the IN list, in whatever order, there is no foreign-key error and each env's edge is its own lookup, shared and missing keys included |
| EdgeLoading.LoadCreatorFrom | packages/shared/pkg/models/env_query.go:631-662 | loading from a table with such answers succeeds and gives every env what its own lookup gives |
| EdgeLoading.LoadBuilds | packages/shared/pkg/models/env_query.go:693-725 | fails exactly on a query error or a row of an env not asked for; otherwise each env gets its rows in order and keeps everything else |
| EdgeLoading.OfReads | packages/shared/pkg/models/env_query.go:712-725 | an env's rows are those naming it, in the order of the answer |
| EdgeLoading.BuildsJoin | packages/shared/pkg/models/env_query.go:693-725 | any answer with the rows of the IN list, in whatever order, has each env's rows, each as often as the table, and no stray row |
| EdgeLoading.BuildsJoinIff | packages/shared/pkg/models/env_query.go:693-725 | whatever the order of the answer, an env of a batch gets its own rows exactly if it is the last with its ID or has none |
| EdgeLoading.BuildsInOrder | packages/shared/pkg/models/env_query.go:693-725 | an answer in the table's order gives each env its rows in that order |
| EdgeLoading.LoadBuildsFrom | packages/shared/pkg/models/env_query.go:693-725 | loading from a table with such answers succeeds, and gives an env what its own query gives exactly if it is the last with its ID or has no rows; the others get nothing |
| Paths.WalkEndsIffAbsolute | packages/envd/internal/permissions/path.go:49-62 | going from parent to parent meets the root exactly if the path is absolute |
| Paths.GetSubpaths | packages/envd/internal/permissions/path.go:49-62 | for an absolute path the loop ends with the ancestors of its parent, shallowest first, and the path as given |
| Paths.SubpathsOfClean | packages/envd/internal/permissions/path.go:49-62 | for a clean path that list is the ancestor chain; the root appears only as its own chain |
| Paths.ChainOfParents | packages/envd/internal/permissions/path.go:49-62 | each element of the chain is the parent of the next, the first lies in the root, the last is the path |
| Paths.ResolvesFromHome | packages/envd/internal/permissions/path.go:28-47 | with an absolute home exactly the paths of other users' homes are refused; absolute paths come back unchanged, others become the clean path reached from home piece by piece |
| Paths.TildeMeansHome | packages/envd/internal/permissions/path.go:12-39 | in text: a tilde alone or before a separator stands for the home directory, before anything else the path is refused, absolute paths stay, and all others lie in the home directory |
| Paths.ResolvesExactly | packages/envd/internal/permissions/path.go:12-47 | over any home, exactly which paths are refused for which reason, and every accepted one is absolute |
| Paths.CleanIdempotent | packages/envd/internal/permissions/path.go:38-39 | cleaning an absolute path gives an absolute path that is already clean |
| Directories.EnsureDirs | packages/envd/internal/permissions/path.go:64-92 | for any absolute path: success makes exactly the missing ones among the path and its ancestors; failure leaves a shallow part, the last possibly not handed over; without host failures it succeeds exactly if no ancestor and not the path is a file, and every directory the path detours through was already there |
| Directories.CleanTakesNoDetour | packages/envd/internal/permissions/path.go:64-92 | a clean path can be seen to exactly if nothing on it is a file |
| Directories.DetourMustExist | packages/envd/internal/services/filesystem/dir.go:71-95 | a path /a/x/../b can be seen to exactly if /a and /a/b are no files and /a/x is already a directory |
| Directories.FillAddsExactlyTheMissing | packages/envd/internal/permissions/path.go:64-92 | seeing to a chain adds exactly its missing directories with the given owner and leaves every existing entry as it was |
| Directories.FollowsNames | packages/envd/internal/permissions/path.go:64-92 | a path the host can follow piece by piece ends where its cleaned form says |
| Directories.WhereItStops | packages/envd/internal/permissions/path.go:67-70 | following a path fails with not-exist exactly at a name missing in a directory, and otherwise exactly behind a file |
| Directories.FileSystem.Mkdir | packages/envd/internal/permissions/path.go:73-76 | a directory is made only under a free last name in a directory the pieces above lead to |
| SpawnCounter.TemplateSpawnCounter.IncreaseTemplateSpawnCount | packages/api/internal/utils/counter.go:35-43 | one more for the template with the new time; the batch being sent keeps its objects and their values |
| SpawnCounter.TemplateSpawnCounter.Swap | packages/api/internal/utils/counter.go:57-67 | the positive counters become the batch and the live map becomes empty |
| SpawnCounter.IncrementsConserved | packages/api/internal/utils/counter.go:35-75 | in every run, per template, counts sent plus taken plus pending equal the increments |
| SpawnCounter.RunInv | packages/api/internal/utils/counter.go:35-75 | moreover sent, taken and pending counts cut the increments in order, and each carries the time of the last increment it counts |
| SpawnCounter.TakenOnlyShrinks | packages/api/internal/utils/counter.go:66-75 | over any steps up to the next swap, a batch keeps exactly the entries not sent yet, unchanged |
| SpawnCounter.SentInTurn | packages/api/internal/utils/counter.go:66-75 | in every run the updates made are the sends, in order, each with its outcome |
| SpawnCounter.SwapTakesAll | packages/api/internal/utils/counter.go:60-64 | leaving out zero counts at the swap never drops a counter |
| SandboxList.ParseFilters | packages/api/internal/handlers/sandboxes_list.go:33-53 | succeeds exactly if every piece is a decodable pair, and maps each key to the last value given |
| SandboxList.LastValueIsLast | packages/api/internal/handlers/sandboxes_list.go:36-53 | the last value is the one at a position after which the key is not set again |
| SandboxList.PairMeans | packages/api/internal/handlers/sandboxes_list.go:37-52 | a piece sets a key to a value exactly if it is of the form key=value, with no further equals sign, and both sides decode to them |
| SandboxList.FilterInPlace | packages/api/internal/handlers/sandboxes_list.go:55-77 | the compaction leaves exactly the kept instances in front and overwrites nothing behind them |
| SandboxList.KeepIsSubsequence | packages/api/internal/handlers/sandboxes_list.go:55-77 | what is kept are the instances at the matching positions, each once, in order |
| SandboxList.GetSandboxes | packages/api/internal/handlers/sandboxes_list.go:23-145 | refuses exactly the malformed queries, fails on nil exactly when a selected instance lacks its build, and otherwise lists the selected instances of the team, earliest first |
| SandboxList.RowsExact | packages/api/internal/handlers/sandboxes_list.go:105-137 | a row is in the answer exactly if it is that of a selected instance of the team |
| SandboxList.RowsRead | packages/api/internal/handlers/sandboxes_list.go:105-137 | there is one row for each instance of the team, in order, with its own times and metadata and the CPUs and memory of its build |
| LogBuffer.Buffer | packages/envd/internal/logs/bufferedEvents.go:25-46 | at every point messages and buffer are what was received, and every message ends exactly where the limit of 65536 bytes is reached or a tick finds something to emit; so every tick is a message boundary, the buffer is what came since the last cut, and without ticks all messages are full |
| LogBuffer.TickIsBoundary | packages/envd/internal/logs/bufferedEvents.go:26-31 | for every tick some first messages are exactly what was received before it |
| LogBuffer.LogBufferedDataEvents | packages/envd/internal/logs/bufferedEvents.go:14-47 | once the channel is closed the messages together are exactly the input |
| MetricsFanout.AtMostThirty | packages/api/internal/handlers/sandboxes_list_metrics.go:58-84 | in every interleaving at most thirty workers hold a permit |
| MetricsFanout.SendsFreely | packages/api/internal/handlers/sandboxes_list_metrics.go:56-114 | a worker about to send finds the channel open and not full |
| MetricsFanout.NeverStuck | packages/api/internal/handlers/sandboxes_list_metrics.go:67-140 | until the collection has ended some step other than a timeout is possible |
| MetricsFanout.RunsAreShort | packages/api/internal/handlers/sandboxes_list_metrics.go:67-140 | no run is longer than seven steps a worker and two more, so every run ends |
| MetricsFanout.Answer | packages/api/internal/handlers/sandboxes_list_metrics.go:116-140 | the answer lists every sandbox exactly once |
| MetricsFanout.CountersComplete | packages/api/internal/handlers/sandboxes_list_metrics.go:60-100 | each counter is the number of results with that outcome, and the three make up the number of sandboxes |
| MetricsFanout.CountersCountEvents | packages/api/internal/handlers/sandboxes_list_metrics.go:67-100 | in every run each counter is the number of waits that failed, fetches that worked, or fetches that did not |
| Routing.TableHoldsLast | packages/api/internal/dns/server.go:54-77 | over every history a record is in the table exactly if it was the last one added and was not removed with its own address since |
| Routing.ResolveIsLastAdded | packages/api/internal/dns/server.go:79-108 | a sandbox resolves to an address other than the loopback exactly if that address stands; otherwise to the loopback |
| Routing.UnknownIsLoopback | packages/api/internal/dns/server.go:98-107 | a sandbox without a record, or with a malformed one, resolves to 127.0.0.1 |
| Routing.ParseExact | packages/api/internal/dns/server.go:98-107 | reading an IPv4 address accepts exactly the texts addresses are written as |
| Routing.AddressRoundTrip | packages/api/internal/dns/server.go:98-107 | every address reads back from the text stored for it |
| Routing.AskedIsSecondPiece | packages/client-proxy/main.go:44-56 | for any host with a dash the server looks up the piece after the first dash |
| Routing.HostRoundTrip | packages/client-proxy/main.go:44-56 | a host of port, sandbox and client reaches the sandbox exactly if its ID has no dash; then the question is the ID with a final dot |
| Routing.GeneratedRoundTrip | packages/shared/pkg/id/id.go:11-15 | every ID over the generator's alphabet makes the round trip |
| Routing.ReachesNode | packages/api/internal/dns/server.go:137-151 | the host of a generated sandbox is answered with the address last added for it, whatever happened to others |
| Routing.DNS.Remove | packages/api/internal/dns/server.go:68-77 | a record is removed only by its own address |
| Routing.DNS.HandleRequest | packages/api/internal/dns/server.go:127-151 | one answer for each address question (type 1, section 3.4.1 of RFC 1035), in order, with the name asked for and the sandbox's address |

## Left out

- Networking, RPC, database, cache-server, object-store and telemetry calls: arbitrary success or failure.
- Firecracker, userfaultfd, the block device and the host's own behaviour inside a snapshot: only the dirty pages, the early release and the possible failures are kept. The rootfs diff follows the same mapping code as the memory diff and is not modelled separately.
- Integer width: offsets and lengths of mappings are unbounded numbers, so overflow at 2^63 is not modelled; the 32-bit totals of the node list are.
- SnapshotLayers.SnapshotMemory: promises nothing about the mapping when the memory's page size differs from the header's block size, because the diff then counts in other units than its mapping.
- LayerReads.ReadAt: promises nothing about a read past the end of an image that does not fill its last block. The bit set library (bits-and-blooms/bitset, version 1.17.0) is not part of this model; the model takes its set to hold 64 bits a word and its search to give up beyond the last word. A store with missing bytes, on which the loop may not progress, is not modelled.
- SandboxResources.NewSandbox: a stage stands for its steps that fail to the same effect, and a process or handler that ends by itself does not make a later stage fail of necessity; file descriptors left to the garbage collector, such as the exit pipe, are not resources of the model.
- NetworkSlots.SlotsConserved: a slot counts as lost also when only its network could not be removed and its key was released; filling the pool with new slots moves slots among the free ones.
- Directories.EnsureDirs: symbolic links and permissions; following a path is modelled without them.
- Serialization of headers, and the caching and downloading of layers.
- BuildMapping.MergeMappings: takes sorted block-aligned lists, which is what validated headers and the diff mapping are; unsorted input is not covered.
- Loading of teams, env aliases and snapshots: the same loops as creators and builds without nil keys, in packages/shared/pkg/models/env_query.go.
- Placement between several requests at once: one request is modelled over nodes that others do not change meanwhile; waiting between scans is any number of rounds.
- Departure and return of nodes: the accounting takes a fixed set of nodes.
- Wake-up of requests waiting for a pause, and when the exit goroutine gets to run.
- Renaming an alias outside a build (packages/shared/pkg/db/env_aliases.go), and the cleaning of alias text.
- TemplateBuild.RunsSingleValued: assumes that new templates get IDs that are no alias; the generator's freshness is not modelled, and timeliness of rebuilds is the condition the counterexample shows to be needed.
- The remote branch of the routing table, whose removal ignores the address; IPv6 text; the DNS library's copying of the question section into the reply.
- SandboxList.GetSandboxes: equal start times may come in any order, since the library sort is not stable; decoding of percent-escapes is a function passed in.
- SpawnCounter.IncrementsConserved: increments still pending when the counter is closed are never sent; a failed update counts as sent, and its count is lost to the database.
- Timestamps of builds and envs, and the fields of a build besides its env, status, CPUs and memory.
- Authentication, request parsing, generated API code, main functions and command-line tools.
