# BuildForge in Dafny

BuildForge is a small build system in Go: a manifest of actions becomes a graph, the graph is
run in dependency order by a sequential driver or by a parallel scheduler, each action runs in a
sandbox that shows it only its declared inputs, and a content-addressed cache, local or shared
over HTTP, restores outputs instead of running. This project models those algorithms and proves
what they promise, over every input, every run and every interleaving.

`dafny verify dfyconfig.toml` checks everything.

## Layout

| file | models |
|---|---|
| `Sorting.dfy` | the order of Go strings, `sort.Strings` and why its result does not depend on the algorithm |
| `Graph.dfy`, `Cycles.dfy`, `Kahn.dfy`, `Critical.dfy` | `internal/graph`: building the graph, the cycle search, Kahn's algorithm, the critical path |
| `Scheduler.dfy` | `internal/sched`: one goroutine per action as a state machine whose events are atomic steps |
| `SchedulerRuns.dfy`, `SchedulerOutcome.dfy` | safety, deadlock freedom and termination; errors, summary and confluence |
| `SchedulerTiming.dfy`, `TimedRuns.dfy` | elapsed time: the critical path as a lower bound, and as what a wide enough build takes |
| `Keys.dfy`, `Stores.dfy` | `internal/cache`: the cache key, the action cache and the content-addressed store |
| `Gc.dfy`, `GcClaims.dfy` | `internal/cache/gc.go`: the collector, and what a collection promises |
| `Runner.dfy` | `internal/runner`: one sandboxed run, with and without a cache |
| `Sequential.dfy`, `SequentialBuild.dfy` | `internal/runner/build.go`: poisoning, the sequential driver, its summary |
| `Transparency.dfy` | why a cache cannot be noticed, over any history |
| `SandboxSteps.dfy`, `CachedSteps.dfy` | one run as single accesses to the workspace; the key, the lookup, each restored output and the put around them |
| `ParallelBytes.dfy`, `ParallelOutcome.dfy`, `ParallelRuns.dfy` | the scheduler, all sandboxes and one cache together on one shared workspace: what every step keeps, where a build ends, that it ends |
| `Remote.dfy`, `Protocol.dfy` | `internal/remote`: server, client and tiered cache; many clients publishing on one server |

## Conventions

A `char` stands for one byte of a Go string. The hash is a parameter that never maps two byte
strings to one digest and answers with lowercase hex (`Keys.GoodHash`); its length is not fixed
at 64, because no function without collisions has a fixed output length, and
`Keys.GoodHashExists` shows the assumption can be met. A Go map is a `map`, ranged over in an
arbitrary order; times and sizes are integers without a bound. A file system tree is a map from
path to bytes and mode, so `path.Clean`, directories and links are not part of this model. What
a command leaves is a function of what the cache key covers; its reads of its inputs are single
steps in `SandboxSteps.dfy`. Clock readings, server replies
and the effect of a cancelled context arrive as parameters. A scheduler run is a sequence of
events, each enabled in the state before it, so a claim about all such sequences is a claim about
all interleavings.

## Where the code does not do what it says

- `Summary` says that `Succeeded`, `Failed` and `Skipped` account for every action
  (internal/runner/build.go:38-41). `Run` returns a nil `Result` when an input is missing, when an
  input is declared twice, and with a cache when the tool does not resolve
  (internal/runner/runner.go:118-146; `Runners.NoResultIff` says exactly when), so the numbers fall
  short by those actions. One action whose input is missing has `Succeeded` -1 and a sum of 0 in
  the sequential build (`SequentialBuild.MissingInputMiscounts`), and that sum in every
  interleaving of the parallel one (`ParallelOutcome.MissingInputMiscounts`). The sequential
  numbers account for every action if and only if each action whose turn comes passes those guards
  (`SequentialBuild.SummaryExact`); the parallel ones if and only if each action that was run
  declares no input twice and finds the source files it lists in the workspace the build started
  from (`ParallelOutcome.SummaryOnBytes`).
- A parallel build cancelled by its caller can return a nil error after skipping every action
  (`SchedulerOutcome.CallerCancelSkipsSilently`, on every graph); the sequential driver always
  reports it (`Sequential.NilErrorIffAllOK`). Without a cancelling caller the parallel error is
  exact (`SchedulerOutcome.HonestError`).
- `writeAtomic` says a reader sees the old file or the new one (internal/cache/store.go:256-262),
  but it removes before it renames (internal/cache/store.go:295-296). On the server a published
  entry can therefore name a blob that is momentarily absent: `Protocol.PublishedButAbsent` gives
  the run. It takes a remove that finds its blob already there, that is, two uploads of one blob
  overlapping between the check (internal/cache/store.go:341-344) and the rename: without one,
  entries are complete in every state (`Protocol.WithoutOverwritesComplete`), and with one, an
  entry is incomplete exactly while it names a blob so removed and not yet renamed back
  (`Protocol.IncompleteIffLost`). `Protocol.MissingIsBeingReplaced` shows that the upload which
  removed it puts it back.
- The collector counts a file whose name is no digest, such as the temporary file of an
  interrupted write, as garbage it has freed, but has no path to remove it
  (internal/cache/gc.go:105-113, internal/cache/gc.go:219-237). With one such file of one byte
  every collection reports the byte as freed and the disk as empty, and the file stays
  (`GcClaims.StrayFileIsCountedAgain`). `GcClaims.DiskAfterGC` and
  `GcClaims.SecondRunFindsNothing` state what is true with such files and exactly when the
  report matches the disk.

## Model

| member | source | states |
|---|---|---|
| `Sorting.SortStrings` | internal/graph/graph.go:117 | the result is the input rearranged, in Go's byte order |
| `Sorting.SortedUnique` | internal/graph/graph.go:117 | a multiset has one sorted arrangement, so the sorting algorithm does not matter |
| `Sorting.LessAtFirstDifference` | internal/graph/graph.go:117 | one string is less than another exactly when it is a proper prefix of it or has the lesser byte where they first differ |
| `Graphs.New` | internal/graph/graph.go:43-74 | succeeds exactly when every dependency is a known action; the graph then has the manifest's sorted names, each action's dependencies sorted with duplicates kept, and reverse edges with the same multiplicities |
| `Graphs.SortLists` | internal/graph/graph.go:70-72 | sorting the reverse lists in any map order keeps every edge and its multiplicity |
| `Graphs.GraphOfWellFormed` | internal/graph/graph.go:43-74 | the graph built from a validated manifest has everything the algorithms rely on |
| `Graphs.GraphCanonical` | internal/graph/graph.go:55-72 | reordering the manifest's actions or any dependency list gives the same names and edges |
| `Cycles.CycleFinder.Visit` | internal/graph/graph.go:162-191 | the depth-first search keeps the gray actions a simple walk, and when every action left waits on another it never backtracks without having found a cycle |
| `Cycles.CycleFinder.Cut` | internal/graph/graph.go:173-180 | a dependency is found exactly when it is on the stack, and the stack from it on is then a simple cycle of actions Kahn could not emit |
| `Cycles.CycleFinder.Find` | internal/graph/graph.go:150-204 | after a stall the answer is always a real cycle without repeats among unemitted actions; the unknown literal is unreachable |
| `Kahn.DrainStep` | internal/graph/graph.go:127-132 | counting one edge off keeps every in-degree equal to the multiset of edges still owed, and lists an action as unblocked exactly when it reaches zero |
| `Kahn.RoundKeepsState` | internal/graph/graph.go:120-137 | emitting the head of the ready list keeps the ready list equal to the sorted set of all actions that could come next |
| `Kahn.TopologicalOrder` | internal/graph/graph.go:107-143 | an order is returned if and only if the graph is acyclic; it is then the canonical one, and otherwise the result is a simple cycle |
| `Kahn.TopologicalIsAcyclic` | internal/graph/graph.go:96-98 | an order in which dependencies come first exists only on an acyclic graph |
| `Kahn.CanonicalIsLeast` | internal/graph/graph.go:104-106 | the order returned is the lexicographically least of all orders that respect the dependencies |
| `Kahn.CanonicalUnique` | internal/graph/graph.go:104-106 | the order depends on the names and on who waits on whom, not on how the manifest lists them or how often it repeats a dependency |
| `Critical.Choose` | internal/graph/critical.go:43-48 | the inner loop picks the dependency no other one beats in the three-level comparison |
| `Critical.Label` | internal/graph/critical.go:39-55 | every action gets the finish time, depth and predecessor of its best dependency |
| `Critical.LabelsDominate` | internal/graph/critical.go:31-36 | no chain ending at an action weighs more than its finish label, and none of that weight is deeper than its depth label |
| `Critical.FollowsEndsEarlier` | internal/graph/critical.go:20-24 | among chains that tie in weight and depth the predecessors lead along the one with the least names |
| `Critical.Reverse` | internal/graph/critical.go:77-79 | swapping from both ends reverses the slice in place |
| `Critical.CriticalPath` | internal/graph/critical.go:25-81 | the result is a dependency chain from a source whose durations sum to the returned length, best among all chains by weight, then number of actions, then names from the end, ends in a sink, and some schedule achieves the length; with a negative duration it is still best among the chains that begin at a source; a cyclic or empty graph gives nothing |
| `Critical.LengthBoundsEverySchedule` | internal/graph/critical.go:11-16 | no schedule that starts each action after its dependencies ends sooner than the returned length, with any number of workers |
| `Scheduler.Reachable` | internal/sched/sched.go:115-193 | in every reachable state a closed done channel has a recorded status, the semaphore counts exactly the slot holders, and the result lists agree with the status map |
| `Scheduler.ClosedDepRecorded` | internal/sched/sched.go:33-37 | the zero value that a missing status reads as is never what the state comparison sees |
| `SchedulerRuns.DependencySafety` | internal/sched/sched.go:120-170 | an action inside Run has every dependency recorded as OK, and no more actions are inside Run than there are workers |
| `SchedulerRuns.StatusPermanent` | internal/sched/sched.go:172-185 | a recorded status never changes in the rest of a run |
| `SchedulerRuns.NoDeadlock` | internal/sched/sched.go:115-196 | while some goroutine has not exited, some goroutine can take a step, after failures and cancellations too |
| `SchedulerRuns.RunsAreBounded` | internal/sched/sched.go:115-196 | every run is shorter than a measure of its initial state |
| `SchedulerRuns.RunsFinish` | internal/sched/sched.go:115-196 | any run can be carried on until every goroutine has exited |
| `SchedulerRuns.StuckRunsAreFinished` | internal/sched/sched.go:115-196 | a run that cannot go on has closed every done channel, recorded every action and returned every slot, so the final wait returns |
| `SchedulerOutcome.SkipsReachable` | internal/sched/sched.go:123-162 | an action is skipped only because the context is cancelled or a dependency did not end OK |
| `SchedulerOutcome.HonestError` | internal/sched/sched.go:172-192 | with no cancelling caller a cancelled context means the error is set, the error is never the build's own cancellation and is that of the first action to fail, and it is nil exactly when every action ended OK |
| `SchedulerOutcome.ErrorIsReturned` | internal/sched/sched.go:172-185 | in every run, whoever cancels, the error is to the letter the one Run returned for the first action recorded as failed |
| `SchedulerOutcome.FailureCancels` | internal/sched/sched.go:181-192 | without KeepGoing the context is cancelled by the time a failed action's done channel closes |
| `SchedulerOutcome.CancelStartsNothing` | internal/sched/sched.go:144-170 | an action not past its context check when the context is cancelled never runs |
| `SchedulerOutcome.CancelledWindsDown` | internal/sched/sched.go:122-156 | once the context is cancelled the build can end without another action starting, however many wait for a slot or for dependencies |
| `SchedulerOutcome.NilErrorMeansNothingFailed` | internal/sched/sched.go:172-192 | in every run, cancelled or not, the error is nil exactly when no action failed |
| `SchedulerOutcome.CallerCancelSkipsSilently` | internal/sched/sched.go:122-156 | on every graph a caller that cancels early enough is told nil about a build that skipped every action |
| `SchedulerOutcome.SummaryAddsUp` | internal/sched/sched.go:101-186 | a finished build has every action as exactly one of OK, failed and skipped, and the counts fall short of the number of actions by exactly the actions whose Run returned no Result in the course of the run |
| `SchedulerOutcome.ParallelSettles` | internal/sched/sched.go:123-186 | with KeepGoing each verdict is the one the dependencies' verdicts and the action's own command determine |
| `SchedulerOutcome.SettledUnique` | internal/sched/sched.go:123-186 | those equations determine every verdict |
| `SchedulerOutcome.Confluence` | internal/sched/sched.go:123-216 | two finished builds with any interleavings and worker counts report the same statuses and the same sorted lists |
| `SchedulerTiming.DependencyEndsFirst` | internal/sched/sched.go:120-170 | in a timed run a dependency's Result ends before its dependent's starts |
| `SchedulerTiming.ElapsedAtLeastCriticalPath` | internal/sched/sched.go:110-225 | the elapsed time is at least the critical path of the durations the same run measured, whatever failed or was cancelled |
| `TimedRuns.ScheduleIsFollowed` | internal/sched/sched.go:110-225 | with a worker for every action, any schedule that respects the dependencies is followed to the tick by a run in which everything ends OK and has the given duration |
| `TimedRuns.CriticalPathIsReached` | internal/graph/critical.go:11-16 | so some timed run of the scheduler takes exactly the critical path length, the least any run with those durations can take |
| `Keys.LineInjective` | internal/cache/key.go:40-46 | a length-prefixed record can be read back from the front of a buffer in one way only |
| `Keys.EncodeInjective` | internal/cache/key.go:40-46 | two lists of records with the same bytes are the same list |
| `Keys.BufferInjective` | internal/cache/key.go:44-95 | equal key buffers mean equal platform, command, environment, tool, inputs with digests, and outputs |
| `Keys.KeyInjective` | internal/cache/key.go:37-98 | actions with equal keys run the same command with the same tool, receive the same environment strings, read the same bytes from the same paths and promise the same outputs |
| `Keys.KeyCoversTool` | internal/cache/key.go:66-70 | equal keys, computed on whatever machines, mean that the commands resolve to binaries with the same bytes |
| `Keys.ToolDigestIsContent` | internal/cache/key.go:121-139 | two lookups have the same digest if and only if the binaries found have the same bytes, wherever they are |
| `Keys.ToolHasDigest` | internal/cache/key.go:121-139 | there is a digest exactly when the name resolves to a binary that can be read |
| `Keys.KeyOfCompile` | internal/cache/key.go:19-98 | one key written out: the eight lines of its buffer in order, each value after its length |
| `Keys.KeyCanonical` | internal/cache/key.go:72-95 | reordering inputs or outputs, or moving to another workspace with the same bytes, keeps the key |
| `Keys.Key` | internal/cache/key.go:37-98 | the buffer built in the code's order hashes to the specified key; it fails exactly when the tool or an input cannot be read |
| `Keys.SortKeys` | internal/cache/key.go:55-61 | the environment names come out sorted whatever order the map is ranged over |
| `Keys.NamesAreHex` | internal/cache/store.go:88-99 | a name is accepted exactly when it is three or more lowercase hex characters, so never with a separator or a dot |
| `Keys.ToolCache.Digest` | internal/cache/key.go:121-139 | the memo never changes the answer |
| `Keys.DigestFiles` | internal/digest/digest.go:51-99 | jobs handed out in order to no more workers than processors or files, finishing in any order, give exactly the digests of the given paths; it fails exactly when some file cannot be read, with the error of such a file |
| `Keys.GoodHashExists` | internal/digest/digest.go:23-27 | what is assumed of the hash can be met |
| `Stores.Store.Lookup` | internal/cache/store.go:110-147 | an error exactly for a malformed key; otherwise an entry exactly when it is there, decodes and has every blob, and only then is its time refreshed |
| `Stores.HitIff` | internal/cache/store.go:110-147 | a lookup is a hit on an entry exactly when the key is lowercase hex, the entry is on file under it, and each digest it names is lowercase hex and has a blob |
| `Stores.Touch` | internal/cache/gc.go:270-281 | afterwards the recorded use is less than an hour old; no entry's content and no other time changes |
| `Stores.TouchedAfterAnHour` | internal/cache/gc.go:261-282 | a hit moves the recorded use to now exactly when the last one is at least an hour old |
| `Stores.Store.PutBlob` | internal/cache/store.go:208-222 | content already present is left alone |
| `Stores.Store.Put` | internal/cache/store.go:150-203 | succeeds exactly when every output is there and the key is well formed; every blob of the entry is then present under its own digest, the entry holds what the workspace holds, and exactly the outputs that differ from a usable previous entry are reported |
| `Stores.Store.Restore` | internal/cache/store.go:226-254 | the outputs are written in order until one blob is missing or does not hash to its name |
| `Stores.RestoreSucceeds` | internal/cache/store.go:226-254 | a restore succeeds if and only if every blob is there and undamaged; what is in the workspace does not matter |
| `Stores.RestoredAt` | internal/cache/store.go:246-251 | every path an entry lists gets the bytes and the mode recorded for it last |
| `Stores.RestoredPartly` | internal/cache/store.go:226-254 | a restore that fails has restored exactly the outputs before the first bad blob |
| `Stores.RestoredFiles` | internal/cache/store.go:226-254 | a restore, complete or not, touches nothing outside the entry's paths, and a complete one has verified every blob |
| `Stores.PutThenRestore` | internal/cache/store.go:150-254 | restoring what was put gives back the stored bytes and modes in any target workspace, however the blobs have been damaged in between, if it succeeds |
| `Stores.PutThenLookup` | internal/cache/store.go:110-203 | the entry just stored is what the next lookup answers with |
| `Stores.PutIsRestorable` | internal/cache/store.go:150-254 | and, unless a blob has been damaged, all of it can be restored into any workspace |
| `Stores.StoredTimes` | internal/cache/store.go:208-222 | a new blob carries the time it was written, a blob already there keeps its own |
| `Stores.ReportedIffChanged` | internal/cache/store.go:175-189 | an output the previous entry lists is reported if and only if the digest last recorded for it differs |
| `Stores.Store.ReadBlob` | internal/cache/store.go:313-326 | only bytes that hash to the name are ever returned |
| `Stores.Store.WriteBlob` | internal/cache/store.go:333-345 | accepted exactly when the bytes hash to the name; a blob already present is not rewritten |
| `Stores.Store.PutEntry` | internal/cache/store.go:349-359 | the entry is stored under its own key, or nothing changes |
| `Gc.Collector.CountRefs` | internal/cache/gc.go:92-98 | the counts are the occurrences of each digest in the entries, duplicates counted |
| `Gc.Collector.Remove` | internal/cache/gc.go:100-114 | a young blob is skipped; any other is struck off the books once, in one counter and in bytes, and deleted unless it is a dry run |
| `Gc.Collector.PhaseOne` | internal/cache/gc.go:116-121 | in whatever order the map is ranged over, exactly the unreferenced blobs that are old enough go, and exactly the young ones are counted as skipped |
| `Gc.Collector.EvictEntry` | internal/cache/gc.go:148-164 | dropping an entry keeps the counts equal to the occurrences in the entries left and removes exactly the blobs nothing refers to any more |
| `Gc.Collector.PhaseTwo` | internal/cache/gc.go:139-165 | eviction stops where the specification says, having evicted a prefix of the order |
| `Gc.OrderUnique` | internal/cache/gc.go:132-137 | the order of eviction is a function of a store whose entries are filed under their keys |
| `Gc.GC` | internal/cache/gc.go:71-167 | the report is the specified function of what was scanned, and the store loses exactly the collected blobs and the evicted entries, or nothing in a dry run |
| `GcClaims.SurvivorKeepsBlobs` | internal/cache/gc.go:155-164 | no blob a surviving entry refers to is lost |
| `GcClaims.LookupAfterGC` | internal/cache/gc.go:60-70 | for every key a later lookup answers as before, or misses because that entry was evicted |
| `GcClaims.SameOrMiss` | internal/cache/gc.go:60-70 | whatever the entries are filed under, a lookup after a collection answers as before or misses |
| `GcClaims.RestoreAfterGC` | internal/cache/gc.go:60-70 | restoring a surviving entry does what it did before the collection |
| `GcClaims.EvictionIsMinimal` | internal/cache/gc.go:123-147 | the evicted entries are those used longest ago, ties by key, and none was used less than MinAge ago; one fewer would leave the store over budget; afterwards it is within budget or every entry left was used less than MinAge ago; and without MinAge a positive budget is always met |
| `GcClaims.YoungStay` | internal/cache/gc.go:20-30 | no blob and no entry written less than MinAge ago is removed |
| `GcClaims.BlobGoesIff` | internal/cache/gc.go:49-70 | a real run removes a blob if and only if it is at least MinAge old, its name can be a path, and no entry that is left names it |
| `GcClaims.ReportCounts` | internal/cache/gc.go:40-51 | unreferenced are the old blobs no entry named, evicted the old ones that lost their last entry, skipped the young ones among both and, when the store is still over budget, the entries left; bytes freed are the bytes of those that went |
| `GcClaims.BooksBalance` | internal/cache/gc.go:86-114 | bytes before are bytes freed plus bytes after, and the blobs scanned are the unreferenced, the evicted and those left |
| `GcClaims.DiskAfterGC` | internal/cache/gc.go:105-113 | the store's size after a real run is the reported one plus the garbage that has no path, so the report is exact if and only if that garbage is empty |
| `GcClaims.StrayFileIsCountedAgain` | internal/cache/gc.go:219-237 | a store with one temporary file left behind: a collection reports it freed, leaves it, and the next one reports it again |
| `GcClaims.DryRunPredicts` | internal/cache/gc.go:32-33 | a dry run reports what the real run of the same store reports and changes nothing |
| `GcClaims.SecondRunFindsNothing` | internal/cache/gc.go:71-167 | a second run with the same clock and options changes nothing and evicts nothing, and reports no garbage if and only if the first left none it cannot name |
| `Runners.EnvironOf` | internal/runner/runner.go:264-277 | PATH first, then the declared strings sorted, whatever order the map is ranged over |
| `Keys.EnvironReaches` | internal/runner/runner.go:246-277 | the process gets PATH first if there is one, then the declared pairs and nothing else, sorted |
| `Runners.CommandReceives` | internal/runner/runner.go:148-161 | the command gets its own words, that environment, and under each declared path that exists the bytes there and no other file |
| `Runners.Runner.NewSandbox` | internal/runner/sandbox.go:34-75 | the sandbox shows exactly the declared inputs; linking one twice is the only failure modelled |
| `Runners.Runner.HarvestOutputs` | internal/runner/sandbox.go:81-104 | the outputs are moved in order until one is missing |
| `Runners.HarvestAt` | internal/runner/sandbox.go:81-104 | a harvest succeeds exactly when every output was produced and none is declared twice, puts each in place and touches nothing else |
| `Runners.HarvestedIsPresent` | internal/runner/runner.go:196-198 | after a successful harvest the check of the outputs cannot fail |
| `Runners.OnlyOutputsChange` | internal/runner/sandbox.go:77-81 | a run touches nothing but the declared outputs |
| `Runners.SeesOnlyInputs` | internal/runner/sandbox.go:12-28 | workspaces that agree on the bytes of the declared inputs give the same verdict and the same outputs |
| `Runners.Runner.Run` | internal/runner/runner.go:117-211 | the workspace, the cache, the outcome and the mark of a cached result are the specified ones, with a cache and without |
| `Runners.NoResultIff` | internal/runner/runner.go:118-146 | a run has no Result if and only if an input is missing, the tool does not resolve although a cache asks for it, or an input is declared twice and no restore makes the sandbox unnecessary |
| `Runners.RunIsOKIff` | internal/runner/runner.go:117-211 | an uncached run is OK if and only if every input is there and declared once, the command exits zero, and every output is produced and declared once; the outputs are then what the command left, and a failure is in the action's own name |
| `Runners.KilledIsCancelled` | internal/runner/runner.go:165-171 | a command stopped by the context is reported as cancelled, with a Result, and changes nothing |
| `Runners.HitRestores` | internal/runner/runner.go:225-245 | a usable entry with undamaged blobs is restored into any workspace, whatever the command would do, with its bytes and modes and marked as cached |
| `Runners.CachedIffRestored` | internal/runner/runner.go:225-245 | a run is marked as cached if and only if a usable entry was restored |
| `Sequential.Poison.MarkDependents` | internal/runner/build.go:157-165 | it ends on every graph and, although it turns back at marked actions, adds exactly the transitive dependents when the marked set was closed |
| `Sequential.DownstreamWithin` | internal/runner/build.go:156-165 | the transitive dependents are the least closed set that holds the direct ones |
| `Sequential.PoisonedIffBadDep` | internal/runner/build.go:107-111 | at its turn an action is poisoned if and only if one of its dependencies did not end OK |
| `Sequential.DriveKeepsInv` | internal/runner/build.go:101-150 | after every step lists, verdicts and poison agree |
| `Sequential.SequentialSummary` | internal/runner/build.go:38-50 | every action is exactly one of OK, failed and skipped whatever fails and whenever the context is cancelled, and the counts add up if and only if no run whose turn comes returns without a Result |
| `Sequential.NilErrorIffAllOK` | internal/runner/build.go:113-154 | the sequential error is nil exactly when every action is OK, cancelled or not |
| `Sequential.FirstErrorStays` | internal/runner/build.go:118-140 | the error returned is the first there was |
| `Sequential.FirstTurnsError` | internal/runner/build.go:113-140 | the error returned is, to the letter, that of the first turn that had one: what Run returned, or the cancellation |
| `Sequential.StoppedRest` | internal/runner/build.go:141-149 | after the first failure of a fail-fast build the rest of the order is skipped and nothing else changes |
| `Sequential.SkippedIffBadDep` | internal/runner/build.go:107-111 | with KeepGoing an action is skipped if and only if a dependency did not end OK |
| `Sequential.ParallelMatchesSequential` | internal/sched/sched.go:3-6 | for fixed outcomes every finished parallel build with KeepGoing reports the statuses, failures and skips of the sequential driver |
| `SequentialBuild.Build` | internal/runner/build.go:79-154 | a cycle is reported and nothing runs; otherwise workspace, cache, summary and error are those of the driver on the canonical order |
| `SequentialBuild.SummaryExact` | internal/runner/build.go:38-50 | the counts account for every action if and only if each action that is neither poisoned nor cut off passes the guards of Run: inputs there, none twice unless restored, tool resolved if there is a cache |
| `SequentialBuild.MissingInputMiscounts` | internal/runner/build.go:38-50 | one action whose input is missing: Succeeded is -1 and the counts sum to 0 instead of 1 |
| `SandboxSteps.FinishStep` | internal/runner/runner.go:117-211 | one access to the workspace at a time, a run left alone ends where the whole run does |
| `SandboxSteps.FinishLocal` | internal/runner/sandbox.go:12-28 | what others do outside its own inputs and outputs does not change where a run ends |
| `CachedSteps.StepKeepsEnd` | internal/runner/runner.go:117-245 | one step of a cached run, whatever blobs it finds, does not change where the run ends, which is where the uncached run would, and keeps an honest cache honest |
| `CachedSteps.StepKeepsCachedEnd` | internal/runner/runner.go:117-245 | nor does a step change, if the run is left alone, where workspace, cache and outcome end up |
| `CachedSteps.StepsAreRun` | internal/runner/runner.go:117-245 | which is where the run as a whole leaves them, hits and puts included |
| `CachedSteps.EndLocal` | internal/runner/runner.go:117-245 | what others do outside its own inputs and outputs does not change where a cached run ends |
| `ParallelBytes.NobodyUpstreamRuns` | internal/sched/sched.go:120-170 | an action that is or has been inside Run depends, directly or not, on nothing that is still running |
| `ParallelBytes.BReachable` | internal/sched/sched.go:115-193 | in every reachable state every action's files are where its own run, so far, has to have put them, source files are untouched, what has been recorded is what the run returned, and the shared cache is honest |
| `ParallelOutcome.SolutionUnique` | internal/sched/sched.go:3-6 | the equations between inputs, outputs and verdicts have one solution |
| `ParallelOutcome.SequentialSolves` | internal/runner/build.go:101-150 | the sequential driver solves them |
| `ParallelOutcome.ParallelMatchesSequentialBytes` | cmd/buildforge/main.go:227-257 | with one producer per output and produced inputs waited for, every finished interleaving with any worker count, with a cache or without, and whatever harmless happens to the cache between any two steps, has, file for file, the workspace of the uncached sequential driver, and its statuses |
| `ParallelOutcome.SummaryOnBytes` | internal/runner/build.go:38-50 | the counts of a finished parallel build fall short by exactly the actions that were run although they list an input twice or a source file that was not there |
| `ParallelOutcome.MissingInputMiscounts` | internal/runner/build.go:38-50 | one action whose input is missing: in every interleaving the counts sum to 0 instead of 1 |
| `ParallelOutcome.BuildsAgree` | internal/sched/sched.go:3-6 | two finished builds of one workspace, with any worker counts and interleavings, one with a cache and one without, leave the same files and list the same actions as succeeding with a Result, failed and skipped |
| `ParallelRuns.BRunsAreBounded` | internal/sched/sched.go:115-196 | every run on bytes is shorter than a measure of its initial state |
| `ParallelRuns.BNoDeadlock` | internal/sched/sched.go:115-196 | no action gets stuck on the workspace or the cache: while some goroutine has not exited the build can take a step |
| `ParallelRuns.BRunsFinish` | internal/sched/sched.go:115-196 | every partial run on bytes can be carried on to its end |
| `Transparency.RestoreIsHarvest` | internal/cache/store.go:226-254 | restoring an honest entry leaves the workspace running the command would have left |
| `Transparency.RunAfterPartialRestore` | internal/runner/runner.go:225-245 | a run after a restore that failed part way ends as if the restore had never been tried |
| `Transparency.RecordIsHonest` | internal/runner/runner.go:200-209 | what a successful run records is true of every action with that key |
| `Transparency.DeterministicNotReported` | internal/cache/store.go:52-58 | a deterministic action is never reported as nondeterministic |
| `Transparency.CachedRunIsPlain` | internal/runner/runner.go:117-245 | for any blobs at all a cached run has the workspace and the outcome of an uncached one and keeps the cache honest |
| `Transparency.SecondRunHits` | internal/runner/runner.go:117-245 | once an action has run in an undamaged store, running it again in any workspace whose inputs have the same bytes restores its outputs, bytes and modes, and runs no command |
| `Transparency.KilledRun` | internal/runner/runner.go:148-245 | when the command would be stopped by a cancelled context, a cached run succeeds exactly when a hit restores, and then leaves what the command would have; otherwise it fails as the uncached run does, with nothing outside the declared outputs touched; the cache stays honest |
| `Transparency.HonestCanStart` | internal/runner/runner.go:118-146 | with an honest cache a run has a Result exactly when its inputs are there, once each, and its tool resolves |
| `Transparency.GCWeathers` | internal/cache/gc.go:71-167 | a collection is one of the disturbances a history may contain |
| `Transparency.TieredWeathers` | internal/remote/tiered.go:59-107 | so is a download of an honestly recorded entry, whatever blobs the server sends |
| `Transparency.CacheTransparency` | internal/runner/runner.go:225-245 | over any history of builds, edits, collections, damage, loss and downloads, between builds and between actions, the cached checkout has the workspace of the uncached one and every build the same books |
| `Transparency.NewCacheIsTransparent` | internal/runner/runner.go:225-245 | so a cache that starts without entries is never noticed |
| `Remote.Server.HandleCAS` | internal/remote/server.go:50-83 | only bytes that hash to the name are served or taken in |
| `Remote.Server.HandleAC` | internal/remote/server.go:85-124 | an entry is taken in only under its own well-formed key, and served only with every blob there |
| `Remote.FetchHolds` | internal/remote/tiered.go:84-100 | downloads add only verified blobs, and when they all succeed every blob is held |
| `Remote.FetchSucceeds` | internal/remote/tiered.go:84-100 | a download succeeds if and only if every blob is here already or the first reply for it is the right bytes |
| `Remote.LookupIsSafe` | internal/remote/tiered.go:59-107 | for arbitrary replies a returned entry has all its blobs locally, the next lookup is a local hit on the same entry, and a failure leaves the action cache alone |
| `Remote.LookupCases` | internal/remote/tiered.go:59-107 | which answer and which counter in every case; a remote hit happens exactly when the server sends the entry for a well-formed key with every blob that is not here |
| `Remote.SharedHit` | internal/remote/tiered.go:10-24 | a machine without the entry and without damaged blobs gets a usable entry of the server and can restore it |
| `Remote.Tiered.Lookup` | internal/remote/tiered.go:59-107 | never an error; exactly one counter moves, the one that fits what happened |
| `Remote.Tiered.Publish` | internal/remote/tiered.go:127-148 | the entry is sent last, only after every blob was accepted, and only with bytes that hash to their names; the upload ends early only when a blob cannot be read back or is refused |
| `Remote.PutIsUploaded` | internal/remote/tiered.go:121-149 | what was just stored in an undamaged store is uploaded whole, with the stored bytes, when the server accepts everything |
| `Remote.Tiered.Put` | internal/remote/tiered.go:121-149 | the local result is returned whatever becomes of the upload |
| `Protocol.NetReachable` | internal/remote/server.go:15-28 | over every interleaving of uploads by any number of clients that may stop anywhere, every acknowledged blob stays backed by a file or by an upload of the same bytes in its gap |
| `Protocol.UploadPublishes` | internal/remote/tiered.go:127-148 | in whatever state the server and the other clients are, a client that can read its blobs and is not interrupted publishes its entry with all of its blobs there |
| `Protocol.PublishedIsComplete` | internal/remote/tiered.go:139-146 | every blob on the server hashes to its name, and whenever no blob write is between its remove and its rename every published entry has all its blobs |
| `Protocol.CompleteIff` | internal/cache/store.go:293-296 | published entries are complete if and only if each blob write in its gap is of a blob that is there anyway or that no entry names |
| `Protocol.IncompleteIffLost` | internal/cache/store.go:293-296 | a run leaves a published entry incomplete if and only if some remove in it took away a blob that was there, no rename has brought it back, and a published entry names it |
| `Protocol.WithoutOverwritesComplete` | internal/cache/store.go:341-344 | if no remove of a checked upload finds its blob already there, published entries are complete in every state |
| `Protocol.MissingIsBeingReplaced` | internal/cache/store.go:293-296 | a missing blob of a published entry is put back, with the right bytes, by the next step of the upload that removed it |
| `Protocol.PublishedButAbsent` | internal/cache/store.go:293-296 | two uploads of one blob can leave a published entry without it for a moment |

## Left out

- Unsandboxed runs (`SandboxRoot` empty): an action may then read anything, so nothing could be proved about what it reads.
- An output path that is also an input of the same action: the sandbox holds a link there, and moving or writing through the link is outside this model; the theorem on histories excludes it, and the one on bytes excludes it through its condition that an action waits on whoever writes what it reads.
- `SchedulerOutcome.Confluence`: the chronological order in which the summary lists its Results differs between runs and is not compared; `ParallelOutcome.BuildsAgree` shows that the same actions are listed.
- `ParallelOutcome.ParallelMatchesSequentialBytes`: KeepGoing is set and no caller cancels; a fail-fast or cancelled parallel build may legitimately stop elsewhere than the sequential one. Tools resolve when there is a cache.
- `Runners.Runner.Run`: stdout, stderr, exit codes and timestamps of a Result are not modelled, one clock reading serves a whole run, and the failures of the operating system before the command starts are limited to a duplicate link.
- `Runners.Runner.NewSandbox`: a directory that cannot be made or a link the operating system refuses for another reason than a duplicate is not modelled.
- `Stores.Store.Lookup`: a read that fails for another reason than a missing file is not modelled; a file that does not decode is.
- `Stores.Store.Put`: a disk that fails in the middle of a write is not modelled; the histories of `Transparency` lose or damage entries and blobs at any moment instead.
- `Gc.GC`: a failing remove is not modelled; a collection during a build is covered only by the disturbances of `Transparency`. The claims about which entries are evicted assume that entries are filed under their keys (`Gc.WellNamed`, which storing and touching keep: `Gc.StaysWellNamed`).
- `Critical.CriticalPath`: durations are unbounded integers, so the overflow of a 64-bit duration is not modelled.
- `Keys.Key`: the digest is not cut to 64 characters, and reading a file is one step.
- `Keys.ToolCache.Digest`: the binary behind a path is taken to be the same as long as the memo lives, which is one invocation of the command.
- `Protocol.NetReachable`: server collections, a server that dies, and a rename that fails after its remove are not modelled; clients that upload entries without their blobs are not Put clients and are excluded.
- `Transparency.CacheTransparency`: PATH is the same for all builds, tools resolve, no command is killed (`Transparency.KilledRun` covers one killed run), and entries that arrive from elsewhere are honest, since only blobs are verified.
- HTTP and JSON: a request or reply is the value the handler sees, a malformed body is one that does not decode, and size limits are not modelled; the proofs need only which bytes arrive.
- The checks of `manifest.Validate`: the graph and the builds take as hypotheses the facts they need from it (distinct nonempty names, a command for every action). Logging and the parsing of the command line have no effect on the state modelled here.
- Process groups, signals and the killing of commands: a killed command is one outcome of `Run`.
