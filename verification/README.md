# golangci-lint: verified models

This project models the parts of golangci-lint where correctness depends on
interleavings, graphs, byte formats or arithmetic, and proves what they promise.
`dafny verify dfyconfig.toml` checks all of it.

| module | what it models |
|---|---|
| `ScheduleSpec`, `ActionScheduler` | the executor that runs the actions of one package on a worker pool |
| `RefCount` | the reference counts that free loaded packages |
| `FactSpec`, `FactCache`, `FactMeaning`, `FactRobust`, `FactHistory` | analyzer facts: inherited, exported, cached and restored, over many runs |
| `ActionGraph` | building the graph of (analyzer, package) actions in two passes |
| `SourceMarking` | deciding which actions of an imported package run from source |
| `StringOrder`, `SortedStrings`, `HashText`, `PackageHash`, `PackageIdentity` | the memoised package hash over the import graph |
| `FiniteSets`, `Options` | shared by the others |
| `ProgCache` | the request multiplexer of the external cache program |
| `DiskTrim`, `IndexRecord` | trimming the disk cache by file times; its index records |
| `Fixer` | choosing suggested edits of many linters without conflicts |
| `HunkChanges` | turning a diff hunk into replacements of line ranges |
| `JsonStructure`, `JsonText` | the structure check, the surrogate scan and the compaction of worker records |
| `WorkerProtocol`, `WorkerSession`, `WorkerProcess` | the worker's decoder, its session and the process around its command |
| `Quoted` | splitting and joining quoted argument lists |

Concurrent code is a transition system: a state, the steps that any goroutine or
process may take, and theorems about every run. Objects that the code updates in
place are classes, and their methods are shown to take those steps or to compute
a specification function. What actions, commands, the child process and the
controller do, when contexts are cancelled and which calls fail are parameters;
how goroutines and processes interleave is left open.

Definitions that both a method and its specification use are pinned down by
lemmas in terms of their arguments alone; their names end in `Mean`, `Means`,
`Iff` or `ByKind`, or say what is accepted.

Assumptions about code outside the model:

- SHA-256 is free of collisions. `PackageHash` uses a datatype of digests in
  which equal digests are equal terms.
- `encoding/json` tokenises well-formed text as the JSON grammar says, and what
  it encodes it decodes to the same envelope.
- The file system is a map of files with modification times that can be set.
- Object paths that resolve lead back to the object they were made for.

Results that differ from what the code or its comments suggest:

- Facts restored from the cache agree with facts from source only for analyzers
  whose addressable exports do not depend on facts about objects without an
  object path. `FactRobust.RobustIffAlwaysAgrees` shows that this condition is
  exact, and `FactRobust.SensitiveAnalyzerDiffers` gives an analyzer that
  violates it.
- The cache interface says that after `Get` or `Put` the output stays on disk,
  also with trims by other processes (internal/go/cache/cache.go:43-68). A trim
  looks at an entry and removes it in two calls, so a use in between is lost
  (`DiskTrim.UsedThenRemoved`); a use looks at a file and sets its time in two
  calls, so a slow one can set it back (`DiskTrim.SetBackThenTrimmed`).
  `DiskTrim.TouchKeptIff` is the exact condition. A `Put` that finds its output
  stored does not renew the file's time, so a trim may delete the output at once
  (`DiskTrim.PutThenTrimmed`); `DiskTrim.PutStoredKeptIff` says exactly when it
  is safe.
- The worker restores the environment only in the keys it set for the run. The
  run command also sets GOSECGOVERSION (pkg/config/loader.go:180) and GOROOT
  (pkg/lint/package.go:213), which stay (`WorkerProcess.GoVersionStays`).
- Package hashes can collide if a path or build ID holds a line break
  (`PackageHash.LineBreaksCollide`). There is no exact condition on one package
  for having no partner it collides with: the first package of that lemma holds
  no line break and still collides with the second. The condition has to
  exclude line breaks in all packages. Import paths with line breaks do not pass
  the Go command, but file names may hold them; in the model a digest is not
  text, so a file name cannot contain one and the corresponding collision of
  file lines is not expressed.
- An empty argument survives `Join` but not the following `Split`
  (`Quoted.RoundTrip`).
- A hunk of added lines only gives no changes, so it does not reproduce its new
  side (`HunkChanges.HunkChangesParser.Parse`).

## Model

| member | source | states |
|---|---|---|
| `ScheduleSpec.SchedulableIsFixpoint` | pkg/goanalysis/action_scheduler.go:101-116 | an action is schedulable exactly if all its same-package dependencies are |
| `ScheduleSpec.EdgesMean` | pkg/goanalysis/action_scheduler.go:101-109 | a dependency in the same package is an edge as often as it is listed, and no other action is |
| `ScheduleSpec.SchedulableIsLeast` | pkg/goanalysis/action_scheduler.go:101-116 | the schedulable actions are the least set closed in that way |
| `ScheduleSpec.SchedulableIffAcyclic` | pkg/goanalysis/action_scheduler.go:206-222 | an action is schedulable exactly if no dependency walk from it repeats an action or leaves the package's actions |
| `ScheduleSpec.TraceSafeMeans` | pkg/goanalysis/action_scheduler.go:149-194 | in a safe history, an action is launched once, after every same-package dependency finished without error, and with no failure recorded before |
| `ScheduleSpec.CompletedAreSchedulable` | pkg/goanalysis/action_scheduler.go:149-194 | a safe history launches and completes only schedulable actions |
| `ScheduleSpec.TraceLength` | pkg/goanalysis/action_scheduler.go:132-147 | a safe history has at most two events per action, so every run ends |
| `ScheduleSpec.FirstErrorMeans` | pkg/goanalysis/action_scheduler.go:174-177 | the error kept is that of the first failing completion |
| `ActionScheduler.BuildGraph` | pkg/goanalysis/action_scheduler.go:95-117 | the reversed edges, with multiplicity, the count of each action, and the queue of actions without dependencies |
| `ActionScheduler.AddEdges` | pkg/goanalysis/action_scheduler.go:102-109 | one action's same-package edges are counted and reversed, and nothing else changes |
| `ActionScheduler.Propagate` | pkg/goanalysis/action_scheduler.go:182-193 | after a completion, counts equal the open edges again, and exactly the actions that reached zero are queued, once |
| `ActionScheduler.ChannelHasRoom` | pkg/goanalysis/action_scheduler.go:89 | while a worker holds an action, the result channel is not full |
| `ActionScheduler.Executor.WorkerSends` | pkg/goanalysis/action_scheduler.go:39-47 | a worker's send of its action's outcome never blocks and keeps the executor's invariant |
| `ActionScheduler.Executor.Receive` | pkg/goanalysis/action_scheduler.go:139-161 | takes the first result off the channel as it is, the outcome of its action |
| `ActionScheduler.Executor.Complete` | pkg/goanalysis/action_scheduler.go:170-194 | one completion is recorded; the invariant is kept whether or not the context is done |
| `ActionScheduler.Executor.LaunchReady` | pkg/goanalysis/action_scheduler.go:149-168 | launches until the queue is empty or the context is done, for every outcome of the select |
| `ActionScheduler.Executor.Result` | pkg/goanalysis/action_scheduler.go:206-222 | the first error, or success, or the exact number of unschedulable actions with one of them marked |
| `ActionScheduler.AtRest` | pkg/goanalysis/action_scheduler.go:132-147 | at rest without error or cancellation, the completed actions are exactly the schedulable ones |
| `ActionScheduler.FirstErrorIsGenuine` | pkg/goanalysis/action_scheduler.go:174-177 | the error kept is that of the first completed action that fails, and there is one exactly if some completed action fails |
| `ActionScheduler.RunActionGraph` | pkg/goanalysis/action_scheduler.go:119-147 | for all outcomes of the actions and all cancellations, every run ends with a safe history in which every launched action completed with its own outcome; the result is an error exactly if a launched action fails, that of the first to complete; at most one action is launched after the caller cancels; without failure and cancellation the launched actions are the schedulable ones in every interleaving, and the result is success exactly if these are all |
| `RefCount.StepKeepsInv` | pkg/goanalysis/runner_loadingpackage.go:48-119 | every step of every goroutine keeps counts, pending calls and freed packages consistent |
| `RefCount.CountIsOutstandingUses` | pkg/goanalysis/runner_loadingpackage.go:478-543 | in every reachable state a count is the package's own unreleased use plus the import edges not yet released, so it is never negative |
| `RefCount.PendingIsCounted` | pkg/goanalysis/runner_loadingpackage.go:478-543 | a call that is due finds a positive count and a package not yet freed |
| `RefCount.FreedAfterImporters` | pkg/goanalysis/runner_loadingpackage.go:478-543 | when a package is freed, every package on an import path to it was analysed and freed |
| `RefCount.RunsEnd` | pkg/goanalysis/runner_loadingpackage.go:48-71 | no run is longer than a bound given by the graph |
| `RefCount.AllFreedOnce` | pkg/goanalysis/runner_loadingpackage.go:478-543 | a run without cancellation that can go no further has analysed all packages and freed each exactly once |
| `RefCount.ClearedAfterAnalysis` | pkg/goanalysis/runner_loadingpackage.go:482-513 | every call that can run clears a package whose own analysis is over |
| `RefCount.FillImports` | pkg/goanalysis/runner.go:270-298 | the counters filled by the depth-first search are those of the initial state, and every package visited is initial or imported by another one, if the actions' packages are reached from initial ones |
| `RefCount.Dfs` | pkg/goanalysis/runner.go:272-295 | counts every use by and of the packages it newly visits, each once |
| `RefCount.LoadingPackages.DecUse` | pkg/goanalysis/runner_loadingpackage.go:478-543 | the recursive cascade is one of the runs of the protocol and leaves no call behind |
| `FactSpec.HeldFromOwner` | pkg/goanalysis/runner_checker.go:216-275 | every fact an action holds is the one its owning package ended with |
| `FactSpec.InheritByKind` | pkg/goanalysis/runner_checker.go:216-332 | every package fact of a dependency is inherited, and object facts by the kind of the object: types and constants always, variables if they are fields or belong to the dependency, functions if they have a receiver or are exported by it, others never |
| `FactMeaning.HeldByKind` | pkg/goanalysis/runner_checker.go:216-332 | an action holds a fact about another package exactly if the action of some import holds it and it may pass from there in that sense, and with the same value |
| `FactMeaning.LastExportHeld` | pkg/goanalysis/runner_checker.go:355-417 | the last export under a key is the fact held, filed under its package or object and its type |
| `FactMeaning.AgreeMeans` | pkg/goanalysis/runner_action_cache.go:82-160 | facts agree exactly if all package facts do, and all facts on objects whose path leads back to them |
| `FactMeaning.CachedFactsAgree` | pkg/goanalysis/runner_action_cache.go:55-160 | whatever is restored, every package fact and every fact on an object with such a path is the one from source |
| `FactSpec.OrderIrrelevant` | pkg/goanalysis/runner_action_cache.go:72-80 | the order in which dependencies are inherited does not matter |
| `FactSpec.CacheAgreesWithSource` | pkg/goanalysis/runner_action_cache.go:55-80 | for every choice of restored packages, every action ends with the package facts and addressable object facts of an analysis from source |
| `FactHistory.SameFromSource` | pkg/goanalysis/runner_checker.go:73-211 | packages of two runs with equal import closures end with the same facts, if what the analyzer makes of inherited facts depends on the closure only |
| `FactHistory.TrueInBoth` | pkg/goanalysis/runner_loadingpackage.go:138-139 | an entry stored under a hash by one run is right for every package of another run with that hash |
| `FactHistory.RestoredIsCoherent` | pkg/goanalysis/runner_loadingpackage.go:121-170 | no run restores stale facts, whatever was edited since they were stored |
| `FactHistory.RunKeepsTrue` | pkg/goanalysis/runner_loadingpackage.go:172-202 | whatever a run stores or loses, every entry stays true of some package of some run |
| `FactHistory.EveryRunAgrees` | pkg/goanalysis/runner_loadingpackage.go:121-202 | over any history of runs that share a cache, with sources edited in between, every action of every run agrees with an analysis of that run's sources |
| `FactRobust.RobustIffAlwaysAgrees` | pkg/goanalysis/runner_checker.go:73-211 | the analysis of a package agrees with the cache in every import graph exactly if hiding facts on unaddressable objects does not change its addressable exports |
| `FactRobust.SensitiveAnalyzerDiffers` | pkg/goanalysis/runner_action_cache.go:82-133 | an analyzer that reads facts on unaddressable objects can end with different facts |
| `FactCache.StoreRestore` | pkg/goanalysis/runner_action_cache.go:82-160 | restoring what was stored gives exactly the package's own facts on the package and on addressable objects |
| `FactCache.StoredEntry` | pkg/goanalysis/runner_loadingpackage.go:172-202 | the entry stored for a package is the cacheable part of what its action holds |
| `FactCache.Action.InheritFacts` | pkg/goanalysis/runner_checker.go:216-275 | takes every package fact of the dependency and exactly the object facts that may pass, and leaves the rest alone |
| `FactCache.Action.PersistedFacts` | pkg/goanalysis/runner_action_cache.go:82-133 | the records are those of the package's own facts, in any order |
| `FactCache.Action.ApplyPersistedFacts` | pkg/goanalysis/runner_action_cache.go:135-160 | each record whose path resolves is filed under its object |
| `FactCache.Action.ApplyCachedFacts` | pkg/goanalysis/runner_action_cache.go:55-67 | a restored action ends with the facts that the specification gives it |
| `FactCache.Action.Analyze` | pkg/goanalysis/runner_checker.go:101-119 | so does an action analysed from source |
| `ActionGraph.Builder.MarkAllActions` | pkg/goanalysis/runner.go:135-152 | adds exactly the actions reachable from the key, for every order of the imports, and keeps the set closed |
| `ActionGraph.SlotFree` | pkg/goanalysis/runner_action.go:22-29 | whoever asks for a slot for a counted action that is neither built nor under construction finds one |
| `ActionGraph.Builder.MakeAction` | pkg/goanalysis/runner.go:154-186 | builds exactly the reachable actions not yet built, one slot each, without touching earlier ones |
| `ActionGraph.Builder.BuildActionFactDeps` | pkg/goanalysis/runner.go:188-211 | appends the analyzer's actions on the imports, by sorted path, if the analyzer uses facts |
| `ActionGraph.Builder.PrepareAnalysis` | pkg/goanalysis/runner.go:213-255 | both passes reach the same set; every slot is used by exactly one action; every given analyzer has an action on every given package, these are the roots in that order, and exactly they are marked |
| `ActionGraph.RootKeysMean` | pkg/goanalysis/runner.go:225-248 | the roots are exactly the given analyzers on the given packages |
| `ActionGraph.RequiredDeps` | pkg/goanalysis/runner.go:176-180 | the first dependencies of an action are the required analyzers on the same package, in order |
| `ActionGraph.ImportDeps` | pkg/goanalysis/runner.go:188-206 | the others are the analyzer itself on each imported package, by import path, if it uses facts, and no more |
| `ActionGraph.PathsMean` | pkg/goanalysis/runner.go:201-203 | the import paths are all of them, strictly increasing |
| `ActionGraph.ReachedIsLeast` | pkg/goanalysis/runner.go:135-152 | what is reached is the least set that holds the roots and is closed under dependencies |
| `ActionGraph.ActionsFromInitial` | pkg/goanalysis/runner.go:213-255 | the package of every action built is on an import path from an initial package that has an action |
| `SourceMarking.Action.MarkDepsForAnalyzingSource` | pkg/goanalysis/runner_action.go:49-59 | on any graph, ends with this action's requirements marked and only needed actions marked, though it stops at marked ones |
| `SourceMarking.LoadImportedPackageWithFacts` | pkg/goanalysis/runner_loadingpackage.go:413-427 | the marked actions are the least set that holds every cache miss and is closed under same-package dependencies |
| `HashText.FlatInjective` | internal/cache/cache.go:159-239 | the lines hashed can be read back from the hashed text, if no field holds a line break |
| `PackageHash.AllLinesInjective` | internal/cache/cache.go:159-239 | equal texts have the same path, the same sources, the same imports and the same import hashes |
| `PackageHash.EqualHashIffEqualClosure` | internal/cache/cache.go:130-239 | two packages have equal all-dependencies hashes exactly if their import closures match package by package |
| `PackageIdentity.HashExistsIff` | internal/cache/cache.go:159-222 | a package has hashes exactly if its files can be read, where it is in the current module or has no build ID, and its imports other than `unsafe` have hashes |
| `PackageIdentity.OnlySelfIff` | internal/cache/cache.go:167-174 | the hashes of two packages on their own are equal exactly if they have the same path and the same sources: files and contents in the current module or without a build ID, the build ID otherwise |
| `PackageIdentity.DirectDepsIff` | internal/cache/cache.go:176-185 | with direct imports: exactly if also the imported paths and the sources of the imports are the same, apart from `unsafe` |
| `PackageIdentity.AllDepsIff` | internal/cache/cache.go:187-239 | with all imports: exactly if also the imports have equal hashes of this kind |
| `PackageIdentity.FilesDoNotMatter` | internal/cache/cache.go:202-206 | outside the current module a build ID stands for the files, which need not even be readable |
| `PackageHash.EqualClosure` | internal/cache/cache.go:159-195 | equal closures give equal hashes in all three modes |
| `PackageHash.LineBreaksCollide` | internal/cache/cache.go:167-222 | different packages can collide if a field holds a line break |
| `PackageHash.Cache.PackageHash` | internal/cache/cache.go:130-154 | for every order of calls the memoised hash is the recursive one, and it fails exactly if a needed file cannot be read or the mode is unknown |
| `PackageHash.Cache.ComputePkgHash` | internal/cache/cache.go:159-195 | computes the three recursive hashes and keeps the memo right |
| `PackageHash.Cache.HashSources` | internal/cache/cache.go:202-222 | appends the build ID or the file lines; fails exactly if a file cannot be read in a package of the current module or without a build ID |
| `PackageHash.Cache.ComputeDepsHash` | internal/cache/cache.go:224-239 | appends one line per import in order, without `unsafe` |
| `SortedStrings.SortedKeys` | internal/cache/cache.go:176-178 | the import order is a function of the set of paths |
| `StringOrder.LessMeans` | internal/cache/cache.go:176-178 | the order of strings: by the first character that differs, and a proper prefix comes first |
| `ProgCache.StepKeepsInv` | internal/go/cache/prog.go:148-222 | every step of callers, reader and `Close` keeps the table, the channels and the history consistent |
| `ProgCache.ReaderNeverBlocks` | internal/go/cache/prog.go:173-180 | in every run nothing is sent on a closed channel or closed twice, and a send that is due finds an empty open channel |
| `ProgCache.EachRequestAnsweredByItsOwn` | internal/go/cache/prog.go:148-202 | in every run each channel gets at most one response, with its own ID, and the responses sent are those accepted, in order |
| `ProgCache.CallersTakeTheirOwn` | internal/go/cache/prog.go:185-202 | in every run a caller takes at most one response, one that carries its ID |
| `ProgCache.AcceptedIff` | internal/go/cache/prog.go:171-180 | in every run a response is accepted exactly if its ID is that of a request whose write did not fail and that is not answered yet; any other ends the process |
| `ProgCache.HangUpIff` | internal/go/cache/prog.go:153-170 | when reading fails, the reader returns if `Close` was called, and the process ends otherwise |
| `ProgCache.IdsRepeatOnlyAfterWrap` | internal/go/cache/prog.go:204-213 | two requests have one ID exactly if they are a multiple of 2^64 apart; the capability message counts as request 0 |
| `ProgCache.AcceptedIdsDistinct` | internal/go/cache/prog.go:171-180 | no two responses are accepted under one ID, before the 64-bit counter wraps |
| `ProgCache.NobodyLeftWaiting` | internal/go/cache/prog.go:154-162 | once the reader has returned, every registered request that could be written was answered or its channel is closed |
| `ProgCache.Cache.RegisterRequest` | internal/go/cache/prog.go:204-212 | registers a fresh channel under the next ID, or refuses after closing |
| `ProgCache.Cache.ForgetRequest` | internal/go/cache/prog.go:214-222 | removes the entry of a failed write only |
| `ProgCache.Cache.TakeResponse` | internal/go/cache/prog.go:171-180 | takes the channel out of the table, or ends the process on an unknown ID |
| `ProgCache.Cache.SendHeld` | internal/go/cache/prog.go:175-176 | the send is possible and delivers the response held |
| `ProgCache.Cache.CloseInFlight` | internal/go/cache/prog.go:155-158 | closes each channel in flight exactly once, in any order, and no other |
| `ProgCache.Cache.StopReading` | internal/go/cache/prog.go:152-170 | closes everything when closing, and ends the process otherwise |
| `DiskTrim.KeptUntilIff` | internal/go/cache/cache.go:371-474 | in every state: a file is kept until a given time by every continuation exactly if it is recent enough for every trim that can start until then, no trim is about to remove it, and nobody is about to set its time back |
| `DiskTrim.TouchKeptIff` | internal/go/cache/cache.go:371-474 | a write or use is kept for the limit in every continuation exactly if, at that moment, no trim has the file between its look and its removal and nobody is about to set its time back by more than an hour |
| `DiskTrim.RecentlyUsedSurvives` | internal/go/cache/cache.go:354-474 | in every run, a file written or marked as used within the limit is still there, unless it was at risk in that way at the moment of the touch |
| `DiskTrim.UsedThenRemoved` | internal/go/cache/cache.go:463-472 | a run in which a use falls between a trim's look and its removal, and is lost |
| `DiskTrim.SetBackThenTrimmed` | internal/go/cache/cache.go:371-380 | a run in which a slow process sets the time of a file back behind a later write, and the file is trimmed within the limit |
| `DiskTrim.MtimeLags` | internal/go/cache/cache.go:371-380 | the time of a touched file lags behind its last use by less than an hour and the delay of the processes |
| `DiskTrim.TrimsAreRare` | internal/go/cache/cache.go:385-428 | trims that write trim.txt are a day apart, but for the second it rounds down, if processes are delayed by less than an hour |
| `DiskTrim.TrimsDaily` | internal/go/cache/cache.go:395-403 | in every run, a trim a day or more after the last one that wrote trim.txt is not skipped, and one less than a day after it, but for the second it rounds down, is |
| `DiskTrim.EntriesMean` | internal/go/cache/cache.go:459-462 | only names that end in `-a` or `-d`, in the subdirectories, are entries |
| `DiskTrim.PutStoredKeptIff` | internal/go/cache/cache.go:635-649 | over all directories and all runs that begin with a `Put` that finds its output stored and end within the limit: the output is there at the end exactly if its time was at most an hour old |
| `DiskTrim.PutStoredKeptInState` | internal/go/cache/cache.go:635-649 | the same in every state of every run, where the file must also not be at risk |
| `DiskTrim.PutThenTrimmed` | internal/go/cache/cache.go:635-649 | a run in which a trim deletes an output at the moment it was put |
| `DiskTrim.DiskCache.MarkUsed` | internal/go/cache/cache.go:371-380 | takes the steps of a use with any interference between them; alone, renews the time exactly if it is at least an hour old |
| `DiskTrim.DiskCache.Put` | internal/go/cache/cache.go:574-598 | takes the steps of a put with any interference; alone, the index entry is always written, the output only if it is not stored |
| `DiskTrim.DiskCache.Trim` | internal/go/cache/cache.go:385-443 | a trim is a run of the steps above, with any interference and whether or not trim.txt can be read or written; alone, it removes exactly the entries older than the cutoff, and a skipped one changes nothing |
| `DiskTrim.DiskCache.TrimSubdir` | internal/go/cache/cache.go:446-474 | looks at each name and removes what was stale, with any interference; alone, exactly the stale entries of the subdirectory go |
| `DiskTrim.DiskCache.TrimName` | internal/go/cache/cache.go:463-472 | one name: the look and the removal are two steps |
| `IndexRecord.Layout` | internal/go/cache/cache.go:142-146 | for all IDs and 64-bit numbers the record has the exact size and its fields are where the reader looks |
| `IndexRecord.RoundTrip` | internal/go/cache/cache.go:205-265 | reading a record under its ID gives the entry back exactly if both numbers are not negative; under any other ID it is a miss |
| `IndexRecord.HitHoldsIds` | internal/go/cache/cache.go:225-265 | a file that reads as a hit has the exact size, the fixed header bytes, the ID asked for and the output ID returned, up to the case of letters, and the two numbers in their fields |
| `IndexRecord.ParsePlain` | internal/go/cache/cache.go:246-261 | digits are a number if they fit 63 bits |
| `IndexRecord.NoNumber` | internal/go/cache/cache.go:246-261 | nothing but digits, perhaps behind a sign, is a number |
| `IndexRecord.Get` | internal/go/cache/cache.go:205-265 | the reader with its index arithmetic and skipping loops computes the specified parse, with the reason for each miss |
| `Fixer.NeighboursSuffice` | pkg/result/processors/fixer.go:254-283 | sorted edits are pairwise compatible exactly if neighbours are |
| `Fixer.SortStable` | internal/x/tools/diff/diff.go:94-106 | sorting keeps the order of edits of one range, such as insertions at one point |
| `Fixer.ValidateEdits` | pkg/result/processors/fixer.go:254-283 | answers a negative position exactly if every two edits are equal or do not overlap; the edits returned are the sorted ones without those that repeat the one before |
| `Fixer.SelfCheck` | pkg/result/processors/fixer.go:132-144 | excludes exactly the linters whose own edits conflict |
| `Fixer.CheckPair` | pkg/result/processors/fixer.go:149-167 | excludes the first in the alphabet exactly if both are still there and their edits conflict |
| `Fixer.PairCheck` | pkg/result/processors/fixer.go:146-169 | the linters left fit pairwise; those excluded went in turn, each for a conflict with a linter still there and later in the alphabet |
| `Fixer.UnionFits` | pkg/result/processors/fixer.go:171-178 | linters that fit pairwise fit all together |
| `Fixer.SelectEdits` | pkg/result/processors/fixer.go:125-179 | the edits chosen for a file are all edits of the linters kept and no others, every two are equal or do not overlap, and exactly the linters that conflict with themselves or lost in turn are excluded |
| `Fixer.SequentialMeans` | internal/x/tools/diff/diff.go:31-54 | applying edits one by one replaces the range of the last by its text and goes on with the others |
| `Fixer.OnePassIsSequential` | internal/x/tools/diff/diff.go:31-54 | applying all edits in one pass is applying them one after the other |
| `Fixer.Apply` | internal/x/tools/diff/diff.go:31-87 | succeeds exactly if the edits lie within the text and do not overlap |
| `Fixer.FixFile` | pkg/result/processors/fixer.go:125-198 | the chosen edits can be applied exactly if each lies within the file |
| `HunkChanges.IncreasingMeans` | pkg/goformatters/internal/diff.go:49-85 | the ranges lie within the hunk, in strictly increasing order and disjoint |
| `HunkChanges.ParseDiffLines` | pkg/goformatters/internal/diff.go:162-211 | classifies the lines and numbers them by the old side |
| `HunkChanges.ReadsPrinted` | pkg/goformatters/internal/diff.go:162-211 | reading the body that a diff prints gives back the lines it marks as added, deleted and kept, and so both sides |
| `HunkChanges.HunkChangesParser.Parse` | pkg/goformatters/internal/diff.go:49-85 | the changes have increasing ranges, and replacing them turns the old side into the new side exactly if the hunk has an old line or no line at all |
| `HunkChanges.HunkChangesParser.HandleOriginalLine` | pkg/goformatters/internal/diff.go:87-114 | keeps the converted prefix correct past an original line and the additions that wait for it |
| `HunkChanges.HunkChangesParser.HandleDeletedLines` | pkg/goformatters/internal/diff.go:116-134 | replaces a run of deleted lines by what is added for it |
| `HunkChanges.HunkChangesParser.HandleAddedOnlyLines` | pkg/goformatters/internal/diff.go:136-160 | attaches additions to the original line before them, or keeps them for the next |
| `JsonStructure.IssueIsExact` | pkg/lint/workerprotocol/protocol.go:425-475 | a value passes exactly if no object repeats a key and containers nest at most 64 deep (sections 4 and 9 of RFC 8259); a reported issue is real |
| `JsonStructure.Decoder.ScanValue` | pkg/lint/workerprotocol/protocol.go:425-475 | on the tokens of any value, answers its first issue and, if there is none, consumes exactly its tokens |
| `JsonStructure.ValidateJSONStructure` | pkg/lint/workerprotocol/protocol.go:407-423 | the check of a record accepts exactly the allowed values |
| `JsonText.ScanIsExact` | pkg/lint/workerprotocol/protocol.go:290-355 | on any text of strings and other bytes, the scan reports exactly whether some string holds a surrogate escape that is not half of a pair (sections 7 and 8.2 of RFC 8259) |
| `JsonText.SurrogatesMean` | pkg/lint/workerprotocol/protocol.go:334-353 | the high and low surrogates are exactly the units with which UTF-16 writes code points beyond the first plane |
| `JsonText.DigitsMean` | pkg/lint/workerprotocol/protocol.go:362-375 | the digits are the hexadecimal ones in either case, with their values |
| `JsonText.HasUnpairedSurrogateEscape` | pkg/lint/workerprotocol/protocol.go:290-325 | the index-skipping loop computes the scan with every index in bounds |
| `JsonText.SurrogateEscapeWidth` | pkg/lint/workerprotocol/protocol.go:327-355 | the width to skip, or unpaired |
| `JsonText.DecodeHexQuad` | pkg/lint/workerprotocol/protocol.go:357-378 | the number four digits spell; the 16-bit arithmetic loses nothing |
| `JsonText.CompactJSON` | pkg/lint/workerprotocol/protocol.go:827-856 | the loop with its two flags computes the compaction |
| `JsonText.CompactIdempotent` | pkg/lint/workerprotocol/protocol.go:827-856 | compacting twice is compacting once, on all byte sequences |
| `JsonText.CompactIsDense` | pkg/lint/workerprotocol/protocol.go:827-856 | exactly the white space outside strings goes |
| `JsonText.SpacesMean` | pkg/lint/workerprotocol/protocol.go:850-852 | white space is space, tab, line feed and carriage return (section 2 of RFC 8259) |
| `JsonText.CompactKeepsScan` | pkg/lint/workerprotocol/protocol.go:214-232 | compaction does not change the answer of the scan |
| `WorkerProtocol.RoutingMeans` | pkg/lint/workerprotocol/protocol.go:500-518 | the chain of checks accepts exactly the envelopes with the fields their kind must have |
| `WorkerProtocol.ControllerKinds` | pkg/lint/workerprotocol/protocol.go:500-586 | exactly which hello, run, cancel and shutdown records are accepted |
| `WorkerProtocol.WorkerKinds` | pkg/lint/workerprotocol/protocol.go:500-677 | exactly which ready, acknowledgement, lifecycle and complete records are accepted |
| `WorkerProtocol.DiagnosticKinds` | pkg/lint/workerprotocol/protocol.go:610-661 | exactly which diagnostic and error records are accepted |
| `WorkerProtocol.OthersRefused` | pkg/lint/workerprotocol/protocol.go:486-498 | other versions and kinds are refused, with their class |
| `WorkerProtocol.Decoder.DecodeLine` | pkg/lint/workerprotocol/protocol.go:142-190 | an accepted event moves the sequence number up; a rejected line leaves the decoder unchanged |
| `WorkerProtocol.SequencesIncrease` | pkg/lint/workerprotocol/protocol.go:177-190 | over any connection the accepted event numbers strictly increase |
| `WorkerProtocol.IncreasingAccepted` | pkg/lint/workerprotocol/protocol.go:177-190 | valid events with increasing numbers are all accepted by a fresh decoder |
| `WorkerSession.Session.Read` | pkg/commands/worker.go:362-373 | takes exactly the next line of the input and returns the envelope in it, or none if it is not valid |
| `WorkerSession.Session.Negotiate` | pkg/commands/worker.go:120-170 | goes through hello, ready and run as far as the input allows, and returns the run in the second line |
| `WorkerSession.Session.ServeWorker` | pkg/commands/worker.go:77-118 | the exchange is determined by the controller's lines, the outcome of the command and which calls fail: the script up to the first stage that does not pass, with one refused line exactly if that stage read one; it succeeds exactly if all stages pass; the results sent are those of the run |
| `WorkerSession.ReceivesItsLines` | pkg/commands/worker.go:362-373 | what the session takes in are the lines of its input, in order |
| `WorkerSession.GoodInputFinishes` | pkg/commands/worker.go:77-170 | a good hello, run and shutdown, calls that do not fail and an outcome in range make the session succeed |
| `WorkerSession.ExecutesOnlyAfterRun` | pkg/commands/worker.go:77-118 | the command is executed at most once, after an accepted hello and run, with the payload of the second line of the input |
| `WorkerSession.ControllerAccepts` | pkg/commands/worker.go:421-435 | every record sent is accepted by a fresh decoder |
| `WorkerProcess.Process.ApplyWorkerProcessState` | pkg/commands/worker.go:301-360 | the command sees its own environment without the worker's secrets; on any failure the process is as before |
| `WorkerProcess.Process.Restore` | pkg/commands/worker.go:328-339 | every saved key gets its old value or absence back, and no other key changes |
| `WorkerProcess.ExecuteWorkerRun` | pkg/commands/worker.go:182-232 | the command sees the directory, arguments and environment of its run, without the worker's secrets; if it does not exit from within, arguments, directory and every key set for the run are back, and the environment is the old one exactly if the command left all other keys as they were |
| `WorkerProcess.SameEnvIff` | pkg/commands/worker.go:313-339 | that condition, for all environments |
| `WorkerProcess.GoVersionStays` | pkg/config/loader.go:180 | the key that loading the configuration sets stays in the worker process, unless the controller passes it or its value was there before |
| `WorkerProcess.FirstClaimWins` | pkg/commands/worker.go:242-281 | however a return and exits race, the first claim is received, once, and its send does not block |
| `Quoted.Split` | internal/go/quoted/quoted.go:25-59 | the nested loops end on every input and compute the fields, or fail exactly on an unterminated quote |
| `Quoted.Join` | internal/go/quoted/quoted.go:65-103 | the loop computes the joined text |
| `Quoted.WordsAreFields` | internal/go/quoted/quoted.go:15-58 | a word is one field, and each of the four kinds of white space separates two |
| `Quoted.QuotesEnclose` | internal/go/quoted/quoted.go:37-51 | what is between two equal quotes is one field as it is; an open quote is an error |
| `Quoted.QuotedOnlyIfNeeded` | internal/go/quoted/quoted.go:61-89 | an argument is joined as it is exactly if it holds no white space and no quotes |
| `Quoted.FieldsConcat` | internal/go/quoted/quoted.go:25-59 | a space ends whatever field comes before it: fields of a concatenation are concatenated |
| `Quoted.SplitOfJoin` | internal/go/quoted/quoted.go:25-103 | joining succeeds exactly if no argument holds both quotes, and splitting gives the non-empty arguments back |
| `Quoted.RoundTrip` | internal/go/quoted/quoted.go:61-103 | for arguments that can be quoted, the round trip is exact if and only if none is empty |

## Left out

- Linter and formatter wrappers, commands, flags, configuration, printers and
  metrics: configuration and reporting.
- Parsing, type checking and export data: loading a package is one step.
- The bodies of analyzers: an analyzer is any function from inherited facts to
  exports. Facts of failed runs are not covered, since the code stores them
  whenever a pass exists (pkg/goanalysis/runner_loadingpackage.go:190-192).
- The two fact maps of an action are modelled as one map over both kinds of
  keys; fact values are not gob-encoded.
- Reading a bundle of facts: which packages are restored is an arbitrary choice,
  and the entries of one analyzer stand for the bundle.
- FactHistory.EveryRunAgrees: packages of all runs are named by their import
  closures, so two packages of one run with equal closures count as one. All
  runs use the same salt.
- Grouping issues into edits by file and linter
  (pkg/result/processors/fixer.go:79-123): the model starts from that map. That
  an edit starts before it ends is what lines 104-108 check there.
- Formatting and writing the fixed files, and the merge of conflicting texts in
  the warning of `diff3Conflict`.
- Byte positions in `toDiagnostic`: the model stays with lists of lines.
- The tokeniser and the encoder of JSON, the UTF-8 check, the size limit of a
  line and `readWorkerLine`: a line is either rejected or an envelope.
- Payload fields that no check reads, and the token in the ready payload.
- WorkerProcess.Process.Restore: the calls in `restore` are taken to succeed.
- ProgCache.Cache.RegisterRequest: after closing, the code returns with the
  mutex held (internal/go/cache/prog.go:206-208); nothing is claimed about the
  lock. Writing the request itself, `outputFile`, `Get` and `Put` of this cache
  are not modelled.
- DiskTrim.DiskCache.MarkUsed: looking at the file and reading the clock is one
  step. The clock does not run backwards.
- DiskTrim.DiskCache.Trim: reading and writing trim.txt under its lock is one
  step; that it cannot be read or written is modelled, that it is damaged by a
  failed write is not.
- DiskTrim.DiskCache.Put: failures of the file system while writing an entry are
  not modelled.
- IndexRecord.Get: renewing the time of the file is in `DiskTrim`; verify mode
  is left out.
- Quoted.Join: the loop over an argument runs over bytes instead of decoded
  characters; the bytes it looks for are never part of a longer character.
- PackageHash.EqualHashIffEqualClosure: is stated for fields without line
  breaks, for the reason given above.
- Names of files as printed into the hash are parameters.
