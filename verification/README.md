# A Dafny model of Ossein's core

Ossein is a Go web framework. This project models the parts of it that keep state
or transform programs and data, and proves what they are for: the service container
and the wiring compiler, the in-process job queue, the in-memory cache with its
leases, the timeout middleware, the migration runner, the event-stream encoder,
route URLs, and the database error classifier.

`dafny verify dfyconfig.toml` checks everything.

## How it is modelled

Code that changes things in place is modelled by classes and methods with the same
fields and loops (`Container.Walk`, `Resolution.ServiceContainer`,
`Generator.WiringGenerator`, `MemoryCache.Memory` over a linked list of `Element`
objects, `TimeoutGuard.TimeoutWriter`, `MigrationLoops.Runner`, `EventStream.Stream`,
`RouteNames.App`). Each method is proved equal to a function of the old state, and the
theorems are lemmas about those functions and about runs of them. What a run is to come
to is said once more without those functions, by what happened in it: what constructors
returned, what was written last, which jobs were sent, what a handler did, which
statements ran.

Goroutines are interleaved atomic steps; a run is a sequence of states, each following
from the one before by an enabled step, and a theorem about runs holds for every such
sequence. Time is a whole number that never falls. Constructors, handlers, recognizers,
statements and callbacks are arbitrary functions: a constructor's result may depend on
every constructor call before it.

| file | modules | what it holds |
|---|---|---|
| `container.dfy` | Container | the dependency graph and `Validate` |
| `resolve.dfy`, `concurrent.dfy`, `termination.dfy` | Resolution, ConcurrentResolution, ResolutionEnds | `resolve` alone, and by any number of goroutines |
| `history.dfy`, `concurrent_history.dfy`, `generated_history.dfy` | CallHistory, ConcurrentHistory, GeneratedHistory | what the constructors returned, and what callers of the container and of the generated file get of it |
| `wiring.dfy`, `generator.dfy`, `factories.dfy`, `factory_runs.dfy` | Wiring, Generator, Factories, FactoryRuns | the generated program and its meaning; `collect` and `render`; factory methods |
| `scopes.dfy`, `generated.dfy` | WireScope, GeneratedFile | what each generated name means to Go; the generated file as a whole |
| `err_variable.dfy`, `witnesses.dfy` | ErrVariable, Witnesses | the one way a file Go accepts is not the container; services that tell the conditions apart |
| `cache.dfy`, `memory.dfy` | CacheSpec, MemoryCache | the cache on values, and the linked structure that implements it |
| `cache_refinement.dfy`, `cleanup.dfy`, `coverage.dfy`, `starvation.dfy`, `lru.dfy` | CacheRefinement, Cleanup, CleanupCoverage, CleanupStarvation, LeastRecentlyUsed | what runs of the cache promise |
| `read_writes.dfy` | ReadYourWrites, BoundedReads | what a reader of the cache gets |
| `lease.dfy`, `store.dfy` | Lease, StoreHelpers | `Claim` and `Once` |
| `queue.dfy`, `queue_history.dfy` | JobQueue, JobAttempts, JobHistory | the queue's protocol; one job's attempts and backoff; runs by what happened in them |
| `timeout.dfy`, `timeout_history.dfy` | TimeoutSpec, TimeoutGuard, TimeoutRace, TimeoutHistory | the guarded writer and the race for it; what a request gets of what its handler did |
| `migrate.dfy`, `migrate_effects.dfy` | Migrate, CompetingRunners, MigrationLoops, MigrationEffects, CompetingEffects | the two loops and competing runners; what they do to a database |
| `migration.dfy`, `migration_text.dfy` | MigrationList, StatementFiles, MigrationText | the migration list and statement files |
| `sse.dfy` | EventStreamClient, EventStream | the client of the HTML Living Standard (sections 9.2.5 and 9.2.6) and the encoder |
| `route.dfy`, `route_templates.dfy` | PathEscaping, RouteURLs, RouteNames, RouteTemplates | percent-encoding (RFC 3986, sections 2.1 and 3.3), `URL`, `Named`; patterns and their URLs |
| `classify.dfy`, `classify_places.dfy` | Classifier, ClassifierPlaces | error trees and recognizers; which error of a tree decides |
| `wrappers.dfy`, `sequences.dfy`, `decimals.dfy`, `text.dfy` | | shared datatypes and small facts |

## Where the code does less than it says

The model follows the code. Where a comment or an expectation does not hold, a lemma
gives a run that breaks it and another says when it does hold.

- `cache/memory.go:203-205` says every resident key is visited within a bounded number
  of operations. Without a size bound that is proved (`Cleanup.ExpiredKeyIsReclaimed`).
  With one it holds exactly up to a bound of 17, one more than a sample, where two
  samples are enough (`CleanupStarvation.CoverageExactly`): from 18 on, hits reorder the
  list without sampling, and operations on an empty cache lead to an expired key that
  outlives any number of samples (`CleanupStarvation.LargeCacheStarves`).
- `queue/queue.go:425` says that after cancellation no worker starts another job. The
  workers between their check and their receive do. No more jobs are started than there
  were such workers when the drain timed out, and no more than were queued
  (`JobQueue.LateJobsWereChecked`, `LateJobRun`).
- `cache/store.go:126` says `Once` runs the work at most once per key. It deletes the
  key without knowing whose it is, so a failed call whose delete comes after its lease
  frees the next caller's claim, even when its work ended in time
  (`Lease.LateReleaseOverlaps`). Exclusion needs both work and release to end within
  the lease (`Lease.OnceIsExclusive`, `OverlapExactlyWhenLate`).
- A request whose deadline has passed does not always get the 504 document. It gets it
  exactly when the render finds the response neither committed nor hijacked, and never
  when the handler's outcome wins the select (`TimeoutRace.DocumentExactlyWhenRendered`,
  `NoDocumentAfterDone`, `LateWithoutDocument`). `Hijack` takes the connection before it
  sets its flag, and the document is rendered on a taken connection exactly in between
  (`TimeoutRace.HijackRaceExactly`).
- When a recorded migration has another name, SQLite refuses before applying anything
  and the other dialects after applying what comes before it
  (`Migrate.UpLoopsAgreeExactly`, `MismatchSplitsTheLoops`).
- `Send` accepts an id with a NUL in it, and clients ignore such an id
  (`EventStream.HeardAsSentExactly`).
- The generator keeps variables apart from each other and from keywords only, and import
  aliases from each other and from fmt. `GeneratedFile.FileCompilesExactly` says when the
  names it chose mean what it meant. `Witnesses.RefusedFiles` and `RefusedFactories` show
  services it accepts and Go does not: an Err with a fallible constructor, a constructor
  in a package Services, an fmt.Stringer beside a fallible constructor (render overwrites
  the alias of package fmt), a constructor xfmt.ErrorfX (which reads like a check, so fmt
  is imported and not used), a transient S, a transient Err that can fail, a transient
  Report for a constructor in package report, and a transient taken twice.
  `GeneratedFile.SafeFileCompiles` gives a condition on the names alone that is enough,
  and `CompiledNamesAreNeeded` one that is needed.
- A file that Go accepts may still differ from the container. When a service is called
  err and its type is an interface every error has, a later check reuses its variable,
  and a check that passes leaves nil in it (`Witnesses.ErrBecomesNil`). That is the only
  way: a file Go accepts is the container, whatever the constructors do, if and only if
  no singleton called err stands beside a checked statement and no local called err
  beside a checked call of its factory (`ErrVariable.GeneratedIsContainerExactly`).

## Model

| member | source | states |
|---|---|---|
| `Container.Validate` | container.go:137-180 | succeeds if and only if every input is registered and the graph has no cycle, in whatever order the map is ranged over; an error names a real missing edge or a real cycle |
| `Container.Walk.Visit` | container.go:142-171 | the three-colour visit terminates on every finite graph, restores the path, and finishes the key with everything under it or reports a genuine fault |
| `Container.Walk.VisitInputs` | container.go:160-167 | the loop over inputs finishes every dependency of the key at the end of the path, or reports a genuine fault |
| `Container.TopologicalMeansSound` | container.go:137-180 | a graph whose keys can all be listed after their inputs is closed and has no closed path: why finishing every key is enough |
| `Container.CycleOfIsCycle` | container.go:311-326 | the path cut at the repeated key and closed by it is a closed path of the graph |
| `Resolution.ServiceContainer.AddRegistration` | container.go:235-245 | a key is added if and only if it is new; a second registration changes nothing |
| `Resolution.ServiceContainer.ResolveKey` | container.go:247-280 | the mutating method computes what the resolution function says, result, instances and constructor calls, and terminates on every graph, cyclic or not |
| `Resolution.ServiceContainer.BuildKey` | container.go:282-298 | the same for resolving the inputs and calling the constructor |
| `Resolution.ResolveKeeps` | container.go:247-280 | no instance is ever replaced, each singleton's successful call is the one recorded, keys on the stack are untouched, and a success leaves the singleton ready with the value returned |
| `Resolution.BuildKeeps` | container.go:282-298 | the same for a build, with the new instance recorded at most once |
| `Resolution.SingletonIsShared` | container.go:247-280 | over any sequence of resolutions each singleton is constructed successfully at most once and every caller that got it got that value |
| `Resolution.ValidatedResolve` | container.go:247-298 | on a graph `Validate` accepts, every error is some constructor's own: never a cycle or a missing service |
| `CallHistory.ResolveTells` | container.go:247-280 | whatever happened before, a resolution adds calls that report what their constructors returned, the error if there is one, on values of their inputs in order; its value is one of the service; and it fails exactly when its last call did, no other having failed |
| `CallHistory.TransientIsFresh` | container.go:261-263 | a transient service is the value of the last, new, constructor call of its resolution |
| `CallHistory.ResolutionsTell` | container.go:247-298 | over any sequence of resolutions the history is what the constructors returned, and the errors returned are those of the failed calls, all of them and in order |
| `CallHistory.FailsExactlyWhenConstructorFails` | container.go:282-298 | on a validated container a resolution returns an error if and only if one of its constructor calls failed, and it is that call's |
| `CallHistory.ErrorsAreTrue` | container.go:247-298 | on any graph an error names a genuine closed path through a key, a key that is not registered, or a constructor's error, reached from input to input from the key asked for |
| `ConcurrentResolution.MoveKeepsSound` | container.go:247-298 | each atomic step of any goroutine keeps the invariant tying stacks, held locks, arguments and published instances together |
| `ConcurrentResolution.MoveKeepsOnce` | container.go:265-279 | each step keeps: a singleton has at most one successful call, and it is published or about to be by the holder of its lock |
| `ConcurrentResolution.SingletonsAreShared` | container.go:265-279 | in every interleaving a singleton is constructed successfully at most once and all goroutines given it were given that value |
| `ConcurrentResolution.ErrorsAreConstructors` | container.go:247-298 | in every interleaving on a validated graph all errors are constructors' own |
| `ConcurrentResolution.WaitPath` | container.go:265-266 | if nobody could move, following the locks would give dependency paths of every length |
| `ConcurrentResolution.NoDeadlock` | container.go:265-298 | until all concurrent resolutions have returned, some goroutine can move |
| `ConcurrentHistory.MoveTells` | container.go:247-298 | each step of a goroutine keeps: calls report what constructors returned on values of their inputs, frames and results hold values of their services, and failed calls match the errors being returned, one for one |
| `ConcurrentHistory.ConcurrentResolutionsTell` | container.go:247-298 | in every interleaving a caller is answered for the service it asked for, with a value of it or a constructor's error, and each failed call is returned to exactly one caller |
| `ResolutionEnds.StepCosts` | container.go:247-298 | every step of a goroutine uses up some of what it has left to do |
| `ResolutionEnds.RunsAreBounded` | container.go:247-298 | no run has more steps than its callers had to do at first |
| `ResolutionEnds.EveryRunEnds` | container.go:247-298 | any number of concurrent resolutions end: runs are bounded, and one that cannot go on has returned to every caller |
| `Wiring.VisitSimulates` | wiring.go:187-200 | with no singleton called err beside a check, the statements emitted by one visit do to the variables and the call history what resolving that key does to the container, error for error |
| `Wiring.BuildSimulates` | wiring.go:194-199 | likewise, the statements for a constructor's inputs followed by its own do what building it does |
| `Wiring.WireIsResolve` | wiring.go:185-205 | compiler correctness: with no singleton called err beside a checked statement, the emitted statements make the same constructor calls in the same order with the same arguments as resolving every singleton in key order, fail exactly when that does at the same constructor with the same error, and otherwise leave the container's instance in every singleton's variable |
| `Wiring.EmissionInOrder` | wiring.go:185-205 | every singleton with a constructor is emitted, once, after all that its constructor takes |
| `ErrVariable.WireReassigns` | wiring.go:277-283 | when every constructor succeeds, a singleton called err beside a checked statement ends up nil, in every file Go accepts |
| `ErrVariable.WireIsResolveExactly` | wiring.go:276-297 | compiler correctness holds, whatever the constructors do, if and only if no singleton is called err beside a checked statement |
| `Generator.UniqueVarName` | wiring.go:556-570 | terminates, and returns the name, or the name with the smallest suffix from 2 on, that is neither used nor a keyword |
| `Generator.FewAreTaken` | wiring.go:563-569 | suffixed names are distinct, so no more suffixes can be taken than there are taken names: the unbounded search ends |
| `Generator.ChosenAreDistinct` | wiring.go:148-150 | the names chosen one after the other are distinct and none is a keyword |
| `Generator.DistinctVariables` | wiring.go:148-150 | every service gets its own variable, which is no keyword |
| `Generator.WiringGenerator.ImportAlias` | wiring.go:468-489 | a package keeps its alias; a new one gets the bare name, or the name with the smallest suffix from 2 on, that no other package has and that is not fmt |
| `Generator.WiringGenerator.ImportAll` | wiring.go:152-166 | writing the source of one service imports every package it refers to, each under an alias of its own, and no package changes its alias |
| `Generator.WiringGenerator.NameServices` | wiring.go:119-168 | the first loop succeeds if and only if every key can name a field and be written as source and no two map to one field, and then imports exactly the packages the services refer to; an error names a service of which that is false |
| `Generator.WiringGenerator.CheckSingletons` | wiring.go:170-183 | accepts if and only if no singleton with a constructor takes a transient service, and an error names such an edge |
| `Generator.WiringGenerator.VisitKey` | wiring.go:187-200 | the closure terminates and appends the depth-first postorder of what was not visited |
| `Generator.WiringGenerator.FactoryErr` | wiring.go:210-227 | the memoised closure is true if and only if some constructor along a chain of transient services can fail |
| `Generator.WiringGenerator.MarkFactories` | wiring.go:228-233 | each transient factory is marked as failing exactly when such a chain exists, names unchanged |
| `Generator.WiringGenerator.Collect` | wiring.go:110-236 | on a validated graph `collect` succeeds if and only if every service can be named and written as source, all fields differ and no built singleton takes a transient service, and then leaves everything the theorems about the file ask for: variables chosen in order, imports one to one, failing factories marked and the emission order |
| `Generator.WiringGenerator.RenderWire` | wiring.go:276-288 | the loop writes exactly the statements of the emission order, checked where the constructor can fail |
| `WireScope.StatementCompilesExactly` | wiring.go:277-287 | one statement compiles if and only if no variable hides a name it mentions, except that a check may reuse a variable err that can hold an error: its arguments are always declared and its variable always new |
| `WireScope.WireCompilesExactly` | wiring.go:276-297 | Wire compiles if and only if no singleton is called nil or Services, nothing before a check is called fmt, an err beside a check comes before it and can hold an error, and no alias a statement mentions is a name declared before it |
| `WireScope.ImportsCompileExactly` | wiring.go:302-304 | the import block, with fmt put under its own name when something looks like a check, is right if and only if no alias is a forbidden name, nothing else of package fmt is mentioned then, and something really is checked |
| `Factories.RenderFactory` | wiring.go:334-373 | one pass writes, for the inputs in order, a field or a call of that input's factory, and the constructor call on them |
| `Factories.CallsCompileExactly` | wiring.go:343-363 | the calls of a factory compile if and only if no transient input is taken twice, has a name that is taken, or hides what the error check of a call mentions, an err that can hold an error being reused by later checks |
| `Factories.FactoryCompilesExactly` | wiring.go:334-373 | a factory compiles if and only if its names are clear of the receiver s, fmt, nil, new, the names in its type and the alias of its constructor, and of err unless a check can reuse it: its arguments are always defined and its results always fit |
| `Factories.ChecksReadAsMeant` | wiring.go:350-361 | in a factory Go accepts no local up to a checked call is called fmt, nil, new or as a name in the type |
| `FactoryRuns.CallsAreArguments` | wiring.go:343-363 | with no local called err beside a checked call, the calls at the head of a factory compute the arguments resolving the inputs gives, or stop at the same error |
| `FactoryRuns.FactoryIsResolve` | wiring.go:334-373 | with the singletons in their fields, the factories accepted by Go and no local called err beside a checked call, calling a factory makes the constructor calls that resolving its service makes, with the same value or the same first error |
| `FactoryRuns.AcceptedIsCollected` | wiring.go:110-236 | what a successful `collect` leaves is what the theorems about factories ask for |
| `FactoryRuns.WireSettles` | wiring.go:276-297 | with no singleton called err beside a checked statement, Wire with its closing literal makes the container's calls, fails as it does, and otherwise fills every field of Services with the container's instance |
| `FactoryRuns.AskEachIsResolveEach` | wiring.go:334-373 | under the same condition on the factories, any number of services taken from Services, in any order, are what resolving them in that order gives, calls and errors included |
| `GeneratedFile.NamesOfFit` | wiring.go:468-489 | the aliases, types and constructors `collect` leaves are names as the theorems about the file want them |
| `GeneratedFile.FileCompilesExactly` | wiring.go:238-332 | after a successful `collect` Go accepts the file if and only if its imports, its methods, Wire and every factory are clear of names that mean something else |
| `GeneratedFile.NoFieldIsFactory` | wiring.go:334-373 | in a file Go accepts no field of Services is called as a factory method |
| `GeneratedFile.SafeFileCompiles` | wiring.go:556-570 | a condition on the names and imports alone, whatever the order of emission, is enough |
| `GeneratedFile.CompiledNamesAreNeeded` | wiring.go:556-570 | a condition on the names and imports alone that every accepted file satisfies |
| `GeneratedFile.GeneratedIsContainer` | wiring.go:34-53 | the generated file is the container: when `collect` succeeds, Go accepts the file and no check assigns a service, a program that calls Wire and takes services from its result makes the calls and gets the values and errors of one that resolves every singleton and then those services |
| `GeneratedHistory.BodyTells` | wiring.go:276-297 | whatever statements are run, their calls report what the constructors returned, and the run fails exactly when its last call did, at that constructor with that error |
| `GeneratedHistory.FactoryTells` | wiring.go:334-373 | so does a factory, and a value it returns is that of its last call |
| `GeneratedHistory.ProgramTells` | wiring.go:34-53 | a program that calls Wire and takes services gets the errors of the failed calls, all of them and in order, whether or not its file is the container |
| `GeneratedHistory.GeneratedTells` | wiring.go:34-53 | when no check assigns a service, constructors moreover get values of their inputs in order, and every field and every service taken is a value of its service |
| `ErrVariable.ConstFactory` | wiring.go:343-363 | when every constructor succeeds, every factory Go accepts succeeds, and its constructor gets nil for a local called err that a later call checks |
| `ErrVariable.FieldDiffers` | wiring.go:277-297 | a singleton called err beside a checked statement makes every file Go accepts differ from the container |
| `ErrVariable.FactoryDiffers` | wiring.go:343-363 | so does a local called err beside a checked call of its factory, by the arguments its constructor gets |
| `ErrVariable.GeneratedIsContainerExactly` | wiring.go:34-53 | a file Go accepts is the container for every behaviour of the constructors and all services asked for if and only if no check assigns a service: no singleton called err beside a checked statement, no local called err beside a checked call |
| `Witnesses.RefusedFiles` | wiring.go:277-304 | four graphs `collect` accepts whose files Go refuses: an Err with a fallible constructor, a constructor of a package Services, an fmt.Stringer beside a check, a constructor xfmt.ErrorfX |
| `Witnesses.RefusedFactories` | wiring.go:350-361 | four more, for factories: a transient S, an Err whose factory can fail, a report.Report for a constructor of package report, and a transient taken twice |
| `Witnesses.ErrBecomesNil` | wiring.go:277-283 | a graph `collect` accepts whose file Go accepts and leaves nil in a field where the container has an instance |
| `Witnesses.UnsafeNamesCanCompile` | wiring.go:277-287 | safe names are not needed: a variable that is an alias does no harm when nothing after it mentions the alias |
| `CacheSpec.RemoveIsValid` | cache/memory.go:287-300 | removing a key keeps the representation invariant (list and map hold the same keys, none twice, the cursor nil or in the list) and shortens the list by one |
| `CacheSpec.VisitOneIsValid` | cache/memory.go:214-231 | one turn of a sample keeps the invariant and shortens the list by at most one |
| `CacheSpec.PutIsValid` | cache/memory.go:155-168 | storing keeps the invariant, and lengthens the list exactly when the key is new |
| `CacheSpec.PurgeInRemovesExpired` | cache/memory.go:276-285 | ranging over the keys in any order leaves exactly the unexpired entries |
| `MemoryCache.RemoveLinked` | cache/memory.go:287-300 | unlinking an element keeps elements and entries pointing at each other, and is removal on values |
| `MemoryCache.MoveLinked` | cache/memory.go:159-164 | moving an element to the back keeps the links, and is storing an existing key on values |
| `MemoryCache.PushLinked` | cache/memory.go:165-168 | pushing a new element keeps the links, and is storing a new key on values |
| `MemoryCache.AdvanceLinked` | cache/memory.go:216-223 | advancing the cursor past its element keeps it nil or in the list |
| `MemoryCache.Memory.DeleteLocked` | cache/memory.go:287-300 | updates map, list and cursor in place to what removal says |
| `MemoryCache.Memory.PurgeSampleLocked` | cache/memory.go:214-231 | the sample loop, whose bound is fixed before removals shrink the list, never reads a nil front and does what a sample says |
| `MemoryCache.Memory.EvictLocked` | cache/memory.go:263-274 | the loop ends with the list within budget, having removed from the front only |
| `MemoryCache.Memory.Store` | cache/memory.go:155-168 | map and list after a store are those of storing on values, reusing the element of a present key |
| `MemoryCache.Memory.Set` | cache/memory.go:131-171 | refuses in the source's order and changes nothing then; otherwise cleans a sample, stores at the warm end and evicts |
| `MemoryCache.Memory.Add` | cache/memory.go:323-363 | refuses as `Set` does; otherwise stores if and only if no live entry has the key, and leaves a live one alone |
| `MemoryCache.Memory.Delete` | cache/memory.go:174-188 | removes the key and nothing else; a missing key changes nothing |
| `MemoryCache.Memory.GetShared` | cache/memory.go:82-107 | the phase under the shared lock changes nothing and answers with a live value or a miss, or hands an expired key on |
| `MemoryCache.Memory.GetExclusive` | cache/memory.go:109-127 | the phase under the exclusive lock looks again, and answers from what it finds then |
| `MemoryCache.Memory.GetPromoting` | cache/memory.go:234-252 | a hit moves the key to the warm end without sampling; a miss samples |
| `MemoryCache.Memory.PurgeExpired` | cache/memory.go:194-199 | removes exactly the expired entries and returns how many, whatever the map's order |
| `CacheRefinement.SampleKeepsUnexpired` | cache/memory.go:214-231 | cleaning a sample leaves the unexpired entries as they are |
| `CacheRefinement.LockedReadAgrees` | cache/memory.go:109-127 | the second phase of a read answers as the plain table does at that moment |
| `CacheRefinement.AddAgrees` | cache/memory.go:346-362 | a claim succeeds if and only if the plain table has no live entry, and both go on agreeing |
| `CacheRefinement.StepAgrees` | cache/memory.go:82-363 | every event, each phase of a read by itself, replies as the plain table and keeps agreement |
| `CacheRefinement.CacheIsAtomic` | cache/memory.go:82-363 | over every interleaving without a size bound, each reply is that of one plain table from keys to values with expiries |
| `ReadYourWrites.StoredIsFound` | cache/memory.go:82-172 | read your writes, over every interleaving: after a write or a successful claim, and until something else is stored under the key or it is deleted, both halves of a read find that value and claims are refused as long as the TTL has not passed; from then on reads find nothing and claims succeed |
| `ReadYourWrites.DroppedIsGone` | cache/memory.go:174-190 | after a deletion nothing is found under the key and a claim succeeds, until something is stored |
| `ReadYourWrites.NothingIsInvented` | cache/memory.go:82-127 | nothing is found under a key that was never there |
| `ReadYourWrites.PendingWasAsked` | cache/memory.go:91-109 | a read that goes on under the exclusive lock asked for that key, and found it expired |
| `Cleanup.FuelGrows` | cache/memory.go:214-231 | the measure over list index, distance from the cursor and list length is monotone in each |
| `Cleanup.VisitOneApproaches` | cache/memory.go:214-231 | a turn that does not reach the key brings the cursor one step nearer and never raises the key's index |
| `Cleanup.SampleApproaches` | cache/memory.go:214-231 | a sample removes the expired key or brings the cursor 16 elements nearer |
| `Cleanup.RemoveShifts` | cache/memory.go:287-300 | removing another key, the cursor's own included, lowers the key's index or does not lengthen the way |
| `Cleanup.PutShifts` | cache/memory.go:159-168 | a push or a move to the back, the cursor's own element included, lowers the key's index or lengthens the way by at most one |
| `Cleanup.StepSpends` | cache/memory.go:82-363 | every event that does not store the key keeps its fuel, and every sampling one lowers it |
| `Cleanup.RunSpends` | cache/memory.go:82-363 | over a run, fuel left plus samples taken is at most the fuel at the start, until the key is gone |
| `Cleanup.ExpiredKeyIsReclaimed` | cache/memory.go:201-231 | without a size bound an expired key that is not stored again is gone once as many samples as its fuel have been taken, in every run |
| `CleanupCoverage.SamplePins` | cache/memory.go:214-231 | on a list of at most 17 a sample reaches an expired key, or leaves it as the next one to be looked at |
| `CleanupCoverage.ApplyCovers` | cache/memory.go:82-363 | on such a list no operation puts another key in front of the one that is next, and a sample then removes it |
| `CleanupCoverage.SmallCacheReclaims` | cache/memory.go:203-205 | in every run of a cache bounded by 17 or less, a key that is expired from some moment on and not stored again is gone after two samples |
| `CleanupStarvation.MissAdvances` | cache/memory.go:234-243 | a miss on a bounded cache samples 16 keys and leaves the cursor behind them |
| `CleanupStarvation.HitsRotate` | cache/memory.go:250 | hits rotate the list behind the expired key without moving the cursor's element or sampling |
| `CleanupStarvation.RoundStaysStuck` | cache/memory.go:234-252 | a miss followed by sixteen hits is a sample that leaves the cache as stuck as before |
| `CleanupStarvation.HitsStarveCleanup` | cache/memory.go:234-252 | after any number of such rounds, each with a sample, the expired key is still at the front |
| `CleanupStarvation.SetupSticks` | cache/memory.go:131-171 | eighteen writes and fifteen hits on an empty cache lead there, for every bound of 18 or more |
| `CleanupStarvation.EndIsRun` | cache/memory.go:82-363 | such operations make a run |
| `CleanupStarvation.LargeCacheStarves` | cache/memory.go:203-205 | for every bound of 18 or more and every number, operations on an empty cache leave an expired key that is not stored again and outlives that many samples |
| `CleanupStarvation.CoverageExactly` | cache/memory.go:203-205 | every resident key is visited within a bounded number of samples if and only if the bound is at most 17 |
| `LeastRecentlyUsed.BudgetIsKept` | cache/memory.go:263-274 | in every run of a bounded cache the invariant holds and the list stays within the budget |
| `LeastRecentlyUsed.FrontIsOld` | cache/memory.go:269-271 | the front of an overfull list has had at least the whole budget of other keys used since |
| `LeastRecentlyUsed.EvictKeepsRecent` | cache/memory.go:263-274 | the eviction loop takes a key only if at least as many others as the budget were used since |
| `LeastRecentlyUsed.WriteKeepsItsKey` | cache/memory.go:168-169 | a write never evicts its own key |
| `LeastRecentlyUsed.EvictionIsFarFromUse` | cache/memory.go:263-274 | in every run, a live key removed by anything but its own deletion was last used before at least the budget's number of distinct other keys |
| `BoundedReads.StoredIsFoundOrEvicted` | cache/memory.go:234-252 | in every run of the bounded cache a read finds the value last stored exactly while the key is listed and its TTL has not passed, and a claim succeeds exactly when a read finds nothing |
| `Lease.LeaseLasts` | cache/memory.go:346-351 | a held lease survives every event before its deadline that neither writes nor deletes its key |
| `Lease.ClaimsAreApart` | cache/store.go:103-124 | in every run of the cache, two successful claims with no write or delete of the key between them are at least the first lease apart |
| `Lease.ActKeepsExclusive` | cache/store.go:136-164 | each step of `Once` made in time keeps at most one run, covered by the stored lease |
| `Lease.ActMirrors` | cache/store.go:136-164 | each step of `Once` on the cache, and each step of anything else on it, is that step on a plain table |
| `Lease.OnceIsExclusive` | cache/store.go:136-164 | over every story of the unbounded cache, with anything else going on in it, runs for a key never overlap when work and release end within the lease and nobody else writes the key |
| `Lease.OverlapExactlyWhenLate` | cache/store.go:147-152 | while a run goes on, another caller gets the key if and only if the run's lease has ended |
| `Lease.FailedRunFreesTheKey` | cache/store.go:152-163 | after the release of a failed run the next claim succeeds |
| `Lease.LateReleaseOverlaps` | cache/store.go:152-163 | a release after the lease lets two later runs overlap, though every work ended in time |
| `StoreHelpers.Claim` | cache/store.go:103-124 | refuses a nil store, a bad key, a lease that is not positive and a store without Add, in that order and without effect; otherwise it is an atomic Add |
| `StoreHelpers.Once` | cache/store.go:136-164 | refuses nil work and whatever `Claim` refuses; reports that it ran exactly when claimed and the work succeeded or its release failed, and deletes the key after a failure |
| `JobQueue.SendConserves` | queue/queue.go:403-409 | a send keeps every job's account, whether there is room or not |
| `JobQueue.WorkersConserve` | queue/queue.go:482-551 | receiving, retrying, succeeding, failing and abandoning move each job from one account to exactly one other |
| `JobQueue.NextKeepsFlags` | queue/queue.go:433-459 | each step keeps the order of the shutdown switches |
| `JobQueue.NextKeepsLock` | queue/queue.go:344-410 | each step keeps: whoever is past the closed check holds the read lock, and the writer excludes them |
| `JobQueue.NextKeepsPool` | queue/queue.go:344-366 | each step keeps the drain's count equal to the live workers and each worker's attempts and late jobs in range |
| `JobQueue.NextKeepsStops` | queue/queue.go:433-467 | each step keeps what callers of `Stop` may conclude: a drain is observed only when no worker is left |
| `JobQueue.RunKeepsInv` | queue/queue.go:344-551 | all of it holds in every reachable state of any number of submitters, starters, stoppers and workers |
| `JobQueue.JobsAreConserved` | queue/queue.go:377-551 | in every reachable state, accepted = queued + in flight + processed + failed + abandoned, for each single job |
| `JobQueue.CleanStopFinishedEverything` | queue/queue.go:433-467 | once a `Stop` has returned nil nothing is queued or in flight, and every accepted job has had its one outcome |
| `JobHistory.StopSaysWhatIsLeft` | queue/queue.go:461-466 | over every run a Stop that saw the drain end returns nil if and only if nothing is queued, and otherwise the number of jobs that are |
| `JobHistory.UntimedStopIsClean` | queue/queue.go:433-467 | over every run in which no drain timed out, once workers were launched every Stop that returns returns nil |
| `JobHistory.ShutdownIsNeverStuck` | queue/queue.go:433-467 | over every run, until a Stop has returned something else than a new call or a timeout can go on |
| `JobHistory.WorkersComeToRest` | queue/queue.go:482-556 | over every run the workers take at most two steps per attempt and one more for each accepted job, and two for each worker |
| `JobHistory.QueueIsFifo` | queue/queue.go:404-410 | over every run the jobs whose callers were told they were accepted are, in that order, those workers received followed by those queued |
| `JobHistory.LedgerIsHistory` | queue/queue.go:501-556 | over every run processed are exactly the jobs a handler succeeded on, failed those it failed on in their last attempt, and abandoned those dropped in a wait |
| `JobHistory.AttemptsAreCounted` | queue/queue.go:515-541 | over every run a worker has the job it last received, and its handler has failed on it once for each attempt before this one |
| `JobHistory.GivenUpAfterLastAttempt` | queue/queue.go:515-556 | a job counts as failed exactly with the failure that makes as many as it may have attempts |
| `JobHistory.LetGoInShutdown` | queue/queue.go:621-642 | no job is abandoned before shutdown begins |
| `JobHistory.WorkersAreLaunchedOnce` | queue/queue.go:344-367 | however many calls of Start there are, all workers are launched, once |
| `JobHistory.RepliesAreTrue` | queue/queue.go:377-411 | a call of Enqueue is given each answer exactly for its reason, as soon as there is one |
| `JobHistory.AcceptedHasHandler` | queue/queue.go:381-386 | every accepted job has a name and a handler |
| `JobQueue.ProtocolIsSafe` | queue/queue.go:344-459 | in every run no send finds the channel closed, no worker is added after closing, and cancellation implies a closed channel |
| `JobQueue.NoWorkerBlocks` | queue/queue.go:485-497 | once the channel is closed every worker that has not exited can take its next step |
| `JobQueue.AtMostOneLateJob` | queue/queue.go:485-497 | in every run each worker starts at most one job after cancellation |
| `JobQueue.LateJobExactlyWhenChecked` | queue/queue.go:489-492 | after a timed-out drain with jobs queued, a worker's next step starts a job if and only if it had already passed its check |
| `JobQueue.LateJobsWereChecked` | queue/queue.go:489-492 | in every run, after cancellation no more jobs are started than there were workers between check and receive when the drain timed out, and no more than were queued |
| `JobQueue.LateJobRun` | queue/queue.go:489-492 | a run in which a worker starts a job after cancellation |
| `JobAttempts.Process` | queue/queue.go:501-551 | the attempts stop at the first success, the first interrupted wait or the last allowed attempt; the outcome is exactly the one of these that happened, and no wait follows the last attempt |
| `JobAttempts.BackoffIsCappedDoubling` | queue/queue.go:222-232 | clamping the shift is invisible: for every attempt, however large or negative, the delay is 100 ms doubled per attempt, capped at 30 s |
| `JobAttempts.BackoffNeverShrinks` | queue/queue.go:222-232 | delays never shrink and stay between 100 ms and 30 s |
| `TimeoutGuard.TimeoutWriter.WriteHeader` | middleware/timeout.go:155-163 | writes and commits the handler's headers only when nothing is committed, hijacked or late |
| `TimeoutGuard.TimeoutWriter.Write` | middleware/timeout.go:165-175 | reaches the response only when neither hijacked nor late; reports the full length when rejected and the real writer's own result otherwise |
| `TimeoutGuard.TimeoutWriter.CommitLocked` | middleware/timeout.go:229-238 | copies the private headers over the real ones, once |
| `TimeoutGuard.TimeoutWriter.Expire` | middleware/timeout.go:212-221 | renders the document only on a response that is neither committed nor hijacked, and shuts the handler out |
| `TimeoutRace.OneOwner` | middleware/timeout.go:48-104 | in every interleaving the real writer has received the handler's own writes from before the deadline and its headers, or exactly the document and none of the handler's writes and headers |
| `TimeoutHistory.FinishedInTime` | middleware/timeout.go:75-94 | over every run a request that finishes before the deadline, unhijacked, has everything the handler wrote, under the headers it had set by its first write, or by the end if it wrote nothing; and a panic goes on |
| `TimeoutHistory.PanicsAreTheHandlers` | middleware/timeout.go:57-83 | over every run a request panics only with what the handler's step threw, and one that ends quietly after that ended after the deadline |
| `TimeoutHistory.RecoverSwallowsExactly` | middleware/timeout.go:57-71 | over every run the deferred function keeps a panic to itself if and only if the deadline has passed, and otherwise sends how the handler ended |
| `TimeoutRace.NeverWaitsInVain` | middleware/timeout.go:57-95 | in every interleaving, once the handler has left the request goroutine can always take a step |
| `TimeoutRace.NextKeepsServed` | middleware/timeout.go:57-95 | each step keeps: the request waits only where an outcome was or will be sent |
| `TimeoutRace.DocumentExactlyWhenRendered` | middleware/timeout.go:85-103 | in every run the document has been written if and only if a render step found the response neither committed nor hijacked |
| `TimeoutRace.NoDocumentAfterDone` | middleware/timeout.go:85-87 | in every run in which the handler's outcome wins the select there is no document, before or after |
| `TimeoutRace.LateWithoutDocument` | middleware/timeout.go:85-87 | a run from the beginning in which a late request gets no document and nothing else |
| `TimeoutRace.PanicsAreForwarded` | middleware/timeout.go:57-83 | in every interleaving the request panics only with the handler's panic, and a panic is swallowed only after the deadline |
| `TimeoutRace.HijackRaceExactly` | middleware/timeout.go:187-196 | in every run a render step writes the document on a taken connection if and only if the handler is between taking it and setting the flag and nothing is committed |
| `TimeoutRace.HijackRace` | middleware/timeout.go:187-196 | such a run |
| `Migrate.SessionAppliesInOrder` | migrate/runner.go:133-148 | with matching names the session loop commits the unrecorded migrations in order, up to the limit or the first failure |
| `Migrate.SqliteAppliesInOrder` | migrate/sqlite.go:27-83 | so does the loop that reads the records again in each transaction, unless nothing is pending and that cannot be committed |
| `Migrate.UpLoopsAgree` | migrate/sqlite.go:14-84 | with matching names and something pending both loops leave the same schema, records, count and error, for every limit and every failing statement, record or commit |
| `Migrate.UpLoopsAgreeExactly` | migrate/sqlite.go:44-62 | on any database they agree if and only if the names match, and something is pending or committing nothing succeeds, or else nothing is pending before the first mismatch |
| `Migrate.MismatchSplitsTheLoops` | migrate/runner.go:133-139 | a database on which the session loop applies a migration before refusing and the SQLite loop does not |
| `Migrate.DownLoopsAgreeExactly` | migrate/sqlite.go:99-151 | the two loops of `Down` agree if and only if something is recorded or committing nothing succeeds |
| `MigrationEffects.RunAllRan` | migrate/runner.go:370-387 | running statements succeeds with the end of a chain of schemas, each the statement's result on the one before, or there is a first statement that fails |
| `MigrationEffects.UpDoes` | migrate/runner.go:100-149 | when no recorded name differs, Up applies the unrecorded migrations in the order of their versions, as many as it counts: the schema is where their statements lead one after the other, their records are added and no others change; it stops at the end, at the limit, or at the first whose statements, record or commit fail, with its error |
| `MigrationEffects.DownDoes` | migrate/runner.go:184-202 | Down rolls back from the highest version on, as many as it counts: the schema is where their statements lead, exactly their records are gone; it stops at the end, at the number asked for, or at one that is not local, has another name, or fails |
| `CompetingEffects.CommitsExactly` | migrate/sqlite.go:27-83 | one transaction of a runner commits a migration if and only if that is the first unrecorded one of its list, no recorded name differs, the lock is got, the limit not reached, and statements, record and commit succeed; then its statements and record are the change |
| `CompetingEffects.ReturnsExactly` | migrate/sqlite.go:14-84 | a runner returns if and only if its transaction commits nothing or its whole list is recorded |
| `Migrate.UpKeepsPrefix` | migrate/runner.go:133-148 | from the first k applied, `Up` leaves exactly the first k + count applied, error or not |
| `Migrate.DownKeepsPrefix` | migrate/runner.go:184-202 | from the first k applied, `Down` leaves exactly the first k - count applied, error or not |
| `Migrate.DownUndoes` | migrate/runner.go:184-202 | rolling back n migrations applied from a database gives that database back, or stops after some of them at a record or commit of the rollback that fails, exactly when one does |
| `Migrate.DownInvertsUp` | migrate/runner.go:100-203 | if the applied versions are a prefix and each Down undoes its Up, Down(n) after an `Up` that applied n >= 1 fails exactly when one of its own records or commits does; without error schema and records are restored, and otherwise the first k + n - rolled back are applied, with the schema of just those |
| `CompetingRunners.CommitKeepsInv` | migrate/sqlite.go:27-83 | one runner's committed transaction adds one new version, one to its own count and one step to the serial history |
| `CompetingRunners.EachVersionCommitsOnce` | migrate/sqlite.go:14-84 | however runners with any lists and limits interleave, and whichever of their transactions fail to lock, record or commit, no version commits twice, the counts sum to the versions added, and the database is that of committing them one by one |
| `MigrationLoops.Runner.Execute` | migrate/runner.go:370-387 | statements run in order up to the first that fails |
| `MigrationLoops.Runner.TransactUp` | migrate/runner.go:305-354 | the database changes, schema and record together, if and only if the transaction commits |
| `MigrationLoops.Runner.TransactDown` | migrate/runner.go:305-368 | the same for rolling one back and deleting its record |
| `MigrationLoops.Runner.Up` | migrate/runner.go:100-149 | refuses a negative limit, an invalid list and a lock it does not get, in that order and without effect; otherwise the report and database of the loop of its dialect over the validated list, with an error of its own if the lock is not released |
| `MigrationLoops.Runner.UpInSession` | migrate/runner.go:133-148 | the loop over the session's first reading computes the specified report and database |
| `MigrationLoops.Runner.FindNext` | migrate/sqlite.go:43-62 | the scan returns the first mismatch of the whole list, or the first unrecorded migration and whether more follow |
| `MigrationLoops.Runner.UpWithTransactionalLock` | migrate/sqlite.go:14-84 | the loop with its flags computes the specified report and database |
| `MigrationLoops.Runner.Down` | migrate/runner.go:152-203 | the same for rolling back; steps must be positive |
| `MigrationLoops.Runner.DownInSession` | migrate/runner.go:184-202 | the loop rolls back highest version first, computing the specified report and database |
| `MigrationLoops.Runner.DownWithTransactionalLock` | migrate/sqlite.go:86-152 | the loop with its flags computes the specified report and database |
| `MigrationList.ValidateMigrations` | migrate/migration.go:21-50 | no errors if and only if every migration is sound and versions are distinct; the result is the cleaned list, then strictly ascending |
| `MigrationList.FaultsOf` | migrate/migration.go:27-48 | a migration has no fault if and only if its version is positive and new, and name, Up and Down are not blank |
| `MigrationList.CleanStatements` | migrate/migration.go:52-60 | keeps the non-blank statements, trimmed, in order |
| `MigrationList.CleanIsClean` | migrate/migration.go:52-60 | what is kept is trimmed and not blank, and cleaning it again changes nothing |
| `MigrationText.AcceptedExactly` | migrate/migration.go:21-50 | a list is accepted if and only if no version is there twice or not positive, and every migration has a name and, in both directions, a statement that is not blank |
| `MigrationText.AcceptedIsPrepared` | migrate/migration.go:21-60 | the accepted list holds each migration given, in ascending order, its name and statements stripped of white space and its blank statements left out, and nothing else |
| `MigrationText.CleanKeeps` | migrate/migration.go:52-60 | cleaning keeps exactly the statements that are not blank, stripped, in their order |
| `MigrationList.SortIsPermutation` | migrate/migration.go:22-23 | sorting loses and invents no migration |
| `MigrationList.SortOrders` | migrate/migration.go:22-23 | versions do not fall along the sorted list |
| `StatementFiles.SplitStatements` | migrate/source.go:89-109 | the builder loop computes the recursive split at separator lines, CRLF read as a newline, dropping blank statements |
| `StatementFiles.SplitOfJoin` | migrate/source.go:89-109 | statements joined with separator lines between them split into those statements |
| `StatementFiles.SplitOfFile` | migrate/source.go:89-109 | so does the file, saved with either line end |
| `MigrationText.SplitIsCleanedSections` | migrate/source.go:89-109 | whatever lies between separator lines, however these are indented, the statements are those sections stripped, without the blank ones |
| `EventStream.Stream.Emit` | sse.go:183-201 | a write that panics closes the stream; an error may leave part of the frame, or all of it when only the flush fails |
| `EventStream.Stream.Send` | sse.go:75-143 | refuses in the source's order and without effect; otherwise emits the event's frame |
| `EventStream.Stream.Comment` | sse.go:149-160 | refuses a line terminator; otherwise emits a comment line and a blank one |
| `EventStream.Stream.Close` | sse.go:165-170 | closes and leaves the response as it is |
| `EventStream.BuildFrame` | sse.go:116-140 | the builder loop writes the specified lines |
| `EventStream.EncodedIsNormalised` | sse.go:131-132 | replacing CRLF and then CR normalises every line terminator, as a single pass reading CRLF as one would |
| `EventStream.FrameIsLined` | sse.go:97-140 | no line of an accepted frame holds a line terminator: nothing can forge a field |
| `EventStream.AcceptedExactly` | sse.go:75-113 | an event is accepted if and only if it has data or is only a retry, the retry is none or a millisecond at least, and no line of its frame holds a line terminator |
| `EventStream.EventIsHeard` | sse.go:116-140 | a client between events that reads a frame dispatches its event if it has data, and takes over id and retry |
| `EventStream.HeardAsSentExactly` | sse.go:100-102 | an accepted event is heard as sent if and only if its id has no NUL or is the last id already |
| `EventStream.CommentIsIgnored` | sse.go:145-160 | a comment changes nothing for a client between events |
| `EventStream.StreamRoundTrip` | sse.go:75-160 | reading what any accepted calls wrote, character by character, dispatches exactly the events with data, in order, with type, last id, retry, and normalised data less one trailing newline |
| `EventStream.ClientHearsStream` | sse.go:75-201 | reading the response of a stream, after any calls whose writes succeed, gives exactly the events of the calls that were not refused |
| `EventStream.BrokenWrite` | sse.go:183-201 | a write that fails leaves the first part of its frame, and after one that panics nothing is written |
| `RouteURLs.URL` | route.go:76-109 | the rescanning loop terminates, finds the errors of the pattern as a left-to-right reading does, and returns the template expansion |
| `RouteURLs.RescanIsExpand` | route.go:82-107 | starting over after a substitution gives what going on would, with fewer braces left |
| `RouteURLs.ExpandAfter` | route.go:106 | text without an opening brace is carried along unchanged |
| `RouteURLs.SubstitutedHasNoOpen` | route.go:98-105 | what is put in never has an opening brace, whatever the parameter |
| `RouteURLs.SegmentsAreParameters` | route.go:76-109 | on patterns of literals and single-segment wildcards the URL has the pattern's segments, and in place of each wildcard one that unescapes to its parameter |
| `RouteURLs.MultiSegmentsAreParameters` | route.go:99-105 | a multi-segment wildcard becomes the value's segments, each unescaping to itself |
| `RouteTemplates.EveryPatternIsTemplate` | route.go:82-107 | every pattern is literal text and wildcards, followed by literal text or by a brace that is never closed |
| `RouteTemplates.ExpandIsURL` | route.go:76-109 | for every pattern and all parameters the URL is the text with every wildcard filled, or the error of the first wildcard without a parameter, or of the brace that is not closed |
| `PathEscaping.UnescapeOfEscape` | route.go:98 | unescaping gives back every value that was escaped |
| `PathEscaping.EscapeIsPlain` | route.go:98 | escaping emits neither braces nor slashes |
| `PathEscaping.PlainExactly` | route.go:98 | what is not escaped is what RFC 3986 allows in a path segment, except seven delimiters |
| `RouteNames.App.Named` | route.go:24-44 | panics exactly on a blank name or another route's, and then changes nothing; otherwise names and routes stay one to one, a second name replacing the first |
| `Classifier.ClassifyChain` | database/errors.go:164-185 | the mixed loop and recursion finds the first hit in depth-first pre-order, over every error tree |
| `Classifier.ClassifyBranches` | database/errors.go:173-180 | the loop over branches finds the first hit of the first branch that has one |
| `Classifier.Classify` | database/errors.go:153-160 | the first recognizer with a hit anywhere decides, unknown if none has |
| `Classifier.FirstInOrder` | database/errors.go:142-160 | a hit decides when no earlier recognizer hits anywhere in the tree and its own hits nothing before it |
| `ClassifierPlaces.FirstHitIsFirstPlace` | database/errors.go:164-185 | over every tree a recognizer decides at the first place it hits, an error coming before those it wraps and one branch before the next, and not at all exactly when it hits nowhere |
| `ClassifierPlaces.FirstRecognizerDecides` | database/errors.go:153-160 | for every error and any recognizers the first that hits anywhere decides, from its first place |
| `ClassifierPlaces.BuiltInsDecideOtherwise` | database/errors.go:125-140 | when no given recognizer hits, the built-in ones decide |
| `ClassifierPlaces.SentinelExactly` | database/errors.go:258-265 | a sentinel decides if and only if some error of the tree claims its class and none claims one declared before it |
| `ClassifierPlaces.StatesExactly` | database/errors.go:274-303 | a SQLSTATE decides for a class if and only if it is one of the class |
| `ClassifierPlaces.SQLiteExactly` | database/errors.go:312-345 | a code decides if and only if its primary and extended parts, read as SQLite composes them, are those of the class, and the message is one of SQLite's |
| `ClassifierPlaces.MessageExactly` | database/errors.go:356-407 | a message decides for the first class whose MySQL number it announces, and if it announces none for the first whose SQLite phrase it has |
| `Classifier.CustomGoesFirst` | database/errors.go:125-140 | a custom recognizer that hits at any depth goes before every built-in one |
| `Classifier.SentinelAtRoot` | database/errors.go:258-265 | a sentinel anywhere in the tree is already found at its root, lowest class first |
| `Classifier.WrappingKeepsClass` | database/errors.go:246-265 | no plain wrapper and no text-only join branch changes what a sentinel, SQLSTATE or SQLite code decides |

## Left out

- `RouteNames.App.Named`: a route is always attached to an application; the early return for a nil one is not modelled.
- `MemoryCache.Memory.Set`: values are immutable, so cloning of byte slices is not modelled.
- `CacheRefinement.CacheIsAtomic`: speaks of the cache without a size bound; with one, evictions make it differ from a plain table.
- `Cleanup.ExpiredKeyIsReclaimed`: speaks of the cache without a size bound; for every bound `CleanupStarvation.CoverageExactly` says whether it holds.
- `Lease.ClaimsAreApart`: speaks of the cache without a size bound, which alone promises it: eviction can drop a claim.
- `GeneratedFile.FileCompilesExactly`: is about what names mean: that arguments and results have the types they must is left to the container's own checks, and a package that imports itself and formatting, which reports a keyword used as an alias, are left out.
- `Generator.WiringGenerator.Collect`: what reflection says of a service (its field name, variable stem, types, constructor, whether it can be written as source and hold an error) is a parameter, in place of `wiringFieldName`, `lowerCamel`, `typeSource` and `constructorSource`.
- `Generator.WiringGenerator.ImportAlias`: takes the last part of the path that can name a package, as `sanitizeIdentifier` leaves it.
- `MigrationLoops.Runner.Up`: an error is one of several when the source joins them; failures to create or read the metadata table are left out.
- `MigrationLoops.Runner.Down`: takes the highest version again and again instead of sorting the records downwards.
- `Migrate.UpLoopsAgreeExactly`: a transaction that cannot begin counts as one that does not commit.
- `CompetingRunners.EachVersionCommitsOnce`: statements do what they do to a schema every time; locks, records and commits may fail in any transaction.
- `StoreHelpers.Once`: shows one call with nothing between its steps; interleavings are in `Lease`.
- `MigrationList.ValidateMigrations`: the sort is a stable insertion sort; Go's may order equal versions differently, which only changes lists that are refused.
- `JobAttempts.Process`: whether attempt n fails, and whether the wait after it is interrupted, are arbitrary functions of n.
- `RouteURLs.URL`: a path is a sequence of bytes, and percent-encoding follows the documented behaviour of Go's `url.PathEscape`.
- `EventStream.StreamRoundTrip`: streams are sequences of characters; UTF-8 and the byte order mark are left out, and ids have no NUL (`EventStream.HeardAsSentExactly` says what happens otherwise).
- `EventStream.Stream.Send`: a nil receiver is not modelled.
- Reflection, type identity and the wiring fingerprint: types are strings, ordered as keys.
- Declarations and the text of the generated file: the output is a program in a small syntax.
- A constructor that itself calls the container.
- Liveness of concurrent runs: no step is forced to happen; that some step can, and that resolutions end, is proved.
- Writer preference of Go's read-write lock in the queue: any waiting goroutine may go next.
- Payloads, request ids, loggers and failure callbacks of jobs; every wait is one that shutdown may interrupt, also one with no delay.
- Flushing and Unwrap in the timeout writer.
- SQL text, drivers, how locks are taken and how long they are waited for, and `Statuses`: a transaction is one atomic step that commits or rolls back.
- Loading migrations from a file system.
- Routing in `ServeMux`, serving, TLS, lifecycle hooks, the command line, other middleware, forms and queries, JSON in the cache, and the janitor's ticker: plumbing and one-branch facts.
- The wording of errors and logs.
