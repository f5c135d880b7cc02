# liblogos: load, dispatch and teardown, verified

This project models how the Logos core resolves, loads, supervises, restricts, dispatches to and tears down
modules, and proves what its parts promise, over every input, every run and every interleaving.

`dafny verify dfyconfig.toml` checks everything. The modules follow the program:

- `Names`, `Graphs`: module names; least closed sets, paths and cycles, the definitions the resolver is measured by.
- `Sorting`, `TopoSort`, `DependencyResolver`: the resolver's loops as methods, proved against those definitions. Iterating an
  unordered container is an arbitrary choice, so every result holds whatever the order.
- `ModuleRegistry`, `CascadeUnload`: the table of known modules as a class whose methods rewrite it in place, both
  breadth-first walks, and the cascade built on them.
- `ModuleSupervisor`: the restart budget, as a class with the full record of deaths kept beside its pruned memory.
- `LoadLedger`, `LoadProtocol`, `LoadRuns`: the small locks of the load path as a class, and the protocol around them
  as a state machine: threads that run public calls, each phase being the code between two critical sections, with the
  locks held following from the phases, and container callbacks that may report any name at any time in two steps; and
  runs of single calls, one of which records an orderly exit as a crash.
- `AccessRestrictions`, `RestrictionProtocol`, `RestrictionRuns`: who may call a module; the owner thread's queue and
  the restriction table, with flags read one by one while other threads change them and queued work delivered inside
  dials; and two runs that show what that can do.
- `BareModuleGlue`, `DispatchProtocol`, `DispatchRuns`: the glue's critical sections as a class, and callers, worker,
  stopper and container around it as a state machine.
- `WebCallRouter`, `GateProtocol`, `SubscriptionProtocol`, `SubscriptionRuns`: gate, sink table and id map as classes;
  re-entrant frames and the posted subscriptions as state machines; and runs that lose an id or leave one armed.
- `WebContainer`, `RetirementProtocol`, `RetirementRuns`: retirement as a class, and its interleavings as a state
  machine.

A state machine is a `State`, an `Event`, a guard `Can`, a step `Do`, and `Legal` runs with the state `After` them. An
invariant is proved for every step, then for every run, and the theorems follow from it. Some fields of a state are
history: logs, or whether something ever happened. The `Runs` modules construct whole runs, so that no theorem holds
for want of any. The classes' methods are tied to the same value functions the machines step by, or state their whole
new state outright.

## What the code does not keep

Ten things the code or its comments suggest hold only under a condition, and each is stated with it:

- `src/logos_core/bare_module_glue.h:70-73` says the worker runs dispatches one at a time in FIFO order. A handler that
  waits for another module spins an event loop on the worker (`src/logos_core/bare_module_glue.cpp:112-116`), which
  delivers the next posted dispatch inside it. `HandlersCanNest` gives the run; `OneAtATimeIffNeverNested` and
  `IssueOrderIffNeverNested` say exactly when either promise is kept. Exactly-once completion holds regardless.
- `src/logos_core/module_manager.cpp:625-629` makes the owner thread's queue the order of the restriction pushes. A
  dial that spins an event loop (`src/logos_core/module_manager.cpp:78-80`) lets a queued refresh run inside another,
  whose older list may then be sent last: `NestedRefreshIsLost` gives the run. `AgreementIsInTheFlags` says for every
  run exactly which targets agree, and `LostOnlyIfADependentTurned` what a lost one must have met.
- An unexpected death refreshes no restriction: `DeathLeavesTheTableStale` says exactly when that shows.
- The report of skipped optional dependencies joins two names with a NUL byte. It is exact for the names that pass
  validation (`ReportIsExact`), and would not be without it (`NulBytesHideAnEntry`).
- Marking an unknown name as loaded inserts it without inverting the edges again: `Registry.MarkLoaded`.
- A stop of the router need not return: `StopCanReturnIff` says exactly when it still can, `TwoStopsFromInsideHappen`
  gives a run after which none of two can.
- A subscription id is forgotten before its client is looked up, and lost if the client is not found
  (`LostWithItsClient`). Where the client turns the event loop before it answers a subscribe, as
  `src/logos_core/web_call_router.cpp:278-281` allows of any work, an id can also be overwritten (`LostToALaterOne`).
  `NothingLostIffFound` is the exact condition for both.
- `src/logos_core/web_call_router.cpp:245-250` withdraws at stop what the page subscribed to. A stop from inside such a
  subscribe misses the id that is still to come: `LeftArmedByStop` gives the run, `LeftoversWereUnsubscribed` says
  what is left armed, and `CalmRunsKeepTheTable` when neither happens.
- `src/logos_core/web_container.cpp:462-489` parks a lost page so that it is not destroyed under a call into it. The
  counter it tests is raised for calls on the Qt main thread only (`src/logos_core/web_module_glue.cpp:88-94,134`), so
  a load that asks the page from another thread whether it serves (`src/logos_core/web_container.cpp:343-350,383-386`)
  has it destroyed beneath it: `LostPageDestroyedUnderACall` gives the run, `DestroyedUnderACallIff` is exact, and
  `LostPagesOutliveTheirWaits` is what the parking does promise.
- A mark is meant to tell an orderly exit from a crash (`src/logos_core/module_manager.cpp:1046-1048`). The callback
  takes two sections, and an unload's tail may consume the mark between them: `OrderlyExitRecordedAsCrash` gives the
  run, `ConcludedAsCrashIffUnmarked` says exactly when.

## Model

| member | source | states |
|---|---|---|
| Graphs.ClosureIsLeastClosed | src/logos_core/dependency_resolver.cpp:75-96 | the closure used to specify the walks is closed under the edges and inside every other closed set |
| Graphs.ClosureIsReachability | src/logos_core/dependency_resolver.cpp:75-96 | being in that least set is the same as being reachable from an allowed root along edges between allowed modules |
| Graphs.StuckReachesCycle | src/logos_core/dependency_resolver.cpp:22-41 | modules that all keep waiting on one another reach a cycle (pigeonhole on a long walk): why what the sort leaves out is cyclic |
| Graphs.OrderedAvoidsCycles | src/logos_core/dependency_resolver.cpp:43-60 | whatever stands in a dependencies-first order reaches no cycle: why what the sort emits is acyclic |
| TopoSort.CountModule | src/logos_core/dependency_resolver.cpp:27-32 | in-degree of one module counts its edges into the set with multiplicity, empty names aside, and its reverse entries match them one for one |
| TopoSort.CountEdges | src/logos_core/dependency_resolver.cpp:19-33 | the same for the whole set, in any order of visiting it |
| TopoSort.FirstQueue | src/logos_core/dependency_resolver.cpp:35-41 | exactly the modules with in-degree zero start the queue, each once |
| TopoSort.Release | src/logos_core/dependency_resolver.cpp:49-57 | placing a module lowers each dependent by the number of its edges and queues exactly those that reach zero, once |
| TopoSort.TopoSort | src/logos_core/dependency_resolver.cpp:15-60 | Kahn is exact: no duplicates, dependencies first, and precisely the members that reach no cycle of edges inside the set, repeated and self edges included |
| DependencyResolver.WalkRequired | src/logos_core/dependency_resolver.cpp:72-96 | the walk reaches exactly the least required closure; a name is missing iff it is unknown and referred to |
| DependencyResolver.RequiredMeansReachable | src/logos_core/dependency_resolver.cpp:72-96 | that closure is the known modules on chains of required edges, through known ones, from the request |
| DependencyResolver.SatisfiableIsStable | src/logos_core/dependency_resolver.cpp:153-167 | whether a branch is satisfiable does not depend on how far the pass has come, so a declined branch stays declined |
| DependencyResolver.MembersAreSatisfiable | src/logos_core/dependency_resolver.cpp:136-170 | what the pass has added was satisfiable and has its whole branch inside |
| DependencyResolver.ProbeBranch | src/logos_core/dependency_resolver.cpp:136-151 | no blocker iff every name the branch refers to is known, and then the branch is the whole closure beyond what is loaded; a blocker is unknown and belongs to the branch |
| DependencyResolver.ConsiderOptional | src/logos_core/dependency_resolver.cpp:132-171 | one optional edge: admitted whole, or reported under its (holder, optional) key at most once, with the right blame |
| DependencyResolver.Round | src/logos_core/dependency_resolver.cpp:128-173 | after a round over the holders, in any order, each of their optional edges is admitted or reported |
| DependencyResolver.AdmitOptional | src/logos_core/dependency_resolver.cpp:125-174 | the fixed point is the least admitted set whatever the order of visiting, it terminates, and the report covers every optional edge left out |
| DependencyResolver.BestSetIsLeast | src/logos_core/dependency_resolver.cpp:117-124 | that set is admitted, and contained in every set that is |
| DependencyResolver.WholeBranches | src/logos_core/dependency_resolver.cpp:117-124 | when nothing required is missing, admission reads plainly: an optional dependency whose whole required closure is known comes in with that closure |
| DependencyResolver.KeysTellPairsApart | src/logos_core/dependency_resolver.cpp:157-158 | the joined key tells two pairs apart when the holders hold no NUL byte |
| DependencyResolver.ReportIsExact | src/logos_core/dependency_resolver.cpp:153-167 | then each optional edge of a resolved module leads into the set or to exactly one entry, never both, and no pair is entered twice |
| DependencyResolver.NulBytesHideAnEntry | src/logos_core/dependency_resolver.cpp:157-158 | a catalog whose holders contain a NUL byte: two optional edges are due an entry, and every report has exactly one of the two |
| DependencyResolver.WalkHard | src/logos_core/dependency_resolver.cpp:182-194 | the second walk rebuilds the first closure, unknown names passed over |
| Sorting.Sorted | src/logos_core/dependency_resolver.cpp:195-198 | the best-effort names in ascending order |
| Sorting.BeforeIsLexicographic | src/logos_core/dependency_resolver.cpp:198 | the order is the lexicographic one: a proper prefix first, else the smaller character where two names first differ |
| Sorting.AscendingIsUnique | src/logos_core/dependency_resolver.cpp:195-198 | there is only one such list, however it was sorted |
| DependencyResolver.FullOrderIffAcyclic | src/logos_core/dependency_resolver.cpp:202-227 | an exact order is as long as the set iff the set has no cycle: what the length tests decide |
| DependencyResolver.Resolve | src/logos_core/dependency_resolver.cpp:62-245 | the order, missing names, cycle flag, sorted best-effort list and report of one resolution, each against its definition, and outright which mode loads what and whom an entry blames; the order respects optional edges too whenever the combined graph is acyclic |
| DependencyResolver.RefinedKeepsHard | src/logos_core/dependency_resolver.cpp:204-224 | an order for the combined edges is one for the required edges |
| DependencyResolver.HardCyclesAreCombined | src/logos_core/dependency_resolver.cpp:211-227 | a required cycle is a cycle of the combined graph, so the refining sort never hides one |
| DependencyResolver.SoftEdgesOnlyRefine | src/logos_core/dependency_resolver.cpp:201-224 | under order-only loading, optional edges change neither the members of the order, nor the missing names, nor the cycle flag |
| ModuleRegistry.Invert | src/logos_core/module_registry.cpp:683-697 | inverting one module records it once against each known name it lists |
| ModuleRegistry.InvertAll | src/logos_core/module_registry.cpp:675-703 | the reverse lists are the duplicate-free inverse of the forward edges among known modules |
| ModuleRegistry.Walk | src/logos_core/module_registry.cpp:613-635 | the breadth-first walk lists, once each, exactly what some chain of edges leads to, the start itself excepted, cycles and diamonds included, and nothing before what is fewer edges away |
| ModuleRegistry.WalksAreConverse | src/logos_core/module_registry.cpp:604-673 | for known x and y, y is beyond x along the forward edges iff x is beyond y along the reverse ones |
| ModuleRegistry.ScansKeepRunningModules | src/logos_core/module_registry.cpp:182-260 | a scan leaves the loaded set alone, drops exactly the names neither found, running nor embedded, and leaves unfound survivors untouched |
| ModuleRegistry.Registry.RecomputeDependents | src/logos_core/module_registry.cpp:675-703 | reverse edges made coherent in place; nothing else of any entry changes |
| ModuleRegistry.Registry.RegisterModule | src/logos_core/module_registry.cpp:714-728 | path and dependencies replaced in one entry, reverse edges coherent again |
| ModuleRegistry.Registry.RegisterDependencies | src/logos_core/module_registry.cpp:730-737 | dependencies replaced in one entry, reverse edges coherent again |
| ModuleRegistry.Registry.RegisterOptionalDependencies | src/logos_core/module_registry.cpp:747-752 | optional dependencies replaced in one entry, reverse edges coherent again |
| ModuleRegistry.Registry.MarkLoaded | src/logos_core/module_registry.cpp:773-795 | the whole new table; reverse edges stay coherent iff the name was known or no module lists it |
| ModuleRegistry.Registry.MarkUnloaded | src/logos_core/module_registry.cpp:830-839 | the whole new table, edges kept |
| ModuleRegistry.Registry.ClearLoaded | src/logos_core/module_registry.cpp:851-855 | every loaded flag cleared, timestamps and edges kept |
| ModuleRegistry.Registry.Discover | src/logos_core/module_registry.cpp:133-260 | after a scan exactly the names found, loaded or embedded are known; a found one holds path, version and both dependency lists of its last package and keeps its flags, time and epoch; an unfound one is untouched; reverse edges coherent again |
| ModuleRegistry.Registry.ModuleDependencies | src/logos_core/module_registry.cpp:604-635 | direct list, or exactly the modules beyond the name; an unknown name has none |
| ModuleRegistry.Registry.ModuleDependents | src/logos_core/module_registry.cpp:637-673 | direct list, or exactly the known modules that the name is beyond, stated through the FORWARD edges |
| CascadeUnload.TeardownSet | src/logos_core/module_manager.cpp:1641-1662 | the target and the loaded modules with a chain of dependencies down to it, each once |
| CascadeUnload.ReverseOrder | src/logos_core/module_manager.cpp:1664-1685 | a permutation of the teardown set; dependents first when the load order holds every member |
| CascadeUnload.TeardownOrder | src/logos_core/module_manager.cpp:1664-1685 | the same over the resolver: a permutation of the teardown set, dependents first when what the resolver reaches from it is acyclic |
| CascadeUnload.ClosedAfterEachUnload | src/logos_core/module_manager.cpp:1687-1697 | after every single unload the modules still running have their known dependencies running |
| CascadeUnload.UnloadModuleWithDependents | src/logos_core/module_manager.cpp:1624-1697 | the table, the answer and the order of a cascade in which any given modules refuse to unload; what ran closed is closed afterwards iff no refused module depends on one taken down; of what ran, exactly the target and its transitive dependents are down, refused ones excepted, and everything else runs on |
| CascadeUnload.ClosedIffRefusalsAgree | src/logos_core/module_manager.cpp:1624-1697 | the same about the table, whatever order the cascade took and whether or not the graph has a cycle |
| CascadeUnload.CascadeIsOrderly | src/logos_core/module_manager.cpp:1624-1697 | leaves first: with no refusal every intermediate loaded set is closed and in the end neither the target nor a transitive dependent runs |
| ModuleSupervisor.MemoryIsTheWindow | src/logos_core/module_supervisor.cpp:116-123 | pruning at every death loses nothing: the memory is the full record cut to the window |
| ModuleSupervisor.BudgetHolds | src/logos_core/module_supervisor.cpp:104-131 | no closed interval of the window's length holds more restart verdicts than the budget |
| ModuleSupervisor.VerdictCountsTheWindow | src/logos_core/module_supervisor.cpp:125-130 | a restart is granted iff the window ending at the death holds no more deaths than the budget |
| ModuleSupervisor.TheWindowDecides | src/logos_core/module_supervisor.cpp:117-130 | for times that never run back the memory is the record from the first death inside the window on, the verdict is a restart iff those are within the budget, and a death alone in its window is always restarted |
| ModuleSupervisor.Supervisor.OnUnexpectedExit | src/logos_core/module_supervisor.cpp:104-131 | the verdict and attempt number follow from every death judged since the module was forgotten; nothing is recorded when supervision is off |
| ModuleSupervisor.Supervisor.Forget | src/logos_core/module_supervisor.cpp:133-137 | one module's record goes, the others stay |
| ModuleSupervisor.RemoveOlder | src/logos_core/module_supervisor.cpp:118-122 | exactly the entries older than the cutoff go, the order is kept |
| LoadLedger.CommitCountsEveryDeath | src/logos_core/module_manager.cpp:204-250 | whatever others do between begin and commit, the commit lists the module iff no death of that name came in between |
| LoadLedger.LoadBook.RecordTerminationDuringLoad | src/logos_core/module_manager.cpp:227-234 | unlisted in one step with the attempt being told; true iff one is open |
| LoadLedger.LoadBook.CommitLoad | src/logos_core/module_manager.cpp:240-250 | closes the attempt and lists the module in one step, unless the attempt saw a death |
| LoadLedger.LoadBook.ConsumeExpectedExit | src/logos_core/module_manager.cpp:188-194 | true iff the mark was there, and gone afterwards |
| LoadLedger.LoadBook.MarkAllLoadedExitsExpected | src/logos_core/module_manager.cpp:276-279 | exactly the loaded names are added to the marks |
| LoadProtocol.KeepsExclusion | src/logos_core/module_manager.cpp:54-141 | every step keeps the locks' exclusion: fleet, per-module, spawn and configuration |
| LoadProtocol.TheLocksKeepDeedsApart | src/logos_core/module_manager.cpp:54-66 | what a step does to the shared books is never about the module another thread has locked |
| LoadProtocol.KeepsThreads | src/logos_core/module_manager.cpp:872-1180 | every step keeps what each thread counts on: its attempt open, its module not yet listed, its announcement marked or recorded |
| LoadProtocol.NotingKeepsHistory | src/logos_core/module_manager.cpp:204-250 | an entry keeps history and ledger in agreement when the ledger changes as the entry says |
| LoadProtocol.DeedsKeepHistory | src/logos_core/module_manager.cpp:204-250 | the loaded set and the attempts' flags agree with the history after every deed |
| LoadProtocol.DeedsKeepRecords | src/logos_core/module_manager.cpp:183-194 | no announcement is recorded twice, and every answered unload has its record |
| LoadProtocol.RunsKeepInv | src/logos_core/module_manager.cpp:872-1310 | the whole invariant holds after every run of any number of loads, dependency loads, unloads, cascades, fleet teardowns, configuration calls and callbacks |
| LoadProtocol.NoLostDeath | src/logos_core/module_manager.cpp:1054-1158 | a commit has its own begin before it, with no termination of the module in between |
| LoadProtocol.CommitListsIffNoDeath | src/logos_core/module_manager.cpp:236-250 | a commit closes its attempt and lists the module iff no termination was recorded since the attempt began |
| LoadProtocol.DeadUntilALaterAttemptCommits | src/logos_core/module_manager.cpp:204-250 | a listed module was committed after the last recorded death, by an attempt that began after it |
| LoadProtocol.CommitsAreSeparated | src/logos_core/module_manager.cpp:880-894 | between two commits of one name there is a termination, an unload or a fleet teardown |
| LoadProtocol.MarksAreOwned | src/logos_core/module_manager.cpp:143-194 | in-flight entries are exactly the loads running, each mark belongs to a teardown running under the module's or the exclusive fleet lock, and at rest both are empty |
| LoadProtocol.DeathIsHandedOn | src/logos_core/module_manager.cpp:227-234 | with no load of the module running, a reported death unlists it and is left for the callback to conclude |
| LoadProtocol.HandedOnIffNoLoad | src/logos_core/module_manager.cpp:1054-1062 | a reported death is left for the callback to conclude iff no load of the module is running; otherwise nothing is concluded and a commit then lists nothing |
| LoadProtocol.ADeathUndoesItsAttempt | src/logos_core/module_manager.cpp:204-250 | in any run, after a reported death no commit lists the module before another attempt has begun |
| LoadProtocol.ConcludedIsACrash | src/logos_core/module_manager.cpp:1061-1076 | with no teardown of the module running, what the callback concludes is recorded as a crash and supervised |
| LoadProtocol.DeathOutsideIsACrash | src/logos_core/module_manager.cpp:1054-1077 | both together, whatever any thread or callback does between the two sections |
| LoadProtocol.ConcludedAsCrashIffUnmarked | src/logos_core/module_manager.cpp:1061-1076 | in every reachable state what the callback concludes is a crash iff no mark of the name is left, and else the stop under the announcement the mark stands for |
| LoadRuns.DiesWhileLoading | src/logos_core/module_manager.cpp:227-250 | a run: the child dies while it loads; its load takes the death over, lists nothing, and no crash is concluded |
| LoadRuns.TokenIsRefused | src/logos_core/module_manager.cpp:1095-1125 | a run: a refused token has the exit announced, and mark and attempt are gone after |
| LoadRuns.TeardownIsRefused | src/logos_core/module_manager.cpp:1265-1285 | a run: a teardown that fails takes its mark back and the module runs on |
| LoadRuns.FleetOver | src/logos_core/module_manager.cpp:1699-1730 | a run: a fleet teardown, with a reset and without, ends with nothing loaded, marked or in flight |
| LoadRuns.OrderlyExitRecordedAsCrash | src/logos_core/module_manager.cpp:1058-1076 | a run of one load and one unload whose tail consumes the mark between the two sections of the callback: recorded as unloaded, and then as a crash |
| LoadProtocol.EveryUnloadIsRecordedOnce | src/logos_core/module_manager.cpp:1241-1310 | each unload that answers true has exactly one stopping-to-unloaded record, by the callback or by its own tail, and shares it with no other |
| LoadProtocol.AnsweredMeansDown | src/logos_core/module_manager.cpp:1265-1330 | when an unload answers true its module is not loaded |
| LoadProtocol.FleetDownMeansEmpty | src/logos_core/module_manager.cpp:1699-1730 | from the step of a fleet teardown that empties the loaded set until it has left, nothing is loaded |
| LoadProtocol.FleetAnnouncesAll | src/logos_core/module_manager.cpp:1699-1715 | a fleet teardown marks each module it found loaded, once, before it goes on |
| LoadProtocol.TheLocksExclude | src/logos_core/module_manager.cpp:40-66 | in every run the four locks exclude what they are for |
| LoadProtocol.OtherwiseFree | src/logos_core/module_manager.cpp:54-66 | only taking one of the four locks ever waits |
| LoadProtocol.ConfigMoves | src/logos_core/module_manager.cpp:62-88 | whoever waits for the configuration lock waits only for calls that are at it themselves, so a configuration call delivered inside a load never waits for that load |
| LoadProtocol.ModulesMove | src/logos_core/module_manager.cpp:1470-1550 | whatever a load, unload or cascade waits for inside the fleet lock, some thread can step |
| LoadProtocol.FleetMoves | src/logos_core/module_manager.cpp:1699-1753 | the same for a thread that waits for the fleet lock itself |
| LoadProtocol.SomeThreadCanStep | src/logos_core/module_manager.cpp:54-141 | no deadlock: while any call is unfinished some thread can step, even on reader-writer locks that let no reader pass a waiting writer |
| AccessRestrictions.CallersAreDeclaredDependents | src/logos_core/module_manager.cpp:573-611 | without an explicit entry, the callers are exactly the loaded modules that declare the target, required or optional, and the trusted names, each once |
| AccessRestrictions.UnnamedTargetsFollow | src/logos_core/module_manager.cpp:586-611 | a target an enforced policy does not name may be called by core, core_service and the loaded modules that declare it, and nobody else |
| AccessRestrictions.NamedTargetsTakeTheFirstEntry | src/logos_core/module_manager.cpp:577-583 | a target it names may be called by the callers of its first entry, word for word |
| AccessRestrictions.NeverRestricted | src/logos_core/module_manager.cpp:567-576 | capability_module, core and core_service are never restricted, and without a policy nobody is |
| AccessRestrictions.CallersAreInOrder | src/logos_core/module_manager.cpp:586-611 | the list keeps the order of required dependents, optional dependents and trusted names |
| AccessRestrictions.DerivedAllowedCallersFor | src/logos_core/module_manager.cpp:576-612 | the loops compute that list: nothing for exempt targets or without a policy, the first explicit entry verbatim, else the derived callers |
| AccessRestrictions.FlagsGather | src/logos_core/module_manager.cpp:599-608 | a list is a function of the flags read, one look-up a dependent |
| AccessRestrictions.SameCallersIffSameFlags | src/logos_core/module_manager.cpp:596-611 | a list allows the callers it should iff no dependent's loaded flag differs from the one it was derived from |
| AccessRestrictions.SameListIffSameFlags | src/logos_core/module_manager.cpp:596-611 | it is the very list, in order, when every flag it read still holds; and only then for a target no dependent declares twice or shares a trusted name |
| RestrictionProtocol.KeepsFlags | src/logos_core/module_manager.cpp:596-620 | every step keeps each list, under way, in a dial or registered, a function of the flags it read |
| RestrictionProtocol.KeepsCovered | src/logos_core/module_manager.cpp:622-640 | a covered target stays covered until its own push begins, whoever posts, delivers or resumes |
| RestrictionProtocol.KeepsQueue | src/logos_core/module_manager.cpp:1600-1608 | the push for everything loaded stands behind every push of the policy's own entries |
| RestrictionProtocol.FlipKeepsFine | src/logos_core/module_manager.cpp:622-629 | a module that comes or goes covers by its own refresh every target whose list depends on it |
| RestrictionProtocol.KeepsFine | src/logos_core/module_manager.cpp:550-640 | every step keeps a restricted target right or covered while no stale list for it lies in a dial |
| RestrictionProtocol.RunsKeepInv | src/logos_core/module_manager.cpp:550-640 | the invariant holds after every run: whatever was loaded or still to post when capability_module came up, flags read one by one, queued work delivered inside dials, before their list is registered or after |
| RestrictionProtocol.CapabilityStaysUp | src/logos_core/module_manager.cpp:613-617 | capability_module stays loaded in every run, so no refresh is skipped for want of it |
| RestrictionProtocol.AgreementIsInTheFlags | src/logos_core/module_manager.cpp:622-640 | in every run, nested or not: once all has drained, a loaded target allows exactly the derived callers iff no dependent's flag differs from the one behind its last registration; the list itself likewise |
| RestrictionProtocol.NamedTargetsAgree | src/logos_core/module_manager.cpp:550-569 | a target the policy names ends with the policy's list in every run |
| RestrictionProtocol.EntriesInOrder | src/logos_core/module_manager.cpp:563-570 | the policy is pushed entry for entry in its order, and never for an exempt target |
| RestrictionProtocol.EveryEntryIsRegistered | src/logos_core/module_manager.cpp:545-570 | every target the policy names is registered with its list in the end, loaded or not, whatever ran inside what |
| RestrictionProtocol.StaleTargetsAreCovered | src/logos_core/module_manager.cpp:622-640 | a restricted target that disagrees has a list under way, in a dial, queued or about to be queued, unless a stale one once lay in a dial |
| RestrictionProtocol.LostOnlyInADial | src/logos_core/module_manager.cpp:492-500 | a target that drains in disagreement had, at some moment, work in a suspended dial that would register another list than the one due |
| RestrictionProtocol.LostOnlyIfADependentTurned | src/logos_core/module_manager.cpp:492-500 | for a target that follows the loaded set: a finished list for it lay suspended in a dial while one of its dependents had come or gone since it was looked up |
| RestrictionProtocol.DrainedMeansAllAgree | src/logos_core/module_manager.cpp:622-640 | in particular, when nothing was ever delivered inside a dial, every restricted target has exactly the derived list once all has drained |
| RestrictionProtocol.DeathLeavesTheTableStale | src/logos_core/module_manager.cpp:1054-1077 | after an unexpected death the table still agrees iff no loaded target that follows the loaded set has the dead module among its dependents |
| RestrictionRuns.DeathCanLeaveTheTableStale | src/logos_core/module_manager.cpp:1054-1077 | a run of two modules, one requiring the other, after which a death breaks agreement |
| RestrictionRuns.NestedRefreshIsLost | src/logos_core/module_manager.cpp:492-500 | a run in which a refresh delivered inside another's dial is overwritten by a stale list, and everything drains in disagreement |
| RestrictionRuns.StartedInline | src/logos_core/module_manager.cpp:545-570 | a run: a start on the owner's own thread registers a target the policy names though it is not loaded |
| RestrictionRuns.GoneForGood | src/logos_core/module_manager.cpp:613-640 | a run: a dependent leaves, and the refresh takes it off the list |
| RestrictionRuns.BackInTime | src/logos_core/module_manager.cpp:613-640 | a run: it comes back while the refresh looks it up, and is listed |
| BareModuleGlue.ModuleGlue.EnableDeferredDispatch | src/logos_core/bare_module_glue.cpp:104-145 | deferral starts only from the inline state; a retired glue stays retired |
| BareModuleGlue.ModuleGlue.BeginCall | src/logos_core/bare_module_glue.cpp:277-315 | a deferred call is numbered, registered and posted in one step and answered with its number; otherwise nothing moves |
| BareModuleGlue.ModuleGlue.ClaimQueuedCall | src/logos_core/bare_module_glue.cpp:327-337 | true iff the call was queued, and its first entry is gone afterwards, the rest in order |
| BareModuleGlue.WithoutMiddle | src/logos_core/bare_module_glue.cpp:330-334 | erasing one entry keeps what stood before and after it |
| DispatchProtocol.ClaimTakesTheFront | src/logos_core/bare_module_glue.cpp:293-312 | what the worker claims is the head of the queue, or nothing once a stop has taken the queue |
| DispatchProtocol.KeepsPromises | src/logos_core/bare_module_glue.cpp:155-213 | every step of callers, worker, stopper and container keeps each promised completion in exactly one place |
| DispatchProtocol.RunsKeepInv | src/logos_core/bare_module_glue.cpp:155-345 | the whole invariant after every interleaving |
| DispatchProtocol.AtMostOneCompletion | src/logos_core/bare_module_glue.cpp:184-193 | no call is completed twice, and none that was never issued |
| DispatchProtocol.StoppedMeansAllAnswered | src/logos_core/bare_module_glue.cpp:155-213 | when a stop returns true every pending call has had its completion and the worker is gone |
| DispatchProtocol.TimedOutLeavesTheClaimed | src/logos_core/bare_module_glue.cpp:189-203 | when it returns false only what the worker had claimed is outstanding: one call, unless handlers nested |
| DispatchProtocol.CompletionsFollowIssueOrder | src/logos_core/bare_module_glue.cpp:293-315 | completions come in issue order until a stop times out or a dispatch runs inside another |
| DispatchProtocol.IssueOrderIffNeverNested | src/logos_core/bare_module_glue.cpp:104-116 | after a stop that never timed out, they came in issue order iff no dispatch ran inside another |
| DispatchProtocol.DispatchIsSerial | src/logos_core/bare_module_glue.cpp:293-315 | dispatches begin in issue order; one at a time for a glue deferred before its first call, while no handler lets another dispatch in |
| DispatchProtocol.OneAtATimeIffNeverNested | src/logos_core/bare_module_glue.cpp:104-116 | after a stop that returned true, for a glue deferred before its first call, no moment of the run had two dispatches in the image iff none was claimed inside another |
| DispatchProtocol.HandlersCanNest | src/logos_core/bare_module_glue.cpp:110-116 | a run of two calls in which both are inside the image at once |
| DispatchProtocol.NoLateEntry | src/logos_core/bare_module_glue.cpp:180-193 | after the stop has taken the queue, only a dispatch claimed before it can still begin |
| DispatchProtocol.DestroyedIsQuiet | src/logos_core/inproc_container.cpp:341-415 | terminate destroys a glue only with its worker gone and every promise kept |
| DispatchProtocol.SettledAsTheStopEnded | src/logos_core/inproc_container.cpp:358-410 | terminating ends with the glue destroyed iff its stop returned true, and abandoned iff it timed out |
| DispatchProtocol.EndsAreFinal | src/logos_core/inproc_container.cpp:358-410 | either end is final; a destroyed glue runs, promises and completes nothing any more |
| DispatchRuns.DestroyedInTheEnd | src/logos_core/inproc_container.cpp:358-410 | a run: two calls answered in order, a clean stop, and the glue destroyed |
| DispatchRuns.AnsweredAfterAll | src/logos_core/inproc_container.cpp:362-384 | a run: the stop times out and answers the queued call itself, the glue is left alone, and the handler's own answer still comes, once |
| WebCallRouter.OnlyOwnFramesMeans | src/logos_core/web_call_router.h:224-231 | the size test of the wait means: no other thread has a frame |
| WebCallRouter.Gate.Enter | src/logos_core/web_call_router.cpp:270-277 | a frame is recorded iff the gate is open |
| WebCallRouter.Gate.MayReturn | src/logos_core/web_call_router.h:228-231 | true iff no other thread is inside |
| WebCallRouter.SinkTable.OnSubscribe | src/logos_core/web_call_router.cpp:359-377 | the sink is recorded, last one wins, and a subscribe is posted iff the pair was not known |
| WebCallRouter.SinkTable.OnUnsubscribe | src/logos_core/web_call_router.cpp:417-429 | the pair goes, and an unsubscribe is posted iff it was known |
| WebCallRouter.SinkTable.Swap | src/logos_core/web_call_router.cpp:432-448 | the table is emptied and every pair in it handed out once |
| WebCallRouter.ArmingKeepsAccounts | src/logos_core/web_call_router.cpp:182-206 | a new id keeps every id accounted for: one it is stored over is lost |
| WebCallRouter.WithdrawingKeepsAccounts | src/logos_core/web_call_router.cpp:208-222 | an id moves from held to cancelled, or to lost when its client is not found, once |
| WebCallRouter.ArmingTwiceLosesAnId | src/logos_core/web_call_router.cpp:203-205 | the ids no pair holds and nothing cancelled are exactly those lost before and the one the pair held |
| WebCallRouter.LosesOnlyTheUnfound | src/logos_core/web_call_router.cpp:81-93 | withdrawing many pairs loses an id iff a pair that holds one has its client missing |
| WebCallRouter.LogosApiRoutes.Subscribe | src/logos_core/web_call_router.cpp:182-206 | the new state: a fresh id under the pair, or nothing when the client grants none |
| WebCallRouter.LogosApiRoutes.Unsubscribe | src/logos_core/web_call_router.cpp:208-222 | the new state: the pair's id forgotten, and cancelled iff the client is found |
| WebCallRouter.LogosApiRoutes.Destroy | src/logos_core/web_call_router.cpp:81-93 | afterwards every id ever handed out is cancelled or lost, exactly once; no more is lost iff every client is found |
| GateProtocol.RunningIsExact | src/logos_core/web_call_router.h:218-232 | the multiset holds one entry for each live frame of each thread, re-entry included |
| GateProtocol.DoneButRecorded | src/logos_core/web_call_router.cpp:270-296 | a run: work that is done stays recorded until its frame has left |
| GateProtocol.StopWaitsForOthersOnly | src/logos_core/web_call_router.cpp:256-264 | a stop can return iff no other thread has a frame |
| GateProtocol.NothingEntersAfterStop | src/logos_core/web_call_router.cpp:238-297 | once a stop has returned no other thread is inside, ever, and no work ever begins again |
| GateProtocol.StopCanReturnIff | src/logos_core/web_call_router.cpp:256-264 | in every reachable state, a stop under way can still return iff no two stops are made from inside the router's work |
| GateProtocol.StopCanReturn | src/logos_core/web_call_router.cpp:256-297 | the steps by which it does: everyone else finishes, a lone stop from inside returns and finishes, then the others return |
| GateProtocol.TwoStopsFromInsideNeverReturn | src/logos_core/web_call_router.cpp:256-264 | two stops from inside wait for each other for good |
| GateProtocol.TwoStopsFromInsideHappen | src/logos_core/web_call_router.cpp:256-264 | a run that comes to that: each of two units of work stops the router |
| SubscriptionProtocol.ClosingAlternates | src/logos_core/web_call_router.cpp:432-448 | the withdrawals of a closed connection are each for a pair that is requested |
| SubscriptionProtocol.KeepsInv | src/logos_core/web_call_router.cpp:359-448 | every message, post, delivery, answer and step of stop, nested or not, keeps the accounts and the table's agreement |
| SubscriptionProtocol.RunIsTimely | src/logos_core/web_call_router.cpp:379-415 | a subscribe only ever runs for a pair the host has not been asked for, an unsubscribe for one it has, whatever runs inside what |
| SubscriptionProtocol.PendingLeadsToTheTable | src/logos_core/web_call_router.cpp:359-448 | applying the pending operations to the host's requested subscriptions gives exactly the keys of the table |
| SubscriptionProtocol.OperationsAlternate | src/logos_core/web_call_router.cpp:359-448 | between two equal operations on a pair there is always the opposite one |
| SubscriptionProtocol.EveryIdIsCancelledOnce | src/logos_core/web_call_router.cpp:81-254 | no id is cancelled twice; once the routes are destroyed each has been cancelled, or lost, once |
| SubscriptionProtocol.NothingLostIffFound | src/logos_core/web_call_router.cpp:208-222 | every id ends cancelled exactly once iff the client that granted it was found whenever one was taken back and no id came for a pair that had one or for routes already gone |
| SubscriptionProtocol.LeftoversWereUnsubscribed | src/logos_core/web_call_router.cpp:238-254 | whatever stop leaves armed, also a stop from inside a subscribe, the page had unsubscribed itself, too late for the gate, or got its id too late; and whatever got it too late is left armed |
| SubscriptionProtocol.StoredTooLateIff | src/logos_core/web_call_router.cpp:196-206 | an id is stored too late exactly when its pair is no longer requested or stop has begun |
| SubscriptionRuns.WithdrawnWithThePage | src/logos_core/web_call_router.cpp:432-448 | a run: a page that goes away has its subscription withdrawn and its id cancelled |
| SubscriptionRuns.DroppedAfterStop | src/logos_core/web_call_router.cpp:238-275 | a run: stop withdraws, empties the table and closes the gate; what is posted after it is dropped in order |
| SubscriptionRuns.CancelledWithTheRoutes | src/logos_core/web_call_router.cpp:81-93 | a run: what stop left armed is cancelled when the routes are destroyed |
| SubscriptionProtocol.CalmRunsKeepTheTable | src/logos_core/web_call_router.cpp:182-254 | when nothing comes between a subscribe and its answer and nothing runs during stop, every id held is of a requested pair, nothing is lost iff every client was found, and stop leaves armed only what the page had unsubscribed |
| SubscriptionRuns.LostWithItsClient | src/logos_core/web_call_router.cpp:208-222 | a run in which an id is forgotten uncancelled because its client is gone |
| SubscriptionRuns.LostToALaterOne | src/logos_core/web_call_router.cpp:182-206 | a run in which a subscribe delivered inside another of its pair has its id overwritten |
| SubscriptionRuns.LeftArmedByStop | src/logos_core/web_call_router.cpp:238-267 | a run in which stop comes inside a subscribe, and the id it is then granted stays armed though the page never unsubscribed |
| WebContainer.Container.Retire | src/logos_core/web_container.cpp:407-460 | nothing for an absent name; else out of the table, told to give up its calls when lost, parked iff its glue still reports a wait then, torn down otherwise, announced either way |
| WebContainer.Container.LiftReady | src/logos_core/web_container.cpp:535-550 | in place: exactly those whose glue reports no wait are lifted out, both halves in order |
| WebContainer.Container.SweepRetired | src/logos_core/web_container.cpp:535-554 | exactly those are torn down, and another sweep is asked for iff some are left |
| WebContainer.SweepSharesOut | src/logos_core/web_container.cpp:535-550 | the two halves of a sweep share out the parked instances |
| WebContainer.SweepKeepsOrder | src/logos_core/web_container.cpp:535-550 | each half in the order of the park |
| RetirementProtocol.KeepsPlace | src/logos_core/web_container.cpp:407-554 | every step keeps each instance in exactly one of table, retirement, park, sweep and scrap |
| RetirementProtocol.RunsKeepInv | src/logos_core/web_container.cpp:407-612 | the whole invariant after every interleaving of launches, deaths, unloads, sweeps and calls |
| RetirementProtocol.InstancesAreConserved | src/logos_core/web_container.cpp:407-554 | between the main thread's steps every instance ever published is live, parked or torn down, only one of them, and announced iff not live |
| RetirementProtocol.AnnouncedAndTornDownOnce | src/logos_core/web_container.cpp:402-458 | however many deaths and unloads race, an instance is announced and torn down at most once |
| RetirementProtocol.LostPagesOutliveTheirWaits | src/logos_core/web_container.cpp:426-443 | a lost page is never destroyed, by its retirement or a sweep, while a call waits in it on the Qt main thread, calls that begin while it is parked included; and those calls were told to give up first |
| RetirementProtocol.DestroyedUnderACallIff | src/logos_core/web_container.cpp:426-443 | in every reachable state the step that destroys a lost page does so under a call iff a call then holds the glue on another thread, which the counter does not see |
| RetirementProtocol.CallsOnTheQtThreadAreSafe | src/logos_core/web_module_glue.cpp:88-147 | in runs whose calls are all made on the Qt main thread no lost page is destroyed under any |
| RetirementRuns.LostPageDestroyedUnderACall | src/logos_core/web_container.cpp:304-398 | a run: the page dies while another thread asks it whether it serves yet, and is destroyed under that call |
| RetirementRuns.TornDownByASweep | src/logos_core/web_container.cpp:426-554 | a run: a page dies with calls inside, is parked and announced, takes another call, and goes in the first sweep after the last one is over |
| RetirementProtocol.RetireIsTheseSteps | src/logos_core/web_container.cpp:420-460 | the protocol's steps for one retirement do to table, park, teardowns, announcements and abandoned calls what the retiring method does |
| RetirementProtocol.SweepIsTheseSteps | src/logos_core/web_container.cpp:535-554 | and a sweep with its teardowns what the sweeping method does |
| RetirementProtocol.SweepTakesTheRest | src/logos_core/web_container.cpp:535-554 | a sweep leaves parked exactly those the glue's counter still reports, whatever calls block other threads |

## Left out

- `DependencyResolver.Resolve`: log lines are not modelled.
- `DependencyResolver.WalkRequired`: says which names are missing, not how often each is listed, because the code may list one twice.
- `RestrictionProtocol.RunsKeepInv`: a registration that fails or is refused is not modelled: a dial may deliver queued work before and after its list is registered, and it succeeds.
- `RestrictionProtocol.AgreementIsInTheFlags`: takes the policy and the declared edges as fixed, and modules as leaving only by orderly unload; the death case is `DeathLeavesTheTableStale`. The order of a list, as against who is on it, is settled in both directions only for a target that no module declares both required and optional and none named like a trusted caller.
- `RestrictionProtocol.NamedTargetsAgree`: for a policy with one entry a target, which a parsed policy has because its entries are the keys of an object.
- `RestrictionProtocol.DeathLeavesTheTableStale`: for a dead module that is not itself named like a trusted caller, which stays on every list either way.
- `LoadProtocol.EveryUnloadIsRecordedOnce`: traces a record to the announcement it consumed; consuming a mark and recording it are one step.
- `LoadProtocol.SomeThreadCanStep`: a configuration call delivered inside a load's dial runs under an id of its own, and that the load beneath stands still meanwhile is not part of the state (`ConfigMoves` says it never waits for it); a child start, a verdict and a teardown are taken to come back; their own timeouts are not modelled.
- `LoadProtocol.RunsKeepInv`: why a load or teardown is refused (policy, protocol and version gates, missing loader or entry) is left to chance; a refusal may happen wherever the code has one.
- `DispatchProtocol.DestroyedIsQuiet`: the listener is taken to stay attached while the glue is published, and `aboutToUnload` has no effect of its own.
- `DispatchProtocol.NoLateEntry`: claiming, entering the image and answering are separate steps, so a dispatch claimed before the stop took the queue may still enter after it.
- `SubscriptionProtocol.EveryIdIsCancelledOnce`: delivery and posting are one thread; an id that comes for routes already destroyed counts as lost, where the code writes into a destroyed object. Whether the client turns the event loop inside a subscribe is for its library to say, which is not part of this model.
- `SubscriptionProtocol.LeftoversWereUnsubscribed`: steps of stop may come between any others, so stops from inside a subscribe and from another thread are both among the runs; `GateProtocol` says what a stop waits for.
- `RetirementProtocol.LostPagesOutliveTheirWaits`: promises nothing for calls that hold the glue on another thread, because the code destroys a lost page under them (`DestroyedUnderACallIff`). Counted calls may begin as long as the page is published, but not between the check that condemns it and its teardown on the same thread; a deliberate unload tears down whatever waits, as the code does.
- `RetirementProtocol.DestroyedUnderACallIff`: a call is inside from the moment its thread takes the glue.
- `RetirementProtocol.InstancesAreConserved`: a launch enters the table in one step; loads of one name are serialised before it.
- `ModuleRegistry.Registry.Discover`: takes the packages a scan found, already validated, as its input; the publish watch fields of an entry are left out.
- The container's process-exit destructors, which drop the park and abandon guarantees on purpose.
- Tokens, JSON, the Qt event loop itself, webviews, transports and the operating system's processes: environment.
- `policyFromEnvironment`, the dependency and protocol gates, the state observer's queue, resource usage, the loader registry and the C interface: easy members.
