# Verified model of the module orchestrator

This project models, in Dafny, the three stateful parts of the `appmod` package and proves what they promise.

* **The manager** (`manager.go`): registration, the layered topological sort `plan`, `Start` with its rollback, and the
  resumable `Stop`. It is modelled twice. `Management.Manager` is the object itself: fields updated in place, and the loops
  of `plan`, `stopLayers`, `forget`, `startLayer` and `stopLayer`, each proved against a specification function of the
  dependency graph. `Orchestration` is the same protocol as a step relation for any number of concurrent callers: one step
  per critical section, and separate steps for the beginning and the end of every `Init` and `Destroy`. Both are
  written with the same functions `PlanOf`, `StopLayersOf`, `Without` and the same guard `Claimable`, and `Simulation` proves
  that whatever a call of the object's `Start` or `Stop` does, a run of the step relation does.
* **The module** (`base.go`): the six-state lifecycle, hook phases, and the compensation list. Again twice:
  `BaseModule.BaseAppModule` is the object with the loops of `runPhase`, `runCleanups` and `Perform`; `Lifecycle` and
  `Accounts` are the step relation for concurrent callers of `Init`, `Destroy`, `AddHook`, `RemoveHook` and `AddCleanup`.
* **The registry** (`registry.go`), as the map shared by a provider and its consumers, composed with the manager's runs in
  `Providers`.

The modules build on each other in this order: `Basics`, `Graphs` (names, order, chains), `Planning` (what `plan`
computes), `Teardown` (what `stopLayers` computes and which lists are safe), `PlanLoop` (the loops of `plan` on values),
`Outcomes` (what `Start` and `Stop` report), `Management`, `ManagerLaws`, `Orchestration`, `RunSafety`, `Attempts` (failed and
refused starts in runs), `LayerRuns` (one layer in runs), `Discipline` (what `Stop` needs of its callers, and why),
`Simulation`; `Hooks`, `BaseModule`, `Lifecycle`,
`Accounts`; `Services`, `Providers`, `Provision` (a run in which a provider is used).

## Main results

1. **Ordering over whole runs.** In every run, with any interleaving inside layers and any sequence of registrations,
   starts, failed starts, cut-short stops and resumed stops, `Init` of a module begins only after the last thing that
   happened to each module it transitively depends on was a successful `Init`, and `Destroy` begins only when everything
   that transitively depends on it is down (`RunSafety.InitAfterDependencies`, `RunSafety.DestroyAfterDependents`).
2. **`plan` is exact.** It succeeds if and only if every dependency is registered and there is no closed dependency path; a
   reported cycle exists among the unprocessed modules; a module's layer index is the length of its longest dependency
   chain; no valid layering is shorter; the answer is the unique exact layering, hence independent of map iteration order.
3. **Teardown is safe, complete and resumable** in both branches of `stopLayers`, also after an aborted teardown and after
   registrations that make the graph unplannable.
4. **A failed start is compensated exactly**: one `Destroy` for each module whose `Init` returned nil, none for any other, in
   every run and whatever others register meanwhile. A refused start is invisible to everybody else.
5. **The lifecycle is exclusive** and its history is a path of the diagram; a transition is claimed exactly when nobody
   owns one and the state allows it; every cleanup is executed once, in reverse, taken by the running teardown, or pending;
   nothing is held in `Created`, `Destroyed` or `Failed`.
6. **A consumer always finds its provider** from the beginning of its `Init` until its `Destroy` returns: the manager's runs,
   the provider's own lifecycle and the registry composed.

## Assumptions and abstractions

* One assumption on callers of `Stop` is needed for the run properties, and `Orchestration.Disciplined` states it: when an
  external `Stop` enters, no `Start` or `Stop` has anything left to do but return. That is, it does not enter during a
  `Start`, and two `Stop`s do not overlap. Nothing is assumed of `Start` or `Register`. For non-reentrancy the condition is
  exact (`Discipline.DisciplineIsExact`): whatever reachable state a `Stop` enters in, its continuations keep to one call at
  work if and only if no call has work left then. What goes wrong otherwise is shown by runs in which a single `Stop` is ill
  timed: entering during a `Start` it destroys a dependency beneath its dependent's `Init` (`StopDuringStartBreaksOrder`) or
  lets a second `Start` claim the manager beside the first (`StopDuringStartAdmitsAnother`); overlapping another `Stop` it
  lets a `Start` claim the manager beside a `Destroy` still running (`OverlappingStopsAdmitStart`). The causes are that `Stop` overwrites the state unconditionally (`manager.go:347`) and that `forget` runs
  even when `Destroy` was refused (`manager.go:454-456`).
* A module whose `Destroy` failed is forgotten although it may be running again (`base.go:323-326`). Teardown facts are
  therefore stated as "`Destroy` was called and has returned", never as "the module is down".
* The functions on values describe `Init` and `Destroy` by their answers (`Answers`): one answer per module and call of
  `Start` or `Stop`, arbitrary otherwise. The step relation lets every call answer freely.
* A context is the number of checks for which it stays live, and is cancelled for good afterwards; in the step relations a
  check may see it cancelled at any time. An error is its identity; a panic is an answer of its own. `errors.Join` is
  concatenation of sequences. Registry contracts and implementations are opaque keys and values.
* Hook and cleanup bodies are the list of what they add to their module plus an answer. In the step relation they may do
  anything a concurrent caller may do.
* Names are compared by code point, which for UTF-8 is the byte order of the original.

Where the repository's prose and its code differ, the model follows the code:

* `base.go:45-46` says a module initialized again starts with an empty cleanup list. `AddCleanup` is legal in every state,
  so it need not: `Accounts.InitMayStartWithCleanups` is a run, and `Accounts.EmptyListAtInit` says exactly when it does: if
  and only if nothing has been registered since a teardown last took the list.
* `Readme.md:124` says teardown hooks always observe `StateDestroying`. `AfterDestroy` hooks run after `StateDestroyed` is
  published and can overlap a new `Init` (`base.go:334-339`): `Accounts.AfterDestroyMayOverlapInit` is a run,
  `Accounts.BodiesObserve` says what each kind of body does observe, and `Accounts.AfterDestroyObserves` until when it is
  `StateDestroyed`.
* `base.go:203-206` says `Init` fails when the context is cancelled. It is only looked at before each hook:
  `BaseModule.StartsIff` gives the exact condition, and by `BaseModule.CancelledStart` a module without start hooks starts
  under a context that was cancelled all along.
* `Readme.md:401-405` describes `Revoke` as returning a plain `bool`; it returns `(bool, error)` (`registry.go:123`).

## Model

| member | source | states |
|---|---|---|
| Planning.PlanDecides | manager.go:617-683 | `plan` reports an unknown dependency iff some entry names an unregistered module, a cycle iff all are registered and a closed dependency path exists, and layers iff neither is the case |
| Planning.CycleInResidue | manager.go:642-665 | whenever `processed` falls short there is a closed dependency path consisting of modules that were never processed |
| Planning.PlanExact | manager.go:634-661 | layer i holds exactly the modules whose longest dependency chain has i steps, ascending, and no module is missing |
| Planning.ExactLayeringUnique | manager.go:634-661 | two exact layerings of a graph are equal, so no trace of the map iteration order survives |
| Planning.PlanIffExact | manager.go:611-668 | on a graph without unknown dependencies `plan` returns given layers iff they are an exact layering |
| Planning.PlanMisses | manager.go:672-683 | `plan` answers unknown dependency iff some module has an entry that is not registered |
| Planning.PlanStuck | manager.go:664-666 | when it answers cycle there are modules, at least one, each of which depends on another of them |
| Planning.PlanPlaces | manager.go:634-661 | when it answers layers, none is empty, every module has one place in them and no other name has any, and every dependency lies in an earlier layer |
| Planning.PlanTight | manager.go:646-661 | every module behind the first layer depends on one of the layer just before |
| Planning.PlanAscends | manager.go:634-661 | of two names in a layer the earlier is a prefix of the later or has the smaller character where they first differ |
| Graphs.LessMeans | manager.go:640-659 | the order of names: a before b iff a is a proper prefix of b or has the smaller character at the first difference |
| Graphs.ReachesMeans | manager.go:611-613 | transitive dependency, as the run properties use it: a module reaches a registered one iff it declares it or declares one that reaches it |
| Planning.PlanMinimal | manager.go:625-661 | no assignment of ranks that puts dependencies strictly lower uses fewer ranks than the plan has layers |
| Planning.PlanOrders | manager.go:611-613 | every dependency of a module lies in a strictly earlier layer |
| Planning.PlanStable | manager.go:164-181 | after further registrations that keep the graph plannable every old module keeps its layer, in the same order inside it |
| Planning.DoneIffShort | manager.go:646-661 | after k rounds the processed modules are those all of whose dependency chains have at most k modules |
| PlanLoop.Release | manager.go:652-657 | the inner loop lowers an in-degree once per dependency entry, duplicates included, and queues each module exactly once, when it reaches zero |
| PlanLoop.Advance | manager.go:649-658 | one round leaves the in-degrees of the larger finished set and queues exactly the modules that became ready |
| Management.Manager.constructor | manager.go:35-39 | a new manager has no modules, nothing started, and is in the created state |
| Management.Manager.Register | manager.go:164-181 | the three refusals in order and without effect; otherwise the module is added, all old dependency lists unchanged, and `started` stays sound |
| Management.Manager.ValidateDeps | manager.go:672-683 | one error per dependency entry that names an unregistered module, as a multiset; none iff the graph is closed |
| Management.Manager.CountDependencies | manager.go:625-632 | in-degrees count dependency entries, and the dependents map is the exact transpose of the dependency lists with multiplicity |
| Management.Manager.Peel | manager.go:642-667 | the loop yields the layers and the processed count on which the verdict about cycles rests |
| Management.Manager.Plan | manager.go:617-668 | fails with unknown dependency iff the graph is not closed, with a cycle iff closed and cyclic, and otherwise returns the exact layering |
| Management.Manager.StopLayers | manager.go:382-425 | the loops compute the reversed plan cut down to the started modules, or reverse start order, then the defensive tail |
| Management.Manager.ReverseLayers | manager.go:403-414 | walking the layers backwards and deleting from `pending` gives the layers restricted to the started set, and `pending` ends as what the plan does not mention |
| Management.Manager.Forget | manager.go:471-476 | every occurrence of the name is removed and the order of the rest is kept |
| Management.Manager.BeginStart | manager.go:229-244 | claims the manager iff the state is created or stopped and nothing is started, so starting and running refuse whatever is started; a refusal changes nothing |
| Management.Manager.StartLayer | manager.go:274-309 | whatever order the goroutines finish in, `started` grows by a permutation of exactly the modules whose `Init` succeeded, each module is called once, and the errors are exactly the failures |
| Management.Manager.StopLayer | manager.go:429-462 | whatever order the goroutines finish in, each registered module of the layer gets one `Destroy`, the errors come in layer order, and `started` loses exactly the layer |
| Management.Manager.Stop | manager.go:338-373 | destroys and forgets the first k teardown layers of the graph as stopLayers finds it, others having registered since the snapshot, k being how many checks the context survives; returns their failures in order, then the abort error iff k falls short |
| Management.Manager.Abort | manager.go:314-320 | rolls a blocked start back completely under an uncancellable context, plannable graph or not, keeping the cause and adding every teardown failure |
| Management.Manager.Start | manager.go:199-224 | which of the four outcomes occurs, exactly when, and for each one the state, `started`, the calls made and the errors, with others registering modules between plan and the end of the attempt; observers are told of a shutdown iff the attempt was rolled back |
| Management.AdmittedMeans | manager.go:164-181 | of entries offered one after the other, registered modules stay as they are and for any other name the first complete entry wins |
| ManagerLaws.CompensatedExactly | manager.go:199-224 | after a failed start each module whose `Init` returned nil in that attempt got exactly one `Destroy`, no other got any, and the error lists every failed `Destroy`, whatever graph the rollback met |
| ManagerLaws.CausesExactly | manager.go:274-309 | unless the context was the cause, the reported causes are exactly the `Init` calls of the attempt that failed |
| ManagerLaws.StartSucceedsIff | manager.go:199-224 | a start is refused iff the state is neither created nor stopped or something is started, and then changes nothing; without a plan it reports why, calls nobody and leaves the manager stopped; otherwise it succeeds iff the context survives one check a layer and every module's `Init` answers nil |
| ManagerLaws.StartedMeans | manager.go:221-223 | a start that succeeded called `Init` once on every module and destroyed none, and `started` lists all modules in the order they came up |
| ManagerLaws.RejectedMeans | manager.go:212-219 | a start that was rolled back stopped at layer k, over the context or over modules of that layer, reported once each; up to there each module got one `Init`, and those that came up got one `Destroy` each |
| ManagerLaws.FailuresReport | manager.go:448-461 | failures are listed once for each name that failed, in the order of the names, with that name's error |
| ManagerLaws.StopMeans | manager.go:359-373 | by position: the k-th error of a `Stop` is that of the k-th failing module of the flattened teardown; there are as many as calls that answered an error, no two alike, and then the abort error iff a layer is left |
| ManagerLaws.RollbackMeans | manager.go:314-320 | the same of a rollback, which is never cut short |
| ManagerLaws.CallsFollowLayers | manager.go:212-219 | the calls of a start or a stop follow the layers: no call into a layer comes after one into a later layer |
| ManagerLaws.OneInstalment | manager.go:338-373 | one `Stop` splits `started` into the modules it destroyed, once each, and those it left; the abort error is absent iff nothing is left |
| ManagerLaws.StopsAddUp | manager.go:325-330 | any number of cut-short stops followed by one that completes destroys each started module exactly once and leaves none |
| ManagerLaws.StopsProgress | manager.go:332-336 | the calls of any number of cut-short stops go layer by layer through the first k teardown layers of the first of them, and what is left to do are the other layers |
| ManagerLaws.StopsIssueOnePlan | manager.go:338-373 | once nothing is left, the calls the stops made, put together, go layer by layer through the teardown of one uninterrupted stop |
| Outcomes.CompactFailures | manager.go:432-461 | dropping the nil slots leaves the failures of the registered modules in layer order |
| Outcomes.CoversOnce | manager.go:212-219 | going through disjoint layers one by one, in any order inside each, calls every module of the layers exactly once |
| Teardown.SoundMeans | manager.go:300-302 | the recursive invariant of `started` says: no duplicates, registered, and every module after all its dependencies |
| Teardown.SoundStable | manager.go:164-181 | registering more modules never invalidates `started` |
| Teardown.SoundGrows | manager.go:300-302 | appending the successful modules of a layer in any completion order keeps `started` sound |
| Teardown.SoundWithout | manager.go:471-476 | forgetting modules together with all started dependents keeps `started` sound, in any order of forgetting |
| Teardown.StopLayersSafe | manager.go:382-425 | in both branches the flattened teardown is a permutation of `started`, dependents come strictly before dependencies, and the defensive tail is empty |
| Teardown.StopLayersPlanned | manager.go:399-414 | with a plan, the i-th teardown layer is the started part of a plan layer, ascending, and the plan layers are visited from last to first, skipping those without started modules |
| Teardown.StopLayersUnplanned | manager.go:383-395 | without one, the i-th teardown layer is the i-th module from the end of `started` |
| Teardown.SerialFalls | manager.go:383-395 | reverse start order is a safe teardown of any sound list, plannable graph or not |
| Teardown.FallsTransitively | manager.go:375-378 | in a safe teardown a dependent lies strictly before everything it reaches, however long the chain |
| Teardown.ResumesAfter | manager.go:332-336 | what remains after k layers have been forgotten is sound, and the next `Stop` computes exactly the remaining layers |
| Teardown.ResumedTeardown | manager.go:338-373 | stops cut short after any numbers of layers, then one that completes, issue the layers of one uninterrupted stop |
| Teardown.FallbackAfterAbort | manager.go:379-395 | if the graph becomes unplannable after a teardown was cut short anywhere, the serial fallback on what is left is still safe |
| Teardown.StopLayersStable | manager.go:382-414 | registrations that keep the graph plannable do not change the teardown of the modules already started |
| Teardown.StopMirrorsStart | manager.go:344-348 | with everything of the starting graph up, `Stop` walks exactly the layers `Start` used, in reverse, even after more registrations |
| Orchestration.StepKeeps | manager.go:199-476 | every step of every caller keeps the invariant tying `started`, the state, the call in progress and what the modules have seen |
| Orchestration.CoreCoherent | manager.go:199-476 | in a state satisfying the invariant, a module not at rest has every dependency up |
| Orchestration.EmptyMeansIdle | manager.go:229-244 | outside starting, `started` is empty only when no call has module calls left to make |
| Orchestration.FallingCallKeeps | manager.go:449-456 | a `Destroy` that begins or returns inside a layer keeps the invariant, whatever the other goroutines of the layer are doing |
| Orchestration.AppendKeeps | manager.go:288-302 | a goroutine that lists its module, or does not because `Init` failed, keeps the invariant in any completion order |
| Orchestration.DropKeeps | manager.go:454-456 | a goroutine that forgets its module keeps the invariant in any order, and the last one ends the teardown |
| Orchestration.NobodyWaits | manager.go:274-309 | a call of `Start` or `Stop` has a next step until it has returned, and so has every goroutine of a layer, wherever the others are; a layer is joined iff all of them are through |
| RunSafety.InitAfterDependencies | manager.go:212-219 | in every reachable run the last event of each transitive dependency before `Init` begins is its successful `Init` |
| RunSafety.DestroyAfterDependents | manager.go:359-370 | in every reachable run each transitive dependent of a module whose `Destroy` begins never ran, failed to start, or has had its `Destroy` return |
| RunSafety.CallsAlternate | manager.go:274-309 | calls into one module alternate: exactly one `Destroy` between a successful `Init` and the next `Init`, and none otherwise |
| RunSafety.StartedStaysSound | manager.go:300-302 | in every reachable state `started` is duplicate-free, registered, dependency-closed and topologically ordered |
| RunSafety.OneCallAtWork | manager.go:229-244 | in every reachable state at most one call of `Start` or `Stop` has anything left to do |
| RunSafety.ClaimFindsRest | manager.go:229-244 | a start that claims the manager finds no other call at work and every module at rest |
| RunSafety.RunningRefusesStart | manager.go:233-236 | in every run, after a start has succeeded and as long as nobody calls `Stop`, the manager is running and every `Start` is refused and changes nothing |
| Attempts.RefusedStartIsHarmless | manager.go:191-196 | a refused start never takes another step, and every continuation of the run is also one without it, with the same effect on modules, list and state |
| RunSafety.NoMissingNode | manager.go:438-443 | the nil-node branch of `stopLayer` is unreachable |
| LayerRuns.LayerComesUp | manager.go:274-309 | in every run, however the goroutines of a start layer interleave with each other and with other callers: at the join `started` has grown by exactly the modules whose `Init` answered nil, once each, and the start goes on iff all did |
| LayerRuns.LayerGoesDown | manager.go:429-462 | in every run, however the goroutines of a teardown layer interleave with each other and with other callers: when the last drops its module `started` has lost exactly the layer in its old order, and each outcome is what that `Destroy` answered |
| RunSafety.RollbackRestores | manager.go:314-320 | when a rollback ends the manager can be started again and every module is at rest |
| Attempts.RollbackCompensates | manager.go:199-224 | in every run, between the claim of a start and the end of its rollback each module is destroyed as often as its `Init` succeeded, which is at most once, and every `Destroy` has returned, whatever is registered meanwhile |
| Discipline.DisciplineIsExact | manager.go:191-196 | in every reachable state: the runs that go on from a `Stop` entering there keep to one call at work iff no call has work left when it enters |
| Discipline.StopDuringStartAdmitsAnother | manager.go:345-348 | a reachable state inside a `Start`, a `Stop` entering there, and a continuation in which a second `Start` holds its claim beside the first one's `Init` |
| Discipline.StopDuringStartBreaksOrder | manager.go:345-348 | a reachable state inside a `Start`, a `Stop` entering there, and a continuation in which a dependency is being destroyed while its dependent's `Init` is in flight |
| Discipline.OverlappingStopsAdmitStart | manager.go:449-456 | a reachable state inside a `Stop`, a second `Stop` entering there, and a continuation in which a `Start` holds its claim while the first one's `Destroy` is still running |
| Simulation.StopIsRun | manager.go:338-373 | what a well-timed call of the object's `Stop` does, registrations by others included, is done by a run of the step relation: same list, same state, same calls in the same order |
| Simulation.StartIsRun | manager.go:199-320 | what a call of the object's `Start` does in each of its four outcomes, rollback and registrations by others included, is done by a run of the step relation: same list, same state, same calls in the same order |
| Hooks.OrderIsStable | base.go:422-429 | `orderHooks` returns a list sorted by priority that keeps registration order within each priority |
| Hooks.OrderPermutes | base.go:422-429 | by position: `orderHooks` returns a rearrangement of its list with priorities ascending, equal ones in registration order |
| Hooks.StableSortUnique | base.go:416-421 | there is only one stable sort of a list of hooks |
| Hooks.RemoveCommutes | base.go:482-501 | removing hooks by name before or after sorting gives the same list |
| Hooks.RemoveConcat | base.go:482-501 | removal goes hook by hook and keeps the order of the rest |
| Hooks.PhaseMeans | base.go:366-380 | the bodies that ran are those of a prefix of the sorted hooks, nil bodies skipped; the phase ends at the first failing hook with its position in the sort, at the first check that sees the context cancelled, or at the end |
| Hooks.PhaseSucceeds | base.go:366-380 | a phase ends without error iff none of its hooks fails and the context survives one check for each, and then every body has run |
| BaseModule.BaseAppModule.AddHook | base.go:459-467 | the hook goes to the end of its phase's list and no other list changes |
| BaseModule.BaseAppModule.RemoveHook | base.go:482-501 | removes every hook of that name from the one phase, reports whether there was one, never removes anonymous hooks, and commutes with the sort |
| BaseModule.BaseAppModule.AddCleanup | base.go:56-65 | appends the cleanup in any state, ignoring nil |
| BaseModule.BaseAppModule.RunPhase | base.go:366-380 | runs the bodies the phase prescribes, with all they add to the module, and reports its error |
| BaseModule.BaseAppModule.RunCleanups | base.go:70-84 | takes the whole list, runs every cleanup despite errors and panics, the one registered k-th running k-th from the end, reports each failure under its registration position, and keeps what cleanups add for later |
| BaseModule.BaseAppModule.Init | base.go:216-254 | refused iff initializing, running or destroying; otherwise both phases run, the second including hooks the first one added, and either the module runs or it has been unwound and is failed; it succeeds iff no start hook fails and the context survives one check for each |
| BaseModule.StartsIff | base.go:233-249 | for every module and context, both phases go through iff no hook fails in either list, hooks added by BeforeStart bodies included, and the context survives one check for each hook |
| BaseModule.CancelledStart | base.go:200-206 | under a context cancelled beforehand a start succeeds iff the module has no start hooks at all |
| BaseModule.EveryHookAnswered | base.go:233-249 | when a start goes through, every hook of either phase that has a body ran it and it answered nil |
| BaseModule.InitAgain | base.go:188-191 | after an `Init` that failed, the next one is never refused and succeeds iff no hook fails and the context survives one check for each |
| BaseModule.UnwindsMeans | base.go:258-271 | by position, for a failed `Init`: every cleanup that was there before it or was added by one of its bodies has run under the destroying state, last registered first, and the errors are exactly the failing ones of those |
| BaseModule.TearsDownMeans | base.go:321-345 | by position, for a `Destroy` past its first phase: the same of every cleanup there was before it or that a BeforeDestroy body added, between the bodies of the two phases, of which the second observe destroyed |
| BaseModule.BatchIsThrough | base.go:329-337 | before the AfterDestroy phase its hooks are those there were and those that bodies and cleanups have added since, and what is pending is what the cleanups have added |
| BaseModule.AfterDestroyMeans | base.go:339-345 | then all of these hooks run, sorted, under what is left of the context and observing destroyed, their error is reported, and nothing pending is run |
| BaseModule.CleanupErrorsMean | base.go:70-84 | the errors of a batch are exactly its failing cleanups, once each, under their registration position, in the order they ran |
| BaseModule.BaseAppModule.FailInit | base.go:258-271 | the rollback runs every cleanup that is pending after the bodies have run, and no hooks, and ends failed; what that means by position is `UnwindsMeans` |
| BaseModule.BaseAppModule.Destroy | base.go:309-351 | refused unless running; a failed BeforeDestroy phase runs no cleanup and leaves the module running; otherwise the pending cleanups, then destroyed, then AfterDestroy; what that means by position is `TearsDownMeans` |
| Accounts.OneOwner | base.go:216-227 | the module is initializing or destroying iff one call owns the transition, and no two calls ever do |
| Accounts.OnlyOwnerWrites | base.go:353-359 | a step that changes the state is the owner's, or a claim from a state that allows it |
| Accounts.HistoryIsLawful | state.go:15-28 | every history is a path of the lifecycle diagram; a failed start goes through destroying to failed, a teardown ends destroyed or back in running |
| Accounts.InitClaims | base.go:216-227 | in every reachable state a new caller of `Init` claims the module iff no call owns a transition and it is not running, that is, iff it is created, destroyed or failed; it then has the sorted BeforeStart hooks ahead, and a refusal leaves no trace |
| Accounts.DestroyClaims | base.go:309-318 | in every reachable state a new caller of `Destroy` claims the module iff it is running |
| Accounts.PhasesGoOn | base.go:366-380 | in every reachable state a call in a phase can go on; it may see its context cancelled before any hook and only there, and a body may answer either way |
| Accounts.UnwindingsGoOn | base.go:70-84 | in every reachable state a teardown can go on through its batch whatever the cleanups answer and whatever has been registered since, and ends destroyed with the sorted AfterDestroy hooks ahead, or failed |
| Accounts.CallsGoOn | base.go:243-266 | where a call goes between its phases: an `Init` to the AfterStart hooks there are by then, sorted, or through destroying to its batch; a teardown takes the whole list as its batch; a rejected `Destroy` returns to running |
| Accounts.RetryAfterFailure | base.go:188-191 | a run in which a module whose start failed is initialized again |
| Accounts.CleanupsAreConserved | base.go:56-84 | every registered cleanup is in exactly one place: executed, taken by the running teardown, or pending |
| Accounts.CleanupsRunOnce | base.go:42-46 | no cleanup is executed twice and none that was not registered |
| Accounts.BatchRunsInReverse | base.go:70-84 | the executed part of a batch is its upper end in falling order, and cleanups added meanwhile are numbered after it and stay pending |
| Accounts.NothingHeldAtRest | base.go:203-215 | with a release registered per acquisition, nothing is held in created, destroyed or failed, over any number of restarts |
| Accounts.HeldWhileRunningIsPending | base.go:48-52 | whatever a running module holds has its release in the pending list |
| Accounts.BeforeDestroyReleasesNothing | base.go:323-327 | during a BeforeDestroy phase, and when it fails, no cleanup runs and nothing is released; a failed one returns to running |
| Accounts.EmptyListAtInit | base.go:42-46 | the list an `Init` starts with is empty iff the run has registered no cleanup since a teardown last took the list |
| Accounts.InitMayStartWithCleanups | base.go:42-46 | a reachable state in which a destroyed module has pending cleanups that its next `Init` starts with |
| Accounts.BodiesObserve | base.go:259-263 | start hooks observe initializing, BeforeDestroy hooks and cleanups destroying, AfterDestroy hooks a transition iff another caller owns one |
| Accounts.AfterDestroyObserves | base.go:334-339 | from the step that opens an AfterDestroy phase its hooks observe destroyed until some caller of `Init` claims the module, and the state has changed in between iff one did |
| Accounts.AfterDestroyMayOverlapInit | base.go:334-339 | a run in which an AfterDestroy hook executes while a new `Init` has the module initializing |
| Accounts.StepKeeps | base.go:216-351 | every step of every caller keeps exclusivity, conservation and the balance of resources |
| Services.Provide | registry.go:47-66 | the three refusals in order and without effect; otherwise exactly that contract is added |
| Services.Require | registry.go:76-98 | the implementation provided for the contract, or the error that says why there is none |
| Services.Revoke | registry.go:123-139 | reports whether the contract was there, and afterwards exactly that contract is gone |
| Providers.PassedOnlyByAnswer | base.go:226-249 | the offering hook comes to lie behind an `Init`, or the `Init` to answer nil, only by a step in which the hook's body answers nil |
| Providers.UpMeansProvided | registry.go:24-26 | in every run, while the provider's last event is its successful `Init`, the contract leads to its implementation |
| Providers.RequireAlwaysFinds | registry.go:24-26 | in every run, from the beginning of its `Init` until its `Destroy` has returned, a module that transitively depends on the sole provider of a contract finds the provider's implementation |
| Provision.ProviderServes | registry.go:24-26 | for any two modules, contract and hook with a body there is a run in which the first provides the contract while it starts and the second, which depends on it, is inside its `Init` |

## Left out

- RunSafety.DestroyAfterDependents: says that `Destroy` of a dependent was called and returned, not that the dependent is down, because a failed `Destroy` is forgotten all the same.
- Providers.RequireAlwaysFinds: assumes what the property is about: one module provides the contract, in a start hook that it has from the beginning and that fails when its `Provide` fails; only that module revokes it, while in its destroying state; and only the manager calls `Init` and `Destroy` on it.
- Accounts.NothingHeldAtRest: assumes that a start hook registers one release per acquisition before it returns and that a release releases; cleanups registered outside start hooks are modelled as releasing nothing.
- Management.Manager.Start: lets others register at one point, after plan; the attempt looks at the graph only in plan and in stopLayers, so another moment makes no difference. Interference by other calls of `Start` and `Stop` is in `Orchestration`.
- Lifecycle.WritingKeepsExclusive: that a call of the object `BaseAppModule` is a run of the lifecycle's step relation is not stated, as it is for the manager; the two share `MayInit`, `OrderHooks` and `Remove`.
- Management.Manager.StartLayer: one goroutine's module call and list update are one step here, in an order left open; the finer interleaving of the two is in `Orchestration`.
- BaseModule.BaseAppModule.Init: one caller's view; callers that interfere between critical sections are in `Lifecycle` and `Accounts`.
- `Run`, `Shutdown`, `ExitCode`, timeouts and signals: they delegate to a shutdown library that is not part of this model; `sh.End()` in `Stop` is a flag.
- Logging, durations, and the texts of errors: formatting only.
- `injectContext`, `Config`, functional options, `AppContext`, `Modules`, `Health`, getters and setters: they would only add easy members.
- The panic on an invalid `Phase`: the type `Phase` has no invalid values.
- Reflection in `isNilImpl` and the type assertion in `Require`: contracts are keys and implementations are non-nil values.
- The event-bus adapter: glue over a library that is not part of this model.
- Real goroutine scheduling and the Go memory model: critical sections are atomic steps.
- Termination of module calls: an `Init` or `Destroy` that never returns simply has no further step.
