# Verified model of the MultiClusterEngine operator

This project models the parts of the backplane operator where correctness depends on order, on
history or on several functions together, and proves what they guarantee over all inputs and runs.

* **Uninstall and toggle-off** (`cluster.dfy`, `teardown*.dfy`, `uninstall*.dfy`, `toggleoff*.dfy`).
  The API server is a map of objects. Every client call is one atomic step, it may fail, and any
  number of steps of other actors runs between two calls. `finalizeBackplaneConfig` and the
  `ensureNo*` functions are methods of a class that refine a plan, a list of checks and deletions.
  The theorems are about plans: what an absence seen by one check is still worth at the end, in
  which order deletions happen, and that a fair environment sees the finalizer removed.
* **Status** (`conditions.dfy`, `history.dfy`, `tracker.dfy`, `status*.dfy`). The condition list is a
  sorted list that represents a table, the tracker is a class, and a run is the replay of the stored
  conditions, any sequence of tracker calls and the report. The theorems describe the stored status
  after any sequence of runs by the runs alone.
* **Components, defaulting, admission** (`names.dfy`, `components.dfy`, `defaulting*.dfy`,
  `engine.dfy`, `admission*.dfy`, `coverage.dfy`). Component lists keep their order and their overrides. Defaulting
  is a list transformation with an independent description of its result.
* **Ownership** (`labels.dfy`, `ownership.dfy`, `template_deletion.dfy`). Any number of engines apply and delete templates in one cluster
  while others create, edit and remove objects.
* **Smaller machines** (`localcluster.dfy`, `renames.dfy`, `crddirs.dfy`, `clustermanager.dfy`,
  `networkpolicy.dfy`).

Assumptions about the surroundings, all written into the model: only a ClusterManager brings the hub
namespace into being and only a ManagedCluster its own namespace; nobody but the operator creates
InternalEngineComponents, the hypershift-addon, the local ManagedCluster or the ClusterManager; reads
are linearisable and admission is serialised; clock readings are arbitrary integers; what rendering,
annotation parsing and the status of a single resource return is a parameter.

`dafny verify dfyconfig.toml` checks the whole project.

## Model

| member | source | states |
|---|---|---|
| `Teardown.PlanSecures` | controllers/backplaneconfig_controller.go:2288-2492 | whatever other actors do between any two calls, a plan that ends clear leaves absent every resource whose absence cannot be undone given what was seen absent before |
| `TeardownOrder.DeletionsInOrder` | controllers/backplaneconfig_controller.go:2288-2492 | every deletion a plan issues belongs to one of its steps, and at that instant everything secured by the earlier steps is absent and everything they look for has been seen gone |
| `TeardownOrder.UnsecuredCanReturn` | controllers/backplaneconfig_controller.go:2288-2492 | the secured set is exact: for every other awaited resource there is a healthy run that ends clear with the resource present |
| `TeardownEffects.CallsAreDue` | controllers/backplaneconfig_controller.go:2288-2492 | in every run of a plan, under any answers and interference, a deletion follows at once the read that makes it due, and a read that makes one due is followed by it: an unmarked InternalEngineComponent, an existing resource to be deleted, a template object the engine may manage that is no NetworkPolicy |
| `TeardownEffects.CompletionSettles` | controllers/backplaneconfig_controller.go:2288-2492 | a plan that completes has, for every resource of every step, seen it missing (or of an accepted unregistered kind, or foreign), or deleted it, as the step demands |
| `TeardownEffects.CompletionSettlesConsole` | controllers/backplaneconfig_controller.go:2299-2311 | a completed plan with a console step has removed the plugin |
| `TeardownEffects.IncompleteIsStopped` | controllers/backplaneconfig_controller.go:2288-2492 | a plan that does not complete was stopped by an answer that keeps one of its steps from ending clear |
| `Uninstall.Reconciler.EnsureNoInternalEngineComponent` | controllers/backplaneconfig_controller.go:966-1011 | get, delete unless terminating, get again: refines one step of the sweep |
| `Uninstall.Reconciler.EnsureNoAllInternalEngineComponents` | controllers/backplaneconfig_controller.go:2235-2286 | the loop that collects errors and requeues refines the sweep over all components |
| `Uninstall.Reconciler.FinalizeBackplaneConfig` | controllers/backplaneconfig_controller.go:2288-2492 | refines the uninstall plan and reports success exactly when the plan ends clear |
| `Uninstall.Reconciler.ReconcileDeletion` | controllers/backplaneconfig_controller.go:260-288 | drops the finalizer exactly after a clear finalization, and then deletes the maestro namespace unless maestro is externally managed |
| `Uninstall.Reconciler.DeleteTemplate` | controllers/backplaneconfig_controller.go:2139-2173 | refines the guarded deletion of a template's object, including missing kinds and foreign owners |
| `Uninstall.Reconciler.EnsureNoComponent` | controllers/toggle_components.go:1383-1432 | the common toggle-off shape refines its plan; without rendered templates it never reports success |
| `Uninstall.Reconciler.EnsureNoHyperShift` | controllers/toggle_components.go:1717-1787 | refines the plan that also waits for the hypershift-addon |
| `Uninstall.Reconciler.EnsureNoClusterManager` | controllers/toggle_components.go:1501-1571 | refines the plan that deletes the ClusterManager and waits for the hub namespace |
| `UninstallTheorems.PlanSecuresRequired` | controllers/backplaneconfig_controller.go:2288-2492 | the order of the checks secures exactly the InternalEngineComponents, the addon, the ManagedCluster, the ClusterManager, the hub namespace and the local-cluster namespace |
| `UninstallTheorems.UninstallIsSafe` | controllers/backplaneconfig_controller.go:260-288 | in every run of any number of passes, each deletion is issued only while all earlier stages are absent and the finalizer is dropped only while everything required is absent |
| `UninstallTheorems.SafeEventMeans` | controllers/backplaneconfig_controller.go:2288-2492 | what that means resource by resource: which resources are absent when the finalizer is dropped and when each later stage is deleted |
| `ToggleOffEffects.UninstallCleansGlobalSet` | controllers/backplaneconfig_controller.go:2453-2461 | in every pass that drops the finalizer the global-set namespace was found missing or deleted |
| `ToggleOffEffects.UninstallRemovesPlugin` | controllers/backplaneconfig_controller.go:2299-2311 | on OpenShift every such pass has removed the console plugin |
| `ToggleOffEffects.CleanedExactlyWhenFound` | controllers/backplaneconfig_controller.go:2453-2461 | a resource that is deleted without waiting is deleted exactly when it was just found |
| `UninstallTheorems.TidyingIsSafe` | controllers/backplaneconfig_controller.go:273-285 | the maestro namespace is deleted only right after the finalizer was dropped, and at that instant still nothing required exists |
| `UninstallProgress.NamespaceSecuredIff` | controllers/backplaneconfig_controller.go:2384-2492 | a namespace check is sound if and only if the owner of the namespace is awaited before it |
| `UninstallProgress.WrongOrderIsUnsafe` | controllers/backplaneconfig_controller.go:2384-2492 | with any other order some run drops the finalizer while the namespace exists |
| `UninstallProgress.PendingShrinks` | controllers/backplaneconfig_controller.go:2288-2492 | the set of resources still to go never grows, in a pass of any plan under any interference |
| `UninstallProgress.SweepMarksEach` | controllers/backplaneconfig_controller.go:2235-2286 | errors and stuck finalizers of other components never keep an InternalEngineComponent from being deleted |
| `UninstallProgress.PassAdvances` | controllers/backplaneconfig_controller.go:2288-2492 | with a server that answers from now on, registered addon kind or not, a pass that keeps the finalizer has removed a pending resource or set it terminating, unless it lost the race for the global-set namespace |
| `UninstallProgress.UninstallTerminates` | controllers/backplaneconfig_controller.go:260-288 | once the server answers, and in an environment that finishes deletions, the finalizer is removed within a bound computed from what is pending |
| `UninstallProgress.TerminatesOnceAnswered` | controllers/backplaneconfig_controller.go:260-288 | whatever went wrong during the first passes, the bound holds from the pass on in which the errors stop |
| `UninstallProgress.UninstallTerminatesIff` | controllers/backplaneconfig_controller.go:2288-2492 | with an answering server the finalizer is eventually removed if and only if no required kind other than the addon's is unregistered |
| `UninstallProgress.NoMatchBlocksForever` | controllers/backplaneconfig_controller.go:2383-2386 | while the kind of the ManagedCluster, or of any other required resource but the addon, is not registered, the finalizer is never removed |
| `ToggleOff.ComponentTemplatesWait` | controllers/toggle_components.go:1383-1432 | a template is deleted only after its InternalEngineComponent was seen gone in that call and while it is still absent |
| `ToggleOff.HyperShiftTemplatesWait` | controllers/toggle_components.go:1717-1787 | the same, and the hypershift-addon too was seen gone and is absent |
| `ToggleOff.ClusterManagerTemplatesWait` | controllers/toggle_components.go:1501-1571 | the same, and the hub namespace was seen gone |
| `ToggleOffEffects.TemplatesAreSettled` | controllers/toggle_components.go:1418-1431 | when a toggle-off completes, each template that is no NetworkPolicy was found missing, of an unregistered kind or foreign, or was deleted |
| `ToggleOffEffects.TemplateDeletionsAreDue` | controllers/backplaneconfig_controller.go:2139-2173 | a template is deleted only right after its object was read as manageable, and never a NetworkPolicy |
| `ToggleOffEffects.PlansDropLast` | controllers/toggle_components.go:1383-1787 | this applies to the common, the HyperShift and the cluster-manager toggle-off |
| `ToggleOffEffects.TemplatesAreGone` | controllers/toggle_components.go:1418-1431 | undisturbed, a completed toggle-off leaves every template absent, terminating or foreign |
| `ToggleOffEffects.ToggleOffCompletes` | controllers/toggle_components.go:1383-1432 | with a healthy server and the InternalEngineComponent gone, the toggle-off completes whatever others do |
| `ToggleOffEffects.ClusterManagerIsCleaned` | controllers/toggle_components.go:1535-1543 | in every completed cluster-manager toggle-off the ClusterManager was found missing or deleted |
| `ToggleOff.HubStaysGone` | controllers/toggle_components.go:1501-1571 | without a ClusterManager at the start, the hub namespace is absent at every template deletion and when the toggle-off completes, in every run |
| `ToggleOff.HubMayReturnIff` | controllers/toggle_components.go:1501-1571 | for every state of the cluster: some run completes the toggle-off with the hub namespace back if and only if a ClusterManager exists at the start and the InternalEngineComponent is not already terminating |
| `Conditions.SetCondition` | pkg/status/condition.go:62-83 | replaces the entry of one type in the table the list represents, keeps types distinct and the list sorted; any sorting algorithm will do |
| `Conditions.GetCondition` | pkg/status/condition.go:86-94 | finds the table's entry or reports that there is none |
| `Conditions.FilterOut` | pkg/status/condition.go:97-106 | keeps exactly the conditions of the other types, distinct and sorted as before |
| `Conditions.FilterOutWithSubstring` | pkg/status/condition.go:109-118 | drops exactly the entries whose type contains the text |
| `Conditions.PermutationSameTable` | pkg/status/condition.go:77-82 | the unstable sort cannot change which conditions are stored |
| `History.Perform` | pkg/status/condition.go:62-118 | any history of additions and filters yields a sorted list with one entry per type that represents the replayed table |
| `History.ConditionHistory` | pkg/status/condition.go:62-83 | the entry of a live type is the last addition, with the transition time of the first addition of the trailing run of equal status and the update time of the first of equal content |
| `History.ConditionLives` | pkg/status/condition.go:62-118 | every entry is described by such runs |
| `Tracking.TrackedAreSurvivors` | pkg/status/status.go:33-55 | after any history the slice holds, in call order, the reporters whose key was not yet tracked when they were added and not removed since |
| `Tracking.TrackedDistinct` | pkg/status/status.go:33-55 | tracked keys are pairwise distinct |
| `StatusReport.StatusTracker.AddComponent` | pkg/status/status.go:33-43 | appends if the key is not tracked and changes nothing otherwise |
| `StatusReport.StatusTracker.RemoveComponent` | pkg/status/status.go:46-55 | cutting the slice at the first match drops the key |
| `StatusReport.StatusTracker.ReportComponents` | pkg/status/status.go:91-97 | one component condition per tracked key, in order |
| `StatusReport.AvailabilityMemory.AllComponentsReady` | pkg/status/status.go:140-173 | the answer does not depend on the remembered availability, which ends up with the last value per name |
| `StatusReport.LastSeenSays` | pkg/status/status.go:148-169 | the memory holds the last report per name |
| `StatusReport.LastSeenKeeps` | pkg/status/status.go:148-169 | names that are not reported are remembered as before |
| `StatusReport.StatusTracker.ReportPhase` | pkg/status/status.go:103-138 | the phase is a function of the condition table, the components and the deletion mark |
| `StatusReport.StatusTracker.ReportStatus` | pkg/status/status.go:61-89 | the reported status, with the version moving only in phase Available |
| `StatusReport.ConditionPresentWithSubstring` | pkg/status/condition.go:124-131 | tells whether some type in the table contains the text |
| `StatusRuns.Replay` | controllers/backplaneconfig_controller.go:218-222 | replaying the stored list restores its table |
| `StatusRuns.Reconcile` | controllers/backplaneconfig_controller.go:200-258 | one run reports the table, components, phase and versions of its specification, whatever the remembered availability |
| `StatusTheorems.ReconcileAll` | controllers/backplaneconfig_controller.go:200-258 | a sequence of runs, stored or not, refines the replay on tables |
| `StatusTheorems.FailureTypeInjective` | controllers/backplaneconfig_controller.go:2119-2134 | for names without spaces a failure type determines name and kind |
| `StatusTheorems.FailurePairsAreThisRuns` | controllers/backplaneconfig_controller.go:200-202 | after a run the component failures stored are exactly the name and kind pairs raised in that run |
| `StatusTheorems.PausedIff` | controllers/backplaneconfig_controller.go:451-463 | phase Paused is reported if and only if the run ended in the pause branch, and stale pauses never survive |
| `StatusTheorems.AvailableIff` | pkg/status/status.go:103-138 | phase Available is reported if and only if the run tracked components, all available, raised no failure, did not pause, did not leave Progressing False and is not a deletion; nothing stored before matters |
| `StatusTheorems.ErrorIff` | pkg/status/status.go:103-138 | phase Error if and only if the run did not pause and left Progressing False, or, not being a deletion, tracked components and raised a failure |
| `StatusTheorems.UninstallingIff` | pkg/status/status.go:117-120 | phase Uninstalling if and only if the run is a deletion that neither paused nor left Progressing False |
| `StatusTheorems.ProgressingIff` | pkg/status/status.go:122-135 | phase Progressing if and only if none of these and nothing is tracked, or nothing failed and something tracked is unavailable |
| `StatusTheorems.FailureSays` | controllers/backplaneconfig_controller.go:2119-2134 | a stored failure carries the message of the last failure raised for its name and kind |
| `StatusTheorems.ProgressingSays` | controllers/backplaneconfig_controller.go:227-258 | Progressing says what the pause, or else the last act about it, or else the start of the run said |
| `StatusTheorems.ManagedIff` | controllers/backplaneconfig_controller.go:1723-1815 | the ComponentsExternallyManaged condition is stored exactly by runs that find managed components, with their message |
| `StatusTheorems.AvailableSays` | pkg/status/status.go:64-72 | status, reason and message of Available follow from whether components are tracked and all available |
| `StatusRuns.RunReports` | pkg/status/status.go:91-97 | a run reports one condition per reporter that was added for good, in that order |
| `StatusTheorems.VersionHistory` | pkg/status/status.go:77-88 | the stored version is the initial one or that of the latest stored run that reported Available |
| `StatusTheorems.AvailableMoves` | pkg/status/status.go:64-72 | the transition time of Available moves between reports exactly when readiness flips |
| `StatusTheorems.AvailableStreak` | pkg/status/status.go:64-72 | over any runs from any stored status, the condition has the status and time of the start of the trailing streak of equal readiness, the initial status counting as its first stage |
| `StatusTheorems.AvailableHasStreak` | pkg/status/status.go:64-72 | every stored Available condition is described by such a streak |
| `StatusTheorems.StalledIsTimedByThisRun` | controllers/backplaneconfig_controller.go:227-229 | a Progressing condition left False is always timed by the run that reports it, however long it has been False |
| `Components.ToggledMeaning` | api/v1/multiclusterengine_methods.go:199-262 | enabling or disabling affects presence and flag of that component only |
| `Components.WithoutMeaning` | api/v1/multiclusterengine_methods.go:220-242 | pruning removes that component only |
| `Engine.MultiClusterEngine.ComponentPresent` | api/v1/multiclusterengine_methods.go:167-181 | the loop finds whether some entry has the name |
| `Engine.MultiClusterEngine.IsEnabled` | api/v1/multiclusterengine_methods.go:183-197 | the loop returns the flag of the first entry with the name |
| `Engine.MultiClusterEngine.SetEnabled` | api/v1/multiclusterengine_methods.go:199-262 | updates the first entry in place or appends one, creating the overrides if needed |
| `Engine.MultiClusterEngine.Prune` | api/v1/multiclusterengine_methods.go:220-242 | removes every entry with the name and says whether there was one |
| `Engine.MultiClusterEngine.SetDefaultComponents` | pkg/utils/utils.go:90-106 | adds exactly the missing default components and says whether any was missing |
| `Engine.MultiClusterEngine.SetDefaults` | controllers/backplaneconfig_controller.go:2583-2698 | produces the defaulted spec and annotations, and asks for an update if and only if something changed |
| `Engine.SetDefaultsConverges` | controllers/backplaneconfig_controller.go:2583-2698 | defaulting its own result changes nothing, for every spec, annotation map and platform |
| `Engine.DefaultValues` | controllers/backplaneconfig_controller.go:2561-2599 | the value of every defaulted field and annotation, and what is left as it was |
| `DefaultingTheorems.DefaultedMeaning` | controllers/backplaneconfig_controller.go:2601-2683 | presence and flag of every component after defaulting, said without the algorithm |
| `DefaultingTheorems.DefaultingConverges` | controllers/backplaneconfig_controller.go:2601-2683 | the defaulted list is settled, and a list is unchanged by defaulting if and only if it is settled |
| `DefaultingTheorems.DefaultingFrame` | controllers/backplaneconfig_controller.go:2601-2683 | the other entries keep order, unique names and overrides; a flag changes only for the stable counterpart of an enabled preview or for the console on a cluster without plugins |
| `Engine.UpdateIffUnsettled` | controllers/backplaneconfig_controller.go:2601-2683 | the flags collected by the three stages of setDefaults together say whether the list changes |
| `Admission.ValidateComponentExclusivity` | api/v1/multiclusterengine_webhook.go:424-475 | the two searches decide whether both families have an enabled member |
| `Admission.MigrationKeepsFamilies` | controllers/backplaneconfig_controller.go:2613-2628 | preview migration keeps whether each family has an enabled member |
| `Admission.DefaultedExclusiveIff` | api/v1/multiclusterengine_webhook.go:424-475 | for every list and platform, the defaulted list fails the exclusivity check if and only if the input enables some Cluster API component and either enables some HyperShift component or lacks hypershift or hypershift-local-hosting |
| `Admission.DefaultingUpdateAdmittedIff` | api/v1/multiclusterengine_webhook.go:238-344 | for every object, the update that setDefaults sends is admitted if and only if all names are known, no enabled maestro-preview entry hides behind a disabled one, the defaults do not clash, and discovery is not disabled while it is in use |
| `Admission.AdmittedSpecCanBeStuck` | api/v1/multiclusterengine_webhook.go:173-223 | a spec that only enables cluster-api is admitted and its defaulted form is not |
| `Admission.RepeatedMaestroIsStuck` | api/v1/multiclusterengine_webhook.go:263-273 | an engine with maestro-preview on may be updated to list it off and then on again; nothing clashes, and every later update of setDefaults is rejected |
| `Admission.CheckedIff` | api/v1/multiclusterengine_webhook.go:263-273 | the loop looks at every entry: it accepts if and only if all names are known and no maestro-preview entry is on unless the first one was |
| `Admission.DefaultingKeepsKnown` | controllers/backplaneconfig_controller.go:2601-2683 | defaulting neither adds nor removes an unknown name |
| `DefaultingTheorems.DefaultedAnyOn` | controllers/backplaneconfig_controller.go:2601-2683 | a component that is not on by default and has no preview keeps whether any of its entries is on |
| `AdmissionRuns.RunKeepsOneStandalone` | api/v1/multiclusterengine_webhook.go:173-344 | at most one standalone engine exists, over any run of creates, updates and deletes |
| `AdmissionRuns.RunKeepsDistinct` | api/v1/multiclusterengine_webhook.go:173-344 | target namespaces stay distinct over any run that rewrites an empty one only to the default |
| `AdmissionRuns.UpdateKeepsDistinctIff` | api/v1/multiclusterengine_webhook.go:241-243 | an admitted update keeps namespaces distinct if and only if the namespace was already set or the new one is not in use |
| `AdmissionRuns.NamespacesCanCollide` | api/v1/multiclusterengine_webhook.go:241-243 | without that discipline three admitted requests make two engines share a namespace |
| `AdmissionRuns.CollisionWitness` | api/v1/multiclusterengine_webhook.go:241-243 | engines that collide in this way exist |
| `AdmissionRuns.CheckOthersIff` | api/v1/multiclusterengine_webhook.go:173-223 | a new engine is accepted beside the others if and only if its effective namespace is free and it does not make a second standalone one |
| `Admission.CheckComponentsIff` | api/v1/multiclusterengine_webhook.go:263-273 | the loop accepts a list if and only if all names are known and maestro-preview is not newly enabled |
| `AdmissionRules.CreateAdmittedIff` | api/v1/multiclusterengine_webhook.go:173-223 | for every object and list: creation is admitted if and only if availability is empty or valid, names are known, no maestro-preview entry is on, the two families are not both enabled, the local name is short, and no engine shares the namespace or is a second standalone one |
| `AdmissionRules.CreateDecidedByFirstRule` | api/v1/multiclusterengine_webhook.go:173-223 | a rejection is that of the first rule that objects, in the order of the code |
| `AdmissionRules.UpdateAdmittedIff` | api/v1/multiclusterengine_webhook.go:238-344 | for every pair of objects: an update is admitted if and only if none of the nine rules objects |
| `AdmissionRules.UpdateDecidedByFirstRule` | api/v1/multiclusterengine_webhook.go:238-344 | a rejection is that of the first rule that objects, in the order of the code |
| `AdmissionRules.FirstOffenceIsReported` | api/v1/multiclusterengine_webhook.go:263-273 | the component loop reports the first objectionable entry, unknown before deprecated |
| `AdmissionRules.FirstConflictIsReported` | api/v1/multiclusterengine_webhook.go:207-221 | the loop over existing engines reports the first one in the way, namespace before mode |
| `AdmissionRules.ExclusiveIff` | api/v1/multiclusterengine_webhook.go:424-475 | the exclusivity check fails exactly when an enabled component of each family exists |
| `AdmissionRuns.MaestroNeverReturns` | api/v1/multiclusterengine_webhook.go:263-273 | no engine goes from maestro-preview disabled to enabled, over any run |
| `Ownership.Server.EnsureResourceOwnership` | controllers/backplaneconfig_controller.go:1916-1963 | who may manage an object, and the label adoption puts on the template |
| `Ownership.Server.ApplyTemplate` | controllers/backplaneconfig_controller.go:1992-2091 | create, patch, skip or fail, with the whole new state and exactly when it reports which |
| `Ownership.Server.EnsureUnstructuredResource` | controllers/backplaneconfig_controller.go:2513-2550 | APIServices are created once and never changed |
| `Ownership.Server.DeleteTemplate` | controllers/backplaneconfig_controller.go:2139-2173 | deletes only what the engine manages |
| `TemplateDeletion.DeletionsAgree` | controllers/backplaneconfig_controller.go:2139-2173 | the call-by-call view of deleteTemplate and the ownership view do the same to the object, for every fault |
| `Ownership.OwnerNeverChanges` | controllers/backplaneconfig_controller.go:1916-2173 | a non-empty owner label stays for as long as the object lives, over any run of any number of engines and other actors |
| `Ownership.StrangersLeaveItAlone` | controllers/backplaneconfig_controller.go:1916-2173 | an object survives untouched every run in which only engines that neither own nor adopt it act on it, whatever anybody does to other objects |
| `Ownership.StrictLeavesUnlabelledAlone` | controllers/backplaneconfig_controller.go:1957-1963 | an unlabelled object on which only Strict engines act is never altered |
| `Ownership.OthersDoNotInterfere` | controllers/backplaneconfig_controller.go:1916-2173 | what happens to an engine's own object is what would happen if the other engines were not there |
| `Ownership.FirstAdopterWins` | controllers/backplaneconfig_controller.go:1939-1960 | the first engine to adopt an unlabelled object keeps it; without an adoption it stays unlabelled |
| `Ownership.ApplyIsIdempotent` | controllers/backplaneconfig_controller.go:1992-2091 | applying a template twice is applying it once |
| `Ownership.ApplyExactly` | controllers/backplaneconfig_controller.go:1992-2091 | a call that may write puts the template's content and labels and the owner label on the object and leaves the rest of it and all other objects alone; any other call changes nothing |
| `Ownership.EraseExactly` | controllers/backplaneconfig_controller.go:2139-2173 | deletion removes a manageable object, or marks it if it has finalizers, and in every other case changes nothing |
| `Ownership.LastWriteDecides` | controllers/backplaneconfig_controller.go:1992-2173 | over any run an object carries the template of the last call that wrote it, for as long as it exists and nobody else acts on it |
| `LocalCluster.Controller.EnsureLocalCluster` | controllers/toggle_components.go:2189-2309 | refines the enabling pass, with other actors between its calls |
| `LocalCluster.Controller.EnsureNoLocalCluster` | controllers/toggle_components.go:2344-2421 | refines the disabling pass |
| `LocalCluster.LifecycleIsSafe` | controllers/toggle_components.go:2189-2421 | over any run of passes, admitted renames and interference, each cluster labelled local has the spec's name, it is created only while its namespace is absent, and its namespace is deleted only while it is absent |
| `LocalCluster.TerminatedIffRequested` | controllers/toggle_components.go:2344-2421 | over any run in which others leave it alone, a namespace ends up terminating if and only if some disabling pass got to delete it while the spec had its name and the cluster was absent |
| `LocalCluster.NeverAskedAfterRename` | controllers/toggle_components.go:2344-2421 | once the spec has another name no pass asks for the deletion of the old namespace, whatever others do, until the name is given back |
| `LocalCluster.RenameAbandonsIff` | api/v1/multiclusterengine_webhook.go:310-341 | over a run with a rename, the old namespace ends up abandoned, present and not being deleted, if and only if the webhook admits the rename and no disabling pass before it got to delete the namespace |
| `Renames.RenameAdmittedIff` | api/v1/multiclusterengine_webhook.go:310-341 | a pure rename passes the update validator if and only if the object as it is does and the rename rule of the lifecycle holds |
| `LocalCluster.OnCreatesIff` | controllers/toggle_components.go:2205-2246 | an enabling pass creates the cluster exactly when it reads cluster and namespace as absent and is answered |
| `LocalCluster.OnEstablishes` | controllers/toggle_components.go:2189-2309 | undisturbed, the cluster is then there, labelled local if new, with the two annotations the spec asks for and nothing else changed |
| `LocalCluster.AnnotatedSays` | controllers/toggle_components.go:2311-2342 | each annotation carries its own value of the spec, or is removed; others stay |
| `LocalCluster.OffAsksForCluster` | controllers/toggle_components.go:2360-2388 | a disabling pass that reads the cluster asks for its deletion exactly if the call is answered and the cluster is still there |
| `LocalCluster.OffAsksForNamespace` | controllers/toggle_components.go:2390-2420 | otherwise it asks for the deletion of the namespace exactly if it reads it and is answered |
| `CrdDirs.SkipDirs` | controllers/backplaneconfig_controller.go:472-498 | a directory is skipped if and only if it is another platform's variant, one of its names is annotated as externally managed, or its Cluster API component is disabled |
| `CrdDirs.CollectDirs` | controllers/backplaneconfig_controller.go:1627-1682 | the two skip-list builders collect each directory of the selected components once |
| `CrdDirs.OwnerIsNamed` | pkg/utils/utils.go:456-512 | a component owns a directory if and only if it is its stable or its preview name |
| `CrdDirs.RenderCrds` | pkg/rendering/renderer.go:278-296 | the filter loop keeps the files outside the skipped directories, in order |
| `CrdDirs.RenderedExactly` | controllers/backplaneconfig_controller.go:472-500 | with the computed skip set, exactly the files of rendering directories are applied |
| `Coverage.SweptExactly` | controllers/backplaneconfig_controller.go:2240-2261 | the uninstall sweeps exactly the known components that are neither replaced previews nor hypershift-local-hosting |
| `Coverage.DefaultedIsSwept` | controllers/backplaneconfig_controller.go:2240-2261 | whatever an admitted and defaulted list can name is swept |
| `Coverage.PoliciesLookedFor` | api/v1/multiclusterengine_methods.go:109-131 | NetworkPolicies are looked for in the swept components other than local-cluster, and in hypershift-local-hosting |
| `ClusterManagerSpec.DriversMatch` | controllers/toggle_components.go:2730-2759 | with distinct expected types the nested search holds if and only if the actual types are a permutation of them |
| `ClusterManagerSpec.TestIsExactIff` | controllers/toggle_components.go:2730-2759 | the test decides "is a permutation of" for every actual list if and only if the expected types do not repeat |
| `ClusterManagerSpec.ClusterManager.EnableGrpcServer` | controllers/toggle_components.go:2640-2727 | updates if and only if drivers, image or host differ, and then to the configured object |
| `ClusterManagerSpec.ClusterManager.DisableGrpcServer` | controllers/toggle_components.go:2780-2842 | removes the two fields and an emptied registration, and fails on a spec that is not a map |
| `ClusterManagerSpec.EnableIsIdempotent` | controllers/toggle_components.go:2640-2727 | enabling twice is enabling once, whatever the object held |
| `ClusterManagerSpec.EnabledReads` | controllers/toggle_components.go:2640-2727 | after enabling any object, its drivers are exactly csr and grpc and it has the given image and host |
| `ClusterManagerSpec.UpdateWrites` | controllers/toggle_components.go:2694-2719 | what an update writes, path by path |
| `ClusterManagerSpec.DisableUndoesEnableIff` | controllers/toggle_components.go:2780-2842 | disabling after enabling restores the object if and only if its spec is a map without server configuration whose registration is absent or a non-empty map without drivers |
| `ClusterManagerSpec.EnableRestoresIff` | controllers/toggle_components.go:2640-2842 | switching off and on again restores what enabling left if and only if enabling wrote it or found it exactly as it would have written it |
| `ClusterManagerSpec.EditsFrame` | controllers/toggle_components.go:2694-2826 | for every object, no other key of it, its spec or its registration is touched, and disabling fails exactly on a spec that is no map |
| `NetworkPolicies.Server.EnsureNetworkPolicies` | controllers/networkpolicy.go:34-150 | one pass, with operand teams acting between any two of its calls and any call failing, refines its specification |
| `NetworkPolicies.CreateOnce` | controllers/networkpolicy.go:110-146 | whatever operand teams do meanwhile to other policies, creation leaves an existing policy alone, and a missing one is there afterwards if and only if a completed item names it, with the label of the engine |
| `NetworkPolicies.WantedAreThere` | controllers/networkpolicy.go:63-149 | a pass with the flag on and no failing call succeeds, and every wanted policy is there |
| `NetworkPolicies.FirstTemplateWins` | controllers/networkpolicy.go:110-146 | of several templates with one name the first decides the content |
| `NetworkPolicies.PassKeepsOrDeletes` | controllers/networkpolicy.go:45-61 | an existing policy is, after a pass, unmodified or gone, and gone if and only if the flag is off, the policy was the engine's own when listed, and no call before its deletion failed |
| `NetworkPolicies.PassDeletesIff` | controllers/networkpolicy.go:34-150 | without errors a policy goes if and only if the flag is off and it is in the target namespace with the label of the engine |
| `NetworkPolicies.DeleteExactly` | controllers/networkpolicy.go:54-60 | a deleting pass removes exactly the listed policies it reaches and modifies none |
| `NetworkPolicies.DisabledComponentKeepsPolicy` | controllers/networkpolicy.go:64-69 | a policy created for a component stays, unmodified, in every run of passes with the flag on in which the component is disabled |
| `NetworkPolicies.PassesNeverModify` | controllers/networkpolicy.go:34-150 | over any run with the flag flipping and operand teams active between and during passes, a policy they do not touch has the same content as long as it is the same object |
| `NetworkPolicies.StaysIffNotDeleted` | controllers/networkpolicy.go:34-150 | over any such run a policy stays as it is if and only if no pass with the flag off gets to delete it |
| `Uninstall.Reconciler.EnsureNoEachInternalEngineComponent` | controllers/backplaneconfig_controller.go:2235-2286 | processes every listed component, whatever happened to the ones before it, before it decides |
| `Uninstall.Reconciler.DeleteAndWait` | controllers/backplaneconfig_controller.go:2313-2386 | an existing resource is deleted and the pass stops; an absent one lets it go on |
| `Uninstall.Reconciler.WaitForNamespace` | controllers/backplaneconfig_controller.go:2424-2451 | stops while a namespace that others delete exists |
| `Uninstall.Reconciler.CleanResource` | controllers/backplaneconfig_controller.go:2453-2461 | deletes the global-set namespace without waiting for it; losing a race counts as an error |
| `Uninstall.Reconciler.DeleteTemplates` | controllers/toggle_components.go:1418-1431 | deletes templates in order up to the first error, leaving NetworkPolicies to their own logic |
| `ToggleOff.TemplatesWait` | controllers/toggle_components.go:1383-1432 | for every plan that deletes templates last: nothing is deleted before the earlier steps have seen their resources gone |
| `UninstallProgress.PassesPending` | controllers/backplaneconfig_controller.go:260-288 | over any number of passes nothing becomes pending again, and a removed finalizer stays removed |
| `StatusReport.StatusTracker.Reset` | pkg/status/status.go:26-30 | empties the tracker |
| `StatusReport.StatusTracker.AddCondition` | pkg/status/status.go:57-59 | sets one condition, keeping the list distinct and sorted |
| `StatusReport.StatusTracker.DropConditions` | controllers/backplaneconfig_controller.go:1723-1760 | drops the conditions whose type contains the text |
| `Engine.MultiClusterEngine.ReplacePreviews` | controllers/backplaneconfig_controller.go:2610-2628 | replaces and prunes every preview and says whether one was present |
| `Engine.MultiClusterEngine.SettleConsoleComponent` | controllers/backplaneconfig_controller.go:2647-2683 | settles the console for the platform and says whether that changed anything |
| `Engine.MultiClusterEngine.SetDefaultAnnotations` | controllers/backplaneconfig_controller.go:2561-2581 | adds the missing default annotation and says whether it was missing |
| `Ownership.OnlyEntitledAlter` | controllers/backplaneconfig_controller.go:1916-2173 | a call changes an object only if its label names the caller, or it has no label and the caller adopts |
| `Ownership.EraseUndoesCreate` | controllers/backplaneconfig_controller.go:1992-2173 | whatever other engines try in between, an engine can take back what it created |
| `LocalCluster.Controller.UpdateCluster` | controllers/toggle_components.go:2291-2342 | annotates exactly the object that was read, setting or removing the two annotations |
| `CrdDirs.DisabledDir` | controllers/backplaneconfig_controller.go:1651-1683 | the disabled-component list holds exactly the Cluster API directories whose component is off and not annotated |
| `CrdDirs.AnnotatedDir` | controllers/backplaneconfig_controller.go:1610-1644 | the externally-managed list holds exactly the directories with an annotated name |
| `CrdDirs.OtherPlatformDir` | controllers/backplaneconfig_controller.go:1689-1711 | the platform list holds exactly the variants of the other platform |
| `NetworkPolicies.Server.DeleteListed` | controllers/networkpolicy.go:45-61 | deletes the listed policies in order up to the failing call, operand teams acting in between |
| `NetworkPolicies.Server.CreateWanted` | controllers/networkpolicy.go:63-149 | goes through the components in order, looks up and creates what is missing, up to the first error |
| `NetworkPolicies.Server.CreateIfMissing` | controllers/networkpolicy.go:111-145 | get, then create if missing; a policy that appears in between makes the create fail and is left alone |
| `NetworkPolicies.FilterPolicies` | controllers/networkpolicy.go:97-103 | keeps exactly the NetworkPolicy templates, in order |
| `NetworkPolicies.PoliciesInExactly` | controllers/networkpolicy.go:97-103 | every NetworkPolicy template is kept as often as it occurs and nothing else is |
| `NetworkPolicies.PoliciesInOrder` | controllers/networkpolicy.go:97-103 | the filter works piece by piece, so it keeps the order |
| `NetworkPolicies.WantedOfExactly` | controllers/networkpolicy.go:64-108 | which policies a component wants: enabled, not hypershift-local-hosting, not externally managed, rendered without error |
| `NetworkPolicies.WantedExactly` | controllers/networkpolicy.go:64-108 | the components together want exactly what one of them wants |

Where the code and its comments differ the model follows the code. The comment at
controllers/networkpolicy.go:33 says that policies of disabled components are deleted; the code leaves
them alone (`NetworkPolicies.DisabledComponentKeepsPolicy`; `NetworkPolicies.PassDeletesIff` says exactly
when a policy goes). The condition at controllers/backplaneconfig_controller.go:2383 means to accept a missing
ManagedCluster kind and never does (`UninstallProgress.NoMatchBlocksForever`).

## Left out

- Helm rendering, YAML and JSON parsing, file walking, environment variables, logging and message texts: they only produce inputs of the model.
- Status conditions and timeouts set inside `finalizeBackplaneConfig`: they do not influence which calls are made; the status model admits any such conditions.
- The individual enabling functions and the twenty near-identical disabling ones: one generic shape and the HyperShift, cluster-manager and local-cluster variants are modelled.
- Externally managed components in the toggle dispatch, deprecated resource cleanup, metrics and trust-bundle objects: plain create or delete calls without further structure.
- Writes that bypass the ownership check: controllers/backplaneconfig_controller.go:2178-2195 and controllers/toggle_components.go:1005-1012 and 1480-1488.
- NetworkPolicies that managed-serviceaccount, fleet-navigation, cluster-proxy-addon and maestro patch through `applyTemplate`: they are outside the create-once theorem.
- Semantic version comparison: reduced to whether the cluster supports console plugins.
- Stale cache reads and concurrent admission.
- UninstallProgress.UninstallTerminates: assumes that what is terminating, for a namespace that its owner is gone, disappears within a given number of passes, and that no pass loses the race for the global-set namespace.
- Admission.ValidateComponentExclusivity: the text of the rejection, which lists the clashing components, is not modelled; neither are failures of the webhook's own list calls.
- Ownership.Server.ApplyTemplate: server-side apply is the merge of the template's labels and content into the object; field managers, controller references and the version-alignment condition are not modelled, and a call is atomic.
- LocalCluster.Controller.EnsureLocalCluster: the release-version annotation, the status reporters and the distinction between a missing webhook and a missing kind on creation are not modelled.
- ClusterManagerSpec.DriversMatch: comparing two authentication types that are themselves maps, which stops the original program, is equality here.
- NetworkPolicies.Server.EnsureNetworkPolicies: finalizers on policies and the release-version annotation are not modelled.
