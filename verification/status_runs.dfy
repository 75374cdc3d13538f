/** The status a sequence of reconciles leaves behind: each run replays the stored conditions,
    adds its own and reports (controllers/backplaneconfig_controller.go, Reconcile). */
module StatusRuns {
  import opened Names
  import opened Conditions
  import opened Tracking
  import opened StatusReport

  /** Reasons the reconciler gives for the Progressing condition outside the pause branch. */
  datatype Reason =
    | WaitingForResource | RequirementsNotMet | FailedDeployingComponent | ComponentsDeployed
    | UpdatingComponentResource | ManagedClusterTerminating | ManagedClusterNamespaceTerminating

  function ReasonText(r: Reason): string {
    match r
    case WaitingForResource => "WaitingForResource"
    case RequirementsNotMet => "RequirementsNotMet"
    case FailedDeployingComponent => "FailedDeployingComponent"
    case ComponentsDeployed => "ComponentsDeployed"
    case UpdatingComponentResource => "UpdatingComponentResource"
    case ManagedClusterTerminating => "ManagedClusterTerminating"
    case ManagedClusterNamespaceTerminating => "ManagedClusterNamespaceTerminating"
  }

  /** What the body of a reconcile does to the tracker. */
  datatype Act =
    | Progress(status: CondStatus, reason: Reason, message: string, at: Times)
    | Fail(name: string, kind: string, message: string, at: Times)
    | Watch(op: TrackOp)

  datatype Managed = Managed(message: string, at: Times)

  /** One reconcile: any sequence of acts, ended or not by the pause branch. `persisted` is false
      when the run returns before reporting or its status update is refused. */
  datatype Run = Run(
    managed: Option<Managed>, startedAt: Times, acts: seq<Act>, paused: Option<Times>,
    deleting: bool, version: string, health: Health, reportedAt: Times, persisted: bool)

  function FailureType(name: string, kind: string): string {
    COMPONENT_FAILURE + ": " + name + " (Kind:" + kind + ")"
  }

  function ActCondition(a: Act): Condition
    requires !a.Watch?
  {
    match a
    case Progress(st, reason, message, at) => NewCondition(PROGRESSING, st, ReasonText(reason), message, at)
    case Fail(name, kind, message, at) =>
      NewCondition(FailureType(name, kind), StatusTrue, "FailedApplyingComponent", message, at)
  }

  function ManagedCondition(m: Managed): Condition {
    NewCondition(EXTERNALLY_MANAGED, StatusTrue, "ExternalManagement", m.message, m.at)
  }

  function StartCondition(at: Times): Condition {
    NewCondition(PROGRESSING, StatusTrue, "WaitingForResource", "Setting the operator", at)
  }

  function PausedCondition(at: Times): Condition {
    NewCondition(PROGRESSING, StatusUnknown, PAUSED_REASON, "Multiclusterengine is paused", at)
  }

  // --------------------------------------------------------- one run, on the table

  function ActTable(t: Table, acts: seq<Act>): Table {
    if acts == [] then t
    else
      var before, a := ActTable(t, acts[..|acts| - 1]), acts[|acts| - 1];
      if a.Watch? then before else Put(before, ActCondition(a))
  }

  function WatchOps(acts: seq<Act>): seq<TrackOp> {
    if acts == [] then []
    else WatchOps(acts[..|acts| - 1]) + if acts[|acts| - 1].Watch? then [acts[|acts| - 1].op] else []
  }

  function Opening(t: Table, run: Run): Table {
    var kept := DropMatching(t, COMPONENT_FAILURE);
    var marked :=
      if run.managed.Some? then Put(kept, ManagedCondition(run.managed.value))
      else DropMatching(kept, EXTERNALLY_MANAGED);
    Put(marked, StartCondition(run.startedAt))
  }

  function Collected(t: Table, run: Run): Table {
    var acted := ActTable(Opening(t, run), run.acts);
    if run.paused.Some? then Put(acted, PausedCondition(run.paused.value)) else acted
  }

  function RunComponents(run: Run): seq<ComponentCondition> {
    Reported(Tracked(WatchOps(run.acts)), run.health)
  }

  function RunTable(t: Table, run: Run): Table {
    Put(Collected(t, run), AvailableCondition(AllReady(RunComponents(run)), run.reportedAt))
  }

  function RunPhase(t: Table, run: Run): Phase {
    PhaseOf(RunTable(t, run), RunComponents(run), run.deleting)
  }

  // ----------------------------------------------------- one run, as the code does it

  method Replay(tracker: StatusTracker, stored: seq<Condition>)
    requires Distinct(stored)
    modifies tracker
    ensures tracker.Valid() && tracker.components == []
    ensures TableOf(tracker.conditions) == TableOf(stored)
  {
    tracker.Reset("");
    for i := 0 to |stored|
      invariant tracker.Valid() && tracker.components == []
      invariant TableOf(tracker.conditions) == TableOf(stored[..i])
    {
      assert stored[..i + 1] == stored[..i] + [stored[i]];
      AppendTable(stored[..i], stored[i]);
      TableEntries(stored[..i], stored[i].kind);
      tracker.AddCondition(stored[i]);
    }
    assert stored[..|stored|] == stored;
  }

  lemma WatchStep(acts: seq<Act>, i: nat)
    requires i < |acts|
    ensures var rs := Tracked(WatchOps(acts[..i]));
      Tracked(WatchOps(acts[..i + 1])) ==
      if !acts[i].Watch? then rs
      else if acts[i].op.Untrack? then Dropped(rs, acts[i].op.sr.key)
      else if HasKey(rs, acts[i].op.sr.key) then rs else rs + [acts[i].op.sr]
  {
    assert acts[..i + 1][..i] == acts[..i];
    var ops := WatchOps(acts[..i]);
    if acts[i].Watch? { assert (ops + [acts[i].op])[..|ops|] == ops; } else { assert ops + [] == ops; }
  }

  method PerformOne(tracker: StatusTracker, a: Act)
    requires tracker.Valid()
    modifies tracker
    ensures tracker.Valid()
    ensures TableOf(tracker.conditions) ==
      if a.Watch? then old(TableOf(tracker.conditions)) else Put(old(TableOf(tracker.conditions)), ActCondition(a))
    ensures tracker.components ==
      if !a.Watch? then old(tracker.components)
      else if a.op.Untrack? then Dropped(old(tracker.components), a.op.sr.key)
      else if HasKey(old(tracker.components), a.op.sr.key) then old(tracker.components)
      else old(tracker.components) + [a.op.sr]
  {
    match a {
      case Watch(Track(sr)) => tracker.AddComponent(sr);
      case Watch(Untrack(sr)) => tracker.RemoveComponent(sr);
      case _ => tracker.AddCondition(ActCondition(a));
    }
  }

  method Perform(tracker: StatusTracker, acts: seq<Act>)
    requires tracker.Valid() && tracker.components == []
    modifies tracker
    ensures tracker.Valid() && tracker.components == Tracked(WatchOps(acts))
    ensures TableOf(tracker.conditions) == ActTable(old(TableOf(tracker.conditions)), acts)
  {
    for i := 0 to |acts|
      invariant tracker.Valid() && tracker.components == Tracked(WatchOps(acts[..i]))
      invariant TableOf(tracker.conditions) == ActTable(old(TableOf(tracker.conditions)), acts[..i])
    {
      assert acts[..i + 1][..i] == acts[..i];
      WatchStep(acts, i);
      PerformOne(tracker, acts[i]);
    }
    assert acts[..|acts|] == acts;
  }

  method Reconcile(tracker: StatusTracker, memory: AvailabilityMemory, stored: Status, run: Run) returns (s: Status)
    requires Distinct(stored.conditions)
    modifies tracker, memory
    ensures Distinct(s.conditions) && Sorted(s.conditions)
    ensures TableOf(s.conditions) == RunTable(TableOf(stored.conditions), run)
    ensures s.components == RunComponents(run)
    ensures s.phase == RunPhase(TableOf(stored.conditions), run)
    ensures s.desiredVersion == run.version
    ensures s.currentVersion == if s.phase == PhaseAvailable then run.version else stored.currentVersion
  {
    var kept := FilterOutWithSubstring(stored.conditions, COMPONENT_FAILURE);
    Replay(tracker, kept);
    if run.managed.Some? {
      tracker.AddCondition(ManagedCondition(run.managed.value));
    } else {
      tracker.DropConditions(EXTERNALLY_MANAGED);
    }
    tracker.AddCondition(StartCondition(run.startedAt));
    Perform(tracker, run.acts);
    if run.paused.Some? {
      tracker.AddCondition(PausedCondition(run.paused.value));
    }
    s := tracker.ReportStatus(
      memory, run.health, run.deleting, stored.currentVersion, run.version, run.reportedAt);
  }

  /** The tracker calls of a run are those among its acts, in order. */
  lemma {:induction false} WatchOpsJoin(a: seq<Act>, b: seq<Act>)
    ensures WatchOps(a + b) == WatchOps(a) + WatchOps(b)
    ensures |a| == 1 ==> WatchOps(a) == if a[0].Watch? then [a[0].op] else []
    decreases |b|
  {
    if b == [] {
      assert a + b == a;
    } else {
      assert (a + b)[..|a + b| - 1] == a + b[..|b| - 1];
      WatchOpsJoin(a, b[..|b| - 1]);
    }
    if |a| == 1 { assert a[..0] == []; }
  }

  /** A run reports one component condition per reporter that was added for good, in that order. */
  lemma RunReports(run: Run)
    ensures var rs := Survivors(WatchOps(run.acts));
      && DistinctKeys(rs) && |RunComponents(run)| == |rs|
      && forall i | 0 <= i < |rs| :: RunComponents(run)[i] == run.health(rs[i])
  {
    TrackedAreSurvivors(WatchOps(run.acts));
    TrackedDistinct(WatchOps(run.acts));
  }
}
