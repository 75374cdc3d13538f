/** What a completed toggle-off or uninstall has done, read off the log and the cluster. */
module ToggleOffEffects {
  import opened Names
  import opened Labels
  import opened ApiServer
  import opened Teardown
  import opened TeardownOrder
  import opened TeardownEffects
  import opened Uninstall
  import opened UninstallProgress
  import opened ToggleOff

  // ---------------------------------------------------------------------- templates

  predicate NetworkPolicyTemplate(r: Resource) {
    r.Template? && r.kind == "NetworkPolicy"
  }

  /** When a plan that ends by dropping templates completes, each template was looked up and found
      missing, of an unregistered kind or foreign, or was deleted; only NetworkPolicies are left to
      their own logic. */
  lemma TemplatesAreSettled(o: Oracle, w: World, ts: seq<Task>, r: Resource)
    requires ts != [] && ts[|ts| - 1].Drop? && RunPlan(o, w, ts).1 == Clear
    requires r in ts[|ts| - 1].templates && !NetworkPolicyTemplate(r)
    ensures Settled(RunPlan(o, w, ts).0.log, |w.log|, ts[|ts| - 1], r)
  {
    CompletionSettles(o, w, ts, |ts| - 1, r);
  }

  /** A template is only ever deleted right after it was read as manageable, and never when it is a
      NetworkPolicy. */
  lemma TemplateDeletionsAreDue(o: Oracle, w: World, ts: seq<Task>, i: nat)
    requires TemplatesLast(ts) && |w.log| <= i < |RunPlan(o, w, ts).0.log|
    requires forall k | 0 <= k < |ts| - 1 :: forall r <- Reads(ts[k]) :: !r.Template?
    requires TemplateDeletion(RunPlan(o, w, ts).0.log[i])
    ensures var log := RunPlan(o, w, ts).0.log; var r := log[i].op.key; var drop := ts[|ts| - 1];
      && r in drop.templates && !NetworkPolicyTemplate(r)
      && |w.log| < i && FoundAt(log, i - 1, r)
      && MayManage(log[i - 1].op.got.obj.labels, drop.owner, drop.adopts)
  {
    var log := RunPlan(o, w, ts).0.log;
    CallsAreDue(o, w, ts, i);
    var k :| 0 <= k < |ts| && MadeBy(log, |w.log|, i, ts[k]);
    assert k == |ts| - 1;
  }

  /** The plans of the three kinds of toggle-off meet the hypotheses above. */
  lemma PlansDropLast(c: Component, rs: seq<Resource>, owner: string, adopts: bool)
    requires forall r <- rs :: r.Template?
    ensures forall ts | ts == ToggleOffPlan(c, rs, owner, adopts) || ts == HyperShiftOffPlan(rs, owner, adopts)
                     || ts == ClusterManagerOffPlan(rs, owner, adopts) ::
      && TemplatesLast(ts) && ts[|ts| - 1] == Drop(rs, owner, adopts)
      && forall k | 0 <= k < |ts| - 1 :: forall r <- Reads(ts[k]) :: !r.Template?
  {
  }

  // -------------------------------------------------------------------- quiet runs

  ghost predicate QuietFrom(o: Oracle, start: nat) {
    forall n | n >= start :: o.env(n) == []
  }

  /** Absent, terminating or not the engine's. */
  predicate Handled(c: Cluster, r: Resource, owner: string, adopts: bool) {
    r in c ==> c[r].deleting || !MayManage(c[r].labels, owner, adopts)
  }

  lemma DropOneHandles(o: Oracle, w: World, t: Resource, owner: string, adopts: bool, r: Resource)
    requires QuietFrom(o, w.clock)
    ensures var (w1, v) := DropOne(o, w, t, owner, adopts);
      && w1.clock >= w.clock
      && (Handled(w.cluster, r, owner, adopts) ==> Handled(w1.cluster, r, owner, adopts))
      && (v == Clear ==> Handled(w1.cluster, t, owner, adopts))
  {
    assert o.env(w.clock) == [] && o.env(w.clock + 1) == [];
    var (w1, a) := CallGet(o, w, t);
    assert w1.cluster == w.cluster;
    if a.Found? {
      var (w2, d) := CallDelete(o, w1, t);
      assert w2.cluster == if d == Deleted then AfterDelete(w.cluster, t) else w.cluster;
      assert d == AlreadyGone ==> t !in w.cluster;
    }
  }

  lemma {:induction false} DropHandles(
    o: Oracle, w: World, ts: seq<Resource>, owner: string, adopts: bool, r: Resource)
    requires QuietFrom(o, w.clock) && DropAll(o, w, ts, owner, adopts).1 == Clear
    requires Handled(w.cluster, r, owner, adopts) || (r in ts && !NetworkPolicyTemplate(r))
    ensures Handled(DropAll(o, w, ts, owner, adopts).0.cluster, r, owner, adopts)
    decreases |ts|
  {
    if ts != [] {
      if SkippedKind(ts[0]) {
        DropHandles(o, w, ts[1..], owner, adopts, r);
      } else {
        DropOneHandles(o, w, ts[0], owner, adopts, r);
        DropHandles(o, DropOne(o, w, ts[0], owner, adopts).0, ts[1..], owner, adopts, r);
      }
    }
  }

  /** Undisturbed, a completed plan leaves every template absent, terminating or foreign. */
  lemma TemplatesAreGone(o: Oracle, w: World, ts: seq<Task>, r: Resource)
    requires QuietFrom(o, w.clock) && ts != [] && ts[|ts| - 1].Drop? && RunPlan(o, w, ts).1 == Clear
    requires r in ts[|ts| - 1].templates && !NetworkPolicyTemplate(r)
    ensures Handled(RunPlan(o, w, ts).0.cluster, r, ts[|ts| - 1].owner, ts[|ts| - 1].adopts)
  {
    var n, drop := |ts| - 1, ts[|ts| - 1];
    ClearPrefix(o, w, ts, n);
    RunPlanSplit(o, w, ts, n);
    PlanClock(o, w, ts[..n]);
    var w1 := RunPlan(o, w, ts[..n]).0;
    assert ts[n..] == [drop];
    UnfoldLast(o, w1, drop);
    DropHandles(o, w1, drop.templates, drop.owner, drop.adopts, r);
  }

  lemma {:induction false} ClearPrefix(o: Oracle, w: World, ts: seq<Task>, k: nat)
    requires k <= |ts| && RunPlan(o, w, ts).1 == Clear
    ensures RunPlan(o, w, ts[..k]).1 == Clear
    decreases k
  {
    if k > 0 {
      assert ts[..k][1..] == ts[1..][..k - 1];
      ClearPrefix(o, RunTask(o, w, ts[0]).0, ts[1..], k - 1);
    }
  }

  lemma {:induction false} DropCompletes(o: Oracle, w: World, ts: seq<Resource>, owner: string, adopts: bool)
    requires AllHealthy(o)
    ensures DropAll(o, w, ts, owner, adopts).1 == Clear
    decreases |ts|
  {
    if ts != [] {
      if SkippedKind(ts[0]) {
        DropCompletes(o, w, ts[1..], owner, adopts);
      } else {
        DropCompletes(o, DropOne(o, w, ts[0], owner, adopts).0, ts[1..], owner, adopts);
      }
    }
  }

  /** With a healthy server and its InternalEngineComponent gone, a toggle-off completes, whatever
      others do; undisturbed, every template is then absent, terminating or foreign. */
  lemma ToggleOffCompletes(
    o: Oracle, w: World, c: Component, rs: seq<Resource>, owner: string, adopts: bool, r: Resource)
    requires AllHealthy(o) && Iec(c) !in w.cluster
    ensures var (w1, v) := RunPlan(o, w, ToggleOffPlan(c, rs, owner, adopts));
      && v == Clear
      && (QuietFrom(o, w.clock) && r in rs && !NetworkPolicyTemplate(r) ==> Handled(w1.cluster, r, owner, adopts))
  {
    var ts, drop := ToggleOffPlan(c, rs, owner, adopts), Drop(rs, owner, adopts);
    EmptySweepClears(o, w, [c]);
    UnfoldPlan(o, w, Sweep([c]), [drop]);
    var w1 := SweepAll(o, w, [c]).0;
    UnfoldLast(o, w1, drop);
    DropCompletes(o, w1, rs, owner, adopts);
    if QuietFrom(o, w.clock) && r in rs && !NetworkPolicyTemplate(r) {
      assert ts[|ts| - 1] == drop;
      TemplatesAreGone(o, w, ts, r);
    }
  }

  // ------------------------------------------------- resources deleted without waiting

  /** The log shows the resource missing when it was read, or deleted. */
  ghost predicate MissingOrDeleted(log: seq<Event>, start: nat, r: Resource) {
    exists j :: start <= j < |log| && (log[j].op == Get(r, NotFound) || log[j].op == Delete(r, Deleted))
  }

  /** In every pass that drops the finalizer the global-set namespace was found missing or deleted. */
  lemma UninstallCleansGlobalSet(o: Oracle, w: World, onOCP: bool)
    requires Pass(o, w, UninstallPlan(onOCP)).1
    ensures MissingOrDeleted(Pass(o, w, UninstallPlan(onOCP)).0.log, |w.log|, GlobalSetNamespace)
  {
    var ts := UninstallPlan(onOCP);
    var k: nat := if onOCP then 6 else 5;
    assert ts[k] == Clean(GlobalSetNamespace);
    CompletionSettles(o, w, ts, k, GlobalSetNamespace);
    var log := RunPlan(o, w, ts).0.log;
    var j :| |w.log| <= j < |log| && Settles(ts[k], GlobalSetNamespace, log[j].op);
    assert Pass(o, w, ts).0.log[j] == log[j];
  }

  /** On OpenShift, every pass that drops the finalizer has removed the console plugin. */
  lemma UninstallRemovesPlugin(o: Oracle, w: World)
    requires Pass(o, w, UninstallPlan(true)).1
    ensures var log := Pass(o, w, UninstallPlan(true)).0.log; exists j :: |w.log| <= j < |log| && log[j].op == Console(true)
  {
    var ts := UninstallPlan(true);
    assert ts[1] == ConsolePlugin;
    CompletionSettlesConsole(o, w, ts, 1);
    var log := RunPlan(o, w, ts).0.log;
    var j :| |w.log| <= j < |log| && log[j].op == Console(true);
    assert Pass(o, w, ts).0.log[j] == log[j];
  }

  /** In every completed cluster-manager toggle-off the ClusterManager was found missing or deleted. */
  lemma ClusterManagerIsCleaned(o: Oracle, w: World, rs: seq<Resource>, owner: string, adopts: bool)
    requires RunPlan(o, w, ClusterManagerOffPlan(rs, owner, adopts)).1 == Clear
    ensures MissingOrDeleted(RunPlan(o, w, ClusterManagerOffPlan(rs, owner, adopts)).0.log, |w.log|, ClusterManagerCR)
  {
    var ts := ClusterManagerOffPlan(rs, owner, adopts);
    assert ts[1] == Clean(ClusterManagerCR);
    CompletionSettles(o, w, ts, 1, ClusterManagerCR);
    var log := RunPlan(o, w, ts).0.log;
    var j :| |w.log| <= j < |log| && Settles(ts[1], ClusterManagerCR, log[j].op);
  }

  /** A resource only cleaning steps look at is deleted exactly when it was just found. */
  lemma CleanedExactlyWhenFound(o: Oracle, w: World, ts: seq<Task>, r: Resource, i: nat)
    requires !r.Iec? && forall t <- ts :: r in Reads(t) ==> t.Clean?
    requires |w.log| <= i < |RunPlan(o, w, ts).0.log|
    ensures var log := RunPlan(o, w, ts).0.log;
      && (FoundAt(log, i, r) ==> DeletionAt(log, i + 1, r))
      && (DeletionAt(log, i, r) ==> |w.log| < i && FoundAt(log, i - 1, r))
  {
    var log := RunPlan(o, w, ts).0.log;
    CallsAreDue(o, w, ts, i);
    var k :| 0 <= k < |ts| && MadeBy(log, |w.log|, i, ts[k]);
    assert ts[k] in ts;
  }

  lemma OnlyCleaned(onOCP: bool, rs: seq<Resource>, owner: string, adopts: bool)
    requires forall r <- rs :: r.Template?
    ensures forall t <- UninstallPlan(onOCP) :: GlobalSetNamespace in Reads(t) ==> t.Clean?
    ensures forall t <- ClusterManagerOffPlan(rs, owner, adopts) :: ClusterManagerCR in Reads(t) ==> t.Clean?
  {
  }
}
