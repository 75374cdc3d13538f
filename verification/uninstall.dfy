/** The reconciler's teardown code: finalizeBackplaneConfig, the deletion branch of Reconcile
    and the ensureNo* functions, each refining a plan. */
module Uninstall {
  import opened Names
  import opened Labels
  import opened ApiServer
  import opened Teardown

  /** The order of checks of finalizeBackplaneConfig. */
  function UninstallPlan(onOCP: bool): seq<Task> {
    PlanFor(INTERNAL_COMPONENTS, onOCP)
  }

  function PlanFor(cs: seq<Component>, onOCP: bool): seq<Task> {
    [Sweep(cs)] + ((if onOCP then [ConsolePlugin] else []) + NamespacePlan())
  }

  function NamespacePlan(): seq<Task> {
    [Await(HypershiftAddon, true, true)] + [Await(LocalManagedCluster, true, false)] + HubPlan()
  }

  function HubPlan(): seq<Task> {
    [Await(ClusterManagerCR, true, false)] + [Await(HubNamespace, false, false)] + TailPlan()
  }

  function TailPlan(): seq<Task> {
    [Clean(GlobalSetNamespace)] + [Await(LocalClusterNamespace, false, false)]
  }

  const ADDON_GONE := Await(HypershiftAddon, false, true)
  const HUB_GONE := Await(HubNamespace, false, false)

  function ToggleOffPlan(c: Component, ts: seq<Resource>, owner: string, adopts: bool): seq<Task> {
    [Sweep([c])] + [Drop(ts, owner, adopts)]
  }

  function HyperShiftOffPlan(ts: seq<Resource>, owner: string, adopts: bool): seq<Task> {
    [Sweep([HyperShift])] + ([ADDON_GONE] + [Drop(ts, owner, adopts)])
  }

  function ClusterManagerOffPlan(ts: seq<Resource>, owner: string, adopts: bool): seq<Task> {
    [Sweep([ClusterManager])] + ([Clean(ClusterManagerCR)] + ([HUB_GONE] + [Drop(ts, owner, adopts)]))
  }

  /** Everything that must be gone before the finalizer goes. */
  function Required(cs: seq<Component>): set<Resource> {
    (set c | c in cs :: Iec(c)) +
    {HypershiftAddon, LocalManagedCluster, ClusterManagerCR, HubNamespace, LocalClusterNamespace}
  }

  /** The required resources that come before r in the uninstall order. */
  function Earlier(cs: seq<Component>, r: Resource): set<Resource> {
    set s | s in Required(cs) && Stage(s) < Stage(r)
  }

  function Stage(r: Resource): nat {
    match r
    case Iec(_) => 0
    case HypershiftAddon => 1
    case LocalManagedCluster => 2
    case ClusterManagerCR => 3
    case HubNamespace => 4
    case GlobalSetNamespace => 5
    case LocalClusterNamespace => 6
    case MaestroNamespace => 7
    case Template(_, _, _) => 8
  }

  /** One reconcile of a MultiClusterEngine that is being deleted. */
  function Pass(o: Oracle, w: World, plan: seq<Task>): (World, bool) {
    var (w1, v) := RunPlan(o, w, plan);
    if v == Clear then CallDropFinalizer(o, w1) else (w1, false)
  }

  /** A pass and what follows the removal of the finalizer: the maestro namespace is deleted unless
      maestro is externally managed; an error there does not bring the finalizer back. */
  function TidyPass(o: Oracle, w: World, plan: seq<Task>, external: bool): (World, bool) {
    var (w1, removed) := Pass(o, w, plan);
    if removed && !external then (CallDelete(o, w1, MaestroNamespace).0, true) else (w1, removed)
  }

  /** n reconciles; nothing is reconciled once the finalizer is removed. */
  function Passes(o: Oracle, w: World, plan: seq<Task>, n: nat): (World, bool) {
    if n == 0 then (w, false)
    else
      var (w1, removed) := Passes(o, w, plan, n - 1);
      if removed then (w1, true) else Pass(o, w1, plan)
  }

  // ------------------------------------------------------------ the reconciler

  function Outcome(requeue: bool, err: bool): Verdict {
    if err then Failed else if requeue then Waiting else Clear
  }

  class Reconciler {
    var world: World
    const oracle: Oracle
    const onOCP: bool

    constructor (world: World, oracle: Oracle, onOCP: bool)
      ensures this.world == world && this.oracle == oracle && this.onOCP == onOCP
    {
      this.world, this.oracle, this.onOCP := world, oracle, onOCP;
    }

    method ClientGet(r: Resource) returns (a: GetAnswer)
      modifies this`world
      ensures (world, a) == CallGet(oracle, old(world), r)
    {
      var answer := CallGet(oracle, world, r);
      world, a := answer.0, answer.1;
    }

    method ClientDelete(r: Resource) returns (d: DeleteAnswer)
      modifies this`world
      ensures (world, d) == CallDelete(oracle, old(world), r)
    {
      var answer := CallDelete(oracle, world, r);
      world, d := answer.0, answer.1;
    }

    method EnsureNoInternalEngineComponent(c: Component) returns (requeue: bool, err: bool)
      modifies this`world
      ensures (world, Outcome(requeue, err)) == SweepOne(oracle, old(world), c)
    {
      var iec := ClientGet(Iec(c));
      if !iec.Found? {
        return false, !iec.NotFound?;
      }
      if iec.obj.deleting {
        return true, false;
      }
      var deleted := ClientDelete(Iec(c));
      if deleted == DeleteErr {
        return false, true;
      }
      iec := ClientGet(Iec(c));
      if !iec.Found? {
        return false, !iec.NotFound?;
      }
      return true, false;
    }

    /** Collects errors and requeues of all components before deciding. */
    method EnsureNoEachInternalEngineComponent(components: seq<Component>) returns (requeue: bool, err: bool)
      modifies this`world
      ensures (world, Outcome(requeue, err)) == SweepAll(oracle, old(world), components)
    {
      var errs: set<Component> := {};
      var again := false;
      var i := 0;
      while i < |components|
        invariant 0 <= i <= |components|
        invariant
          var (w, v) := SweepAll(oracle, world, components[i..]);
          (w, Worst(Outcome(again, errs != {}), v)) == SweepAll(oracle, old(world), components)
      {
        var c := components[i];
        var r, e := EnsureNoInternalEngineComponent(c);
        if r {
          again := true;
        }
        if e {
          errs := errs + {c};
        }
        assert components[i..][1..] == components[i + 1..];
        i := i + 1;
      }
      return again && errs == {}, errs != {};
    }

    method EnsureNoAllInternalEngineComponents() returns (requeue: bool, err: bool)
      modifies this`world
      ensures (world, Outcome(requeue, err)) == SweepAll(oracle, old(world), INTERNAL_COMPONENTS)
    {
      requeue, err := EnsureNoEachInternalEngineComponent(INTERNAL_COMPONENTS);
    }

    /** Gets r and, if it exists, deletes it and reports an error so that the caller waits. */
    method DeleteAndWait(r: Resource, noMatchOk: bool) returns (err: bool)
      modifies this`world
      ensures world == AwaitGone(oracle, old(world), r, true, noMatchOk).0
      ensures err <==> AwaitGone(oracle, old(world), r, true, noMatchOk).1 != Clear
    {
      var a := ClientGet(r);
      if a.Found? {
        var _ := ClientDelete(r);
        return true;
      }
      return !(a.NotFound? || (a.NoMatch? && noMatchOk));
    }

    /** Waits for a namespace that somebody else deletes. */
    method WaitForNamespace(r: Resource) returns (err: bool)
      modifies this`world
      ensures world == AwaitGone(oracle, old(world), r, false, false).0
      ensures err <==> AwaitGone(oracle, old(world), r, false, false).1 != Clear
    {
      var a := ClientGet(r);
      return !a.NotFound?;
    }

    /** Deletes r if it exists, without waiting for it. */
    method CleanResource(r: Resource) returns (err: bool)
      modifies this`world
      ensures world == CleanUp(oracle, old(world), r).0
      ensures err <==> CleanUp(oracle, old(world), r).1 != Clear
    {
      var a := ClientGet(r);
      if a.Found? {
        var d := ClientDelete(r);
        return d != Deleted;
      }
      return !a.NotFound?;
    }

    method FinalizeBackplaneConfig() returns (requeue: bool, err: bool)
      modifies this`world
      ensures world == RunPlan(oracle, old(world), UninstallPlan(onOCP)).0
      ensures (!requeue && !err) <==> RunPlan(oracle, old(world), UninstallPlan(onOCP)).1 == Clear
    {
      UnfoldUninstall(oracle, world, INTERNAL_COMPONENTS, onOCP);
      requeue, err := EnsureNoAllInternalEngineComponents();
      if err || requeue {
        return;
      }
      if onOCP {
        var console := CallConsole(oracle, world);
        world := console.0;
        if !console.1 {
          return false, true;
        }
      }
      UnfoldNamespaces(oracle, world);
      err := DeleteAndWait(HypershiftAddon, true);
      if err { return; }
      UnfoldNamespaces(oracle, world);
      err := DeleteAndWait(LocalManagedCluster, false);
      if err { return; }
      UnfoldHub(oracle, world);
      err := DeleteAndWait(ClusterManagerCR, false);
      if err { return; }
      UnfoldHub(oracle, world);
      err := WaitForNamespace(HubNamespace);
      if err { return; }
      UnfoldTail(oracle, world);
      err := CleanResource(GlobalSetNamespace);
      if err { return; }
      UnfoldTail(oracle, world);
      err := WaitForNamespace(LocalClusterNamespace);
    }

    /** Deletes a template's object unless it belongs to another MultiClusterEngine. */
    method DeleteTemplate(t: Resource, owner: string, adopts: bool) returns (err: bool)
      modifies this`world
      ensures world == DropOne(oracle, old(world), t, owner, adopts).0
      ensures err <==> DropOne(oracle, old(world), t, owner, adopts).1 != Clear
    {
      var a := ClientGet(t);
      if a.NotFound? || a.NoMatch? {
        return false;
      }
      if !a.Found? {
        return true;
      }
      if !MayManage(a.obj.labels, owner, adopts) {
        return false;
      }
      var d := ClientDelete(t);
      return d == DeleteErr;
    }

    method DeleteTemplates(ts: seq<Resource>, owner: string, adopts: bool) returns (err: bool)
      modifies this`world
      ensures world == DropAll(oracle, old(world), ts, owner, adopts).0
      ensures err <==> DropAll(oracle, old(world), ts, owner, adopts).1 != Clear
    {
      var i := 0;
      while i < |ts|
        invariant 0 <= i <= |ts|
        invariant DropAll(oracle, world, ts[i..], owner, adopts) == DropAll(oracle, old(world), ts, owner, adopts)
      {
        assert ts[i..][1..] == ts[i + 1..];
        if !SkippedKind(ts[i]) {
          err := DeleteTemplate(ts[i], owner, adopts);
          if err { return; }
        }
        i := i + 1;
      }
      err := false;
    }

    /** The common ensureNo* shape: InternalEngineComponent first, templates last. */
    method EnsureNoComponent(c: Component, rendered: Option<seq<Resource>>, owner: string, adopts: bool)
      returns (requeue: bool, err: bool)
      modifies this`world
      ensures rendered.Some? ==>
        var (w, v) := RunPlan(oracle, old(world), ToggleOffPlan(c, rendered.value, owner, adopts));
        world == w && ((!requeue && !err) <==> v == Clear)
      ensures rendered.None? ==> world == SweepAll(oracle, old(world), [c]).0 && (requeue || err)
    {
      UnfoldSweepOne(oracle, world, c);
      requeue, err := EnsureNoInternalEngineComponent(c);
      if rendered.None? {
        return true, err;
      }
      UnfoldPlan(oracle, old(world), Sweep([c]), [Drop(rendered.value, owner, adopts)]);
      if requeue || err {
        return;
      }
      UnfoldLast(oracle, world, Drop(rendered.value, owner, adopts));
      err := DeleteTemplates(rendered.value, owner, adopts);
    }

    /** HyperShift additionally waits for the hypershift-addon to be gone. */
    method EnsureNoHyperShift(rendered: Option<seq<Resource>>, owner: string, adopts: bool)
      returns (requeue: bool, err: bool)
      modifies this`world
      ensures rendered.Some? ==>
        var (w, v) := RunPlan(oracle, old(world), HyperShiftOffPlan(rendered.value, owner, adopts));
        world == w && ((!requeue && !err) <==> v == Clear)
      ensures rendered.None? ==>
        world == RunPlan(oracle, old(world), [Sweep([HyperShift])] + [ADDON_GONE]).0 && (requeue || err)
    {
      var drop := if rendered.Some? then [Drop(rendered.value, owner, adopts)] else [];
      UnfoldSweepOne(oracle, world, HyperShift);
      UnfoldPlan(oracle, world, Sweep([HyperShift]), [ADDON_GONE] + drop);
      assert [ADDON_GONE] + [] == [ADDON_GONE];
      requeue, err := EnsureNoInternalEngineComponent(HyperShift);
      if requeue || err {
        return;
      }
      UnfoldPlan(oracle, world, ADDON_GONE, drop);
      var a := ClientGet(HypershiftAddon);
      if !(a.NotFound? || a.NoMatch?) || rendered.None? {
        return true, false;
      }
      UnfoldLast(oracle, world, drop[0]);
      err := DeleteTemplates(rendered.value, owner, adopts);
    }

    /** Cluster manager: delete the ClusterManager, then wait for the hub namespace. */
    method EnsureNoClusterManager(rendered: Option<seq<Resource>>, owner: string, adopts: bool)
      returns (requeue: bool, err: bool)
      modifies this`world
      ensures rendered.Some? ==>
        var (w, v) := RunPlan(oracle, old(world), ClusterManagerOffPlan(rendered.value, owner, adopts));
        world == w && ((!requeue && !err) <==> v == Clear)
      ensures rendered.None? ==> world == SweepAll(oracle, old(world), [ClusterManager]).0 && (requeue || err)
    {
      UnfoldSweepOne(oracle, world, ClusterManager);
      requeue, err := EnsureNoInternalEngineComponent(ClusterManager);
      if rendered.None? {
        return true, err;
      }
      var drop := Drop(rendered.value, owner, adopts);
      UnfoldPlan(oracle, old(world), Sweep([ClusterManager]), [Clean(ClusterManagerCR)] + ([HUB_GONE] + [drop]));
      if requeue || err {
        return;
      }
      UnfoldPlan(oracle, world, Clean(ClusterManagerCR), [HUB_GONE] + [drop]);
      err := CleanResource(ClusterManagerCR);
      if err { return; }
      UnfoldPlan(oracle, world, HUB_GONE, [drop]);
      err := WaitForNamespace(HubNamespace);
      if err { return; }
      UnfoldLast(oracle, world, drop);
      err := DeleteTemplates(rendered.value, owner, adopts);
    }

    /** `err` is what Reconcile returns; a stopped finalization is only requeued. */
    method ReconcileDeletion(external: bool) returns (removed: bool, err: bool)
      modifies this`world
      ensures (world, removed) == TidyPass(oracle, old(world), UninstallPlan(onOCP), external)
    {
      var requeue, stopped := FinalizeBackplaneConfig();
      if stopped || requeue {
        return false, false;
      }
      var update := CallDropFinalizer(oracle, world);
      world, removed := update.0, update.1;
      if !removed {
        return false, true;
      }
      err := false;
      if !external {
        var deleted := ClientDelete(MaestroNamespace);
        err := deleted == DeleteErr;
      }
    }
  }

  lemma UnfoldPlan(o: Oracle, w: World, t: Task, rest: seq<Task>)
    ensures RunPlan(o, w, [t] + rest) ==
            var (w1, v) := RunTask(o, w, t); if v != Clear then (w1, v) else RunPlan(o, w1, rest)
  {
    assert ([t] + rest)[1..] == rest;
  }

  lemma UnfoldLast(o: Oracle, w: World, t: Task)
    ensures RunPlan(o, w, [t]) == RunTask(o, w, t)
  {
    assert [t][1..] == [];
  }

  lemma UnfoldSweepOne(o: Oracle, w: World, c: Component)
    ensures SweepAll(o, w, [c]) == SweepOne(o, w, c)
  {
    assert [c][1..] == [];
  }

  lemma UnfoldUninstall(o: Oracle, w: World, cs: seq<Component>, onOCP: bool)
    ensures RunPlan(o, w, PlanFor(cs, onOCP)) ==
            var (w1, v) := SweepAll(o, w, cs);
            if v != Clear then (w1, v)
            else if !onOCP then RunPlan(o, w1, NamespacePlan())
            else
              var (w2, ok) := CallConsole(o, w1);
              if ok then RunPlan(o, w2, NamespacePlan()) else (w2, Failed)
  {
    UnfoldPlan(o, w, Sweep(cs), (if onOCP then [ConsolePlugin] else []) + NamespacePlan());
    if onOCP {
      UnfoldPlan(o, SweepAll(o, w, cs).0, ConsolePlugin, NamespacePlan());
    } else {
      assert [] + NamespacePlan() == NamespacePlan();
    }
  }

  lemma UnfoldNamespaces(o: Oracle, w: World)
    ensures RunPlan(o, w, NamespacePlan()) ==
            var (w1, v) := AwaitGone(o, w, HypershiftAddon, true, true);
            if v != Clear then (w1, v) else RunPlan(o, w1, [Await(LocalManagedCluster, true, false)] + HubPlan())
    ensures RunPlan(o, w, [Await(LocalManagedCluster, true, false)] + HubPlan()) ==
            var (w1, v) := AwaitGone(o, w, LocalManagedCluster, true, false);
            if v != Clear then (w1, v) else RunPlan(o, w1, HubPlan())
  {
    var rest := [Await(LocalManagedCluster, true, false)] + HubPlan();
    assert NamespacePlan() == [Await(HypershiftAddon, true, true)] + rest;
    UnfoldPlan(o, w, Await(HypershiftAddon, true, true), rest);
    UnfoldPlan(o, w, Await(LocalManagedCluster, true, false), HubPlan());
  }

  lemma UnfoldHub(o: Oracle, w: World)
    ensures RunPlan(o, w, HubPlan()) ==
            var (w1, v) := AwaitGone(o, w, ClusterManagerCR, true, false);
            if v != Clear then (w1, v) else RunPlan(o, w1, [Await(HubNamespace, false, false)] + TailPlan())
    ensures RunPlan(o, w, [Await(HubNamespace, false, false)] + TailPlan()) ==
            var (w1, v) := AwaitGone(o, w, HubNamespace, false, false);
            if v != Clear then (w1, v) else RunPlan(o, w1, TailPlan())
  {
    var rest := [Await(HubNamespace, false, false)] + TailPlan();
    assert HubPlan() == [Await(ClusterManagerCR, true, false)] + rest;
    UnfoldPlan(o, w, Await(ClusterManagerCR, true, false), rest);
    UnfoldPlan(o, w, Await(HubNamespace, false, false), TailPlan());
  }

  lemma UnfoldTail(o: Oracle, w: World)
    ensures RunPlan(o, w, TailPlan()) ==
            var (w1, v) := CleanUp(o, w, GlobalSetNamespace);
            if v != Clear then (w1, v) else RunPlan(o, w1, [Await(LocalClusterNamespace, false, false)])
    ensures RunPlan(o, w, [Await(LocalClusterNamespace, false, false)]) ==
            AwaitGone(o, w, LocalClusterNamespace, false, false)
  {
    var last := [Await(LocalClusterNamespace, false, false)];
    UnfoldPlan(o, w, Clean(GlobalSetNamespace), last);
    assert last == last + [];
    UnfoldPlan(o, w, last[0], []);
  }
}
