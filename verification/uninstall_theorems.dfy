/** Safety of every uninstall run: of the finalizer removal, of the order of deletions and of what
    follows the removal. */
module UninstallTheorems {
  import opened Names
  import opened ApiServer
  import opened Teardown
  import opened TeardownOrder
  import opened TeardownEffects
  import opened Uninstall

  // --------------------------------------------------------------------- safety

  lemma UnfoldSecured(acc: set<Resource>, t: Task, rest: seq<Task>)
    ensures SecuredBy(acc, [t] + rest) == SecuredBy(Secure(acc, t), rest)
  {
    assert ([t] + rest)[1..] == rest;
  }

  /** The order of the checks secures exactly the required resources. */
  lemma PlanSecuresRequired(cs: seq<Component>, onOCP: bool)
    ensures SecuredBy({}, PlanFor(cs, onOCP)) == Required(cs)
  {
    var iecs := set c | c in cs :: Iec(c);
    UnfoldSecured({}, Sweep(cs), (if onOCP then [ConsolePlugin] else []) + NamespacePlan());
    assert Secure({}, Sweep(cs)) == iecs;
    if onOCP {
      UnfoldSecured(iecs, ConsolePlugin, NamespacePlan());
      assert Secure(iecs, ConsolePlugin) == iecs;
    } else {
      assert [] + NamespacePlan() == NamespacePlan();
    }
    NamespacePlanSecures(iecs);
  }

  lemma NamespacePlanSecures(iecs: set<Resource>)
    ensures SecuredBy(iecs, NamespacePlan()) ==
            iecs + {HypershiftAddon, LocalManagedCluster, ClusterManagerCR, HubNamespace, LocalClusterNamespace}
  {
    var addon := Await(HypershiftAddon, true, true);
    var mc := Await(LocalManagedCluster, true, false);
    assert NamespacePlan() == [addon] + ([mc] + HubPlan());
    UnfoldSecured(iecs, addon, [mc] + HubPlan());
    assert Secure(iecs, addon) == iecs + {HypershiftAddon};
    UnfoldSecured(iecs + {HypershiftAddon}, mc, HubPlan());
    var acc := iecs + {HypershiftAddon, LocalManagedCluster};
    assert Secure(iecs + {HypershiftAddon}, mc) == acc;
    HubPlanSecures(acc);
    assert acc + {ClusterManagerCR, HubNamespace, LocalClusterNamespace} ==
           iecs + {HypershiftAddon, LocalManagedCluster, ClusterManagerCR, HubNamespace, LocalClusterNamespace};
  }

  lemma HubPlanSecures(acc: set<Resource>)
    requires LocalManagedCluster in acc
    ensures SecuredBy(acc, HubPlan()) == acc + {ClusterManagerCR, HubNamespace, LocalClusterNamespace}
  {
    var cm := Await(ClusterManagerCR, true, false);
    var hub := Await(HubNamespace, false, false);
    var clean := Clean(GlobalSetNamespace);
    var ns := Await(LocalClusterNamespace, false, false);
    assert HubPlan() == [cm] + ([hub] + TailPlan());
    UnfoldSecured(acc, cm, [hub] + TailPlan());
    var s1 := acc + {ClusterManagerCR};
    assert Secure(acc, cm) == s1;
    UnfoldSecured(s1, hub, TailPlan());
    var s2 := s1 + {HubNamespace};
    assert Secure(s1, hub) == s2;
    UnfoldSecured(s2, clean, [ns]);
    assert Secure(s2, clean) == s2;
    assert [ns] == [ns] + [];
    UnfoldSecured(s2, ns, []);
    assert Secure(s2, ns) == s2 + {LocalClusterNamespace};
  }

  /** A deletion of r may only happen once everything before r is absent; the finalizer may
      only be dropped once everything required is absent. */
  predicate SafeEvent(cs: seq<Component>, e: Event) {
    match e.op
    case Delete(r, _) => Absent(e.pre, Earlier(cs, r))
    case DropFinalizer(_) => Absent(e.pre, Required(cs))
    case _ => true
  }

  /** Tasks never target a resource whose predecessors are not secured. */
  predicate Staged(cs: seq<Component>, acc: set<Resource>, ts: seq<Task>)
    decreases |ts|
  {
    ts == [] ||
    ((forall r <- Targets(ts[0]) :: Earlier(cs, r) <= acc) && Staged(cs, Secure(acc, ts[0]), ts[1..]))
  }

  lemma UnfoldStaged(cs: seq<Component>, acc: set<Resource>, t: Task, rest: seq<Task>)
    requires forall r <- Targets(t) :: Earlier(cs, r) <= acc
    requires Staged(cs, Secure(acc, t), rest)
    ensures Staged(cs, acc, [t] + rest)
  {
    assert ([t] + rest)[1..] == rest;
  }

  lemma {:induction false} StagedAt(cs: seq<Component>, acc: set<Resource>, ts: seq<Task>, k: nat, r: Resource)
    requires Staged(cs, acc, ts) && k < |ts| && r in Targets(ts[k])
    ensures Earlier(cs, r) <= SecuredBy(acc, ts[..k])
    decreases k
  {
    if k > 0 {
      assert ts[..k][1..] == ts[1..][..k - 1];
      StagedAt(cs, Secure(acc, ts[0]), ts[1..], k - 1, r);
    }
  }

  lemma PlanIsStaged(cs: seq<Component>, onOCP: bool)
    ensures Staged(cs, {}, PlanFor(cs, onOCP))
  {
    var iecs := set c | c in cs :: Iec(c);
    assert Secure({}, Sweep(cs)) == iecs;
    NamespacePlanIsStaged(cs, iecs);
    if onOCP {
      assert Secure(iecs, ConsolePlugin) == iecs;
      UnfoldStaged(cs, iecs, ConsolePlugin, NamespacePlan());
    } else {
      assert [] + NamespacePlan() == NamespacePlan();
    }
    UnfoldStaged(cs, {}, Sweep(cs), (if onOCP then [ConsolePlugin] else []) + NamespacePlan());
  }

  lemma NamespacePlanIsStaged(cs: seq<Component>, iecs: set<Resource>)
    requires iecs == set c | c in cs :: Iec(c)
    ensures Staged(cs, iecs, NamespacePlan())
  {
    var addon := Await(HypershiftAddon, true, true);
    var mc := Await(LocalManagedCluster, true, false);
    var s1 := Secure(iecs, addon);
    var s2 := Secure(s1, mc);
    assert HypershiftAddon in s1 && LocalManagedCluster in s2;
    HubPlanIsStaged(cs, s2);
    UnfoldStaged(cs, s1, mc, HubPlan());
    assert NamespacePlan() == [addon] + ([mc] + HubPlan());
    UnfoldStaged(cs, iecs, addon, [mc] + HubPlan());
  }

  lemma HubPlanIsStaged(cs: seq<Component>, acc: set<Resource>)
    requires (forall c <- cs :: Iec(c) in acc) && HypershiftAddon in acc && LocalManagedCluster in acc
    ensures Staged(cs, acc, HubPlan())
  {
    var cm := Await(ClusterManagerCR, true, false);
    var hub := Await(HubNamespace, false, false);
    var s1 := Secure(acc, cm);
    var s2 := Secure(s1, hub);
    assert ClusterManagerCR in s1 && HubNamespace in s2;
    TailPlanIsStaged(cs, s2);
    UnfoldStaged(cs, s1, hub, TailPlan());
    assert HubPlan() == [cm] + ([hub] + TailPlan());
    UnfoldStaged(cs, acc, cm, [hub] + TailPlan());
  }

  lemma TailPlanIsStaged(cs: seq<Component>, acc: set<Resource>)
    requires (forall c <- cs :: Iec(c) in acc) && HypershiftAddon in acc && LocalManagedCluster in acc
    requires ClusterManagerCR in acc && HubNamespace in acc
    ensures Staged(cs, acc, TailPlan())
  {
    var clean := Clean(GlobalSetNamespace);
    var ns := Await(LocalClusterNamespace, false, false);
    assert Staged(cs, Secure(acc, clean), [ns] + []);
    UnfoldStaged(cs, acc, clean, [ns] + []);
    assert TailPlan() == [clean] + ([ns] + []);
  }

  /** What the safety of a whole run needs of a plan. */
  predicate SafePlan(cs: seq<Component>, ts: seq<Task>) {
    Staged(cs, {}, ts) && Required(cs) <= SecuredBy({}, ts)
  }

  lemma UninstallPlanIsSafe(onOCP: bool)
    ensures SafePlan(INTERNAL_COMPONENTS, UninstallPlan(onOCP))
  {
    PlanIsStaged(INTERNAL_COMPONENTS, onOCP);
    PlanSecuresRequired(INTERNAL_COMPONENTS, onOCP);
  }

  lemma PassIsSafe(o: Oracle, w: World, cs: seq<Component>, ts: seq<Task>, i: nat)
    requires SafePlan(cs, ts) && |w.log| <= i < |Pass(o, w, ts).0.log|
    ensures SafeEvent(cs, Pass(o, w, ts).0.log[i])
  {
    var (w1, v) := RunPlan(o, w, ts);
    if i < |w1.log| {
      if w1.log[i].op.Delete? {
        DeletionsInOrder(o, w, ts, {}, i);
        var k :| 0 <= k < |ts| && DeletionOf(w1.log, |w.log|, i, ts, {}, k);
        StagedAt(cs, {}, ts, k, w1.log[i].op.key);
      } else {
        PlanNeverDrops(o, w, ts, i);
      }
    } else {
      PlanSecures(o, w, ts, {});
    }
  }

  lemma PlanNeverDrops(o: Oracle, w: World, ts: seq<Task>, i: nat)
    requires |w.log| <= i < |RunPlan(o, w, ts).0.log|
    ensures !RunPlan(o, w, ts).0.log[i].op.DropFinalizer?
  {
    CallsAreDue(o, w, ts, i);
  }

  lemma SafePlanHolds(o: Oracle, w: World, cs: seq<Component>, ts: seq<Task>)
    requires SafePlan(cs, ts) && Pass(o, w, ts).1
    ensures Absent(Pass(o, w, ts).0.cluster, Required(cs))
  {
    var w1 := RunPlan(o, w, ts).0;
    PlanSecures(o, w, ts, {});
    AbsentIsStable(w1.cluster, o.env(w1.clock), SecuredBy({}, ts));
  }

  /** The maestro namespace is only deleted after the finalizer is gone, and then still nothing
      required exists. */
  lemma TidyingIsSafe(o: Oracle, w: World, onOCP: bool, external: bool)
    ensures
      var ts := UninstallPlan(onOCP);
      var (w1, removed) := Pass(o, w, ts);
      var (w2, removed2) := TidyPass(o, w, ts, external);
      && removed2 == removed
      && w1.log <= w2.log && |w2.log| <= |w1.log| + 1
      && (removed && !external ==>
            && |w2.log| == |w1.log| + 1
            && w2.log[|w1.log|].op.Delete? && w2.log[|w1.log|].op.key == MaestroNamespace
            && w1.log != [] && w1.log[|w1.log| - 1].op == DropFinalizer(true)
            && SafeEvent(INTERNAL_COMPONENTS, w2.log[|w1.log|]))
      && (!removed || external ==> w2 == w1)
  {
    var ts := UninstallPlan(onOCP);
    UninstallPlanIsSafe(onOCP);
    if Pass(o, w, ts).1 { SafePlanHolds(o, w, INTERNAL_COMPONENTS, ts); }
  }

  lemma {:induction false} PassesGrow(o: Oracle, w: World, ts: seq<Task>, n: nat)
    ensures w.log <= Passes(o, w, ts, n).0.log
  {
    if n > 0 {
      PassesGrow(o, w, ts, n - 1);
      PlanKeeps(o, Passes(o, w, ts, n - 1).0, ts, {});
    }
  }

  lemma {:induction false} PassesAreSafe(o: Oracle, w: World, cs: seq<Component>, ts: seq<Task>, n: nat, i: nat)
    requires SafePlan(cs, ts) && |w.log| <= i < |Passes(o, w, ts, n).0.log|
    ensures SafeEvent(cs, Passes(o, w, ts, n).0.log[i])
  {
    if n > 0 {
      var (w1, removed) := Passes(o, w, ts, n - 1);
      PlanKeeps(o, w1, ts, {});
      if i < |w1.log| {
        PassesAreSafe(o, w, cs, ts, n - 1, i);
        assert Passes(o, w, ts, n).0.log[i] == w1.log[i];
      } else {
        PassIsSafe(o, w1, cs, ts, i);
      }
    }
  }

  /** What a safe event means, resource by resource. */
  lemma SafeEventMeans(cs: seq<Component>, e: Event)
    requires SafeEvent(cs, e)
    ensures e.op.DropFinalizer? ==>
      && (forall c <- cs :: Iec(c) !in e.pre)
      && HypershiftAddon !in e.pre && LocalManagedCluster !in e.pre && ClusterManagerCR !in e.pre
      && HubNamespace !in e.pre && LocalClusterNamespace !in e.pre
    ensures e.op.Delete? && !e.op.key.Iec? ==> forall c <- cs :: Iec(c) !in e.pre
    ensures e.op.Delete? && e.op.key == LocalManagedCluster ==> HypershiftAddon !in e.pre
    ensures e.op.Delete? && e.op.key == ClusterManagerCR ==> HypershiftAddon !in e.pre && LocalManagedCluster !in e.pre
    ensures e.op.Delete? && e.op.key == GlobalSetNamespace ==>
      && HypershiftAddon !in e.pre && LocalManagedCluster !in e.pre
      && ClusterManagerCR !in e.pre && HubNamespace !in e.pre
  {
    assert forall c <- cs :: Iec(c) in Required(cs);
    if e.op.Delete? { assert forall s <- Required(cs) :: Stage(s) < Stage(e.op.key) ==> s in Earlier(cs, e.op.key); }
  }

  /** In every run of any number of passes, whatever the other actors and the API server do,
      every deletion respects the uninstall order and the finalizer is only dropped when
      everything required is gone. */
  lemma UninstallIsSafe(o: Oracle, w: World, onOCP: bool, n: nat, i: nat)
    requires |w.log| <= i < |Passes(o, w, UninstallPlan(onOCP), n).0.log|
    ensures SafeEvent(INTERNAL_COMPONENTS, Passes(o, w, UninstallPlan(onOCP), n).0.log[i])
  {
    UninstallPlanIsSafe(onOCP);
    PassesAreSafe(o, w, INTERNAL_COMPONENTS, UninstallPlan(onOCP), n, i);
  }
}
