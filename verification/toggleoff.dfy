/** Toggling a component off: when its templates may be deleted. */
module ToggleOff {
  import opened Names
  import opened ApiServer
  import opened Teardown
  import opened TeardownOrder
  import opened Uninstall

  predicate TemplateDeletion(e: Event) {
    e.op.Delete? && e.op.key.Template?
  }

  /** Plans whose only task that deletes templates is the last one. */
  predicate TemplatesLast(ts: seq<Task>) {
    && ts != []
    && ts[|ts| - 1].Drop?
    && forall k, r | 0 <= k < |ts| - 1 && r in Targets(ts[k]) :: !r.Template?
  }

  /** A template is deleted only after every earlier task has seen its resources gone, and
      while everything those tasks secure is absent. */
  lemma TemplatesWait(o: Oracle, w: World, ts: seq<Task>, i: nat)
    requires TemplatesLast(ts) && |w.log| <= i < |RunPlan(o, w, ts).0.log|
    requires TemplateDeletion(RunPlan(o, w, ts).0.log[i])
    ensures var log := RunPlan(o, w, ts).0.log; var before := ts[..|ts| - 1];
            && Absent(log[i].pre, SecuredBy({}, before))
            && forall s <- ProvidedBy(before) :: SeenGone(log, |w.log|, i, s)
  {
    var log := RunPlan(o, w, ts).0.log;
    DeletionsInOrder(o, w, ts, {}, i);
    var k :| 0 <= k < |ts| && DeletionOf(log, |w.log|, i, ts, {}, k);
    assert k == |ts| - 1;
  }

  lemma EarlierTaskCounts(ts: seq<Task>, k: nat, r: Resource)
    requires k < |ts| && r in Provides(ts[k])
    ensures r in ProvidedBy(ts)
    ensures Durable(r) && Guard(r).None? ==> r in SecuredBy({}, ts)
  {
    ProvidedSomewhere(ts, r);
    if Durable(r) && Guard(r).None? { UnguardedIsSecured({}, ts, r, k); }
  }

  lemma ComponentTemplatesWait(
      o: Oracle, w: World, c: Component, rs: seq<Resource>, owner: string, adopts: bool, i: nat)
    requires var log := RunPlan(o, w, ToggleOffPlan(c, rs, owner, adopts)).0.log;
             |w.log| <= i < |log| && TemplateDeletion(log[i])
    ensures var log := RunPlan(o, w, ToggleOffPlan(c, rs, owner, adopts)).0.log;
            Iec(c) !in log[i].pre && SeenGone(log, |w.log|, i, Iec(c))
  {
    var ts := ToggleOffPlan(c, rs, owner, adopts);
    TemplatesWait(o, w, ts, i);
    assert ts[..|ts| - 1] == [Sweep([c])];
    EarlierTaskCounts([Sweep([c])], 0, Iec(c));
  }

  lemma HyperShiftTemplatesWait(o: Oracle, w: World, rs: seq<Resource>, owner: string, adopts: bool, i: nat)
    requires var log := RunPlan(o, w, HyperShiftOffPlan(rs, owner, adopts)).0.log;
             |w.log| <= i < |log| && TemplateDeletion(log[i])
    ensures var log := RunPlan(o, w, HyperShiftOffPlan(rs, owner, adopts)).0.log;
            && Iec(HyperShift) !in log[i].pre && HypershiftAddon !in log[i].pre
            && SeenGone(log, |w.log|, i, Iec(HyperShift)) && SeenGone(log, |w.log|, i, HypershiftAddon)
  {
    var ts := HyperShiftOffPlan(rs, owner, adopts);
    TemplatesWait(o, w, ts, i);
    var before := [Sweep([HyperShift]), ADDON_GONE];
    assert ts[..|ts| - 1] == before;
    EarlierTaskCounts(before, 0, Iec(HyperShift));
    EarlierTaskCounts(before, 1, HypershiftAddon);
  }

  /** The hub namespace has been seen gone; unlike the InternalEngineComponent it need not
      still be gone (see HubMayReturnIff). */
  lemma ClusterManagerTemplatesWait(o: Oracle, w: World, rs: seq<Resource>, owner: string, adopts: bool, i: nat)
    requires var log := RunPlan(o, w, ClusterManagerOffPlan(rs, owner, adopts)).0.log;
             |w.log| <= i < |log| && TemplateDeletion(log[i])
    ensures var log := RunPlan(o, w, ClusterManagerOffPlan(rs, owner, adopts)).0.log;
            && Iec(ClusterManager) !in log[i].pre
            && SeenGone(log, |w.log|, i, Iec(ClusterManager)) && SeenGone(log, |w.log|, i, HubNamespace)
  {
    var ts := ClusterManagerOffPlan(rs, owner, adopts);
    TemplatesWait(o, w, ts, i);
    var before := [Sweep([ClusterManager]), Clean(ClusterManagerCR), HUB_GONE];
    assert ts[..|ts| - 1] == before;
    EarlierTaskCounts(before, 0, Iec(ClusterManager));
    EarlierTaskCounts(before, 2, HubNamespace);
  }

  // ------------------------------------------------- when the hub namespace stays gone

  /** Without a ClusterManager at the start nobody can bring the hub namespace back, so it is
      absent whenever a template is deleted and when the toggle-off completes. */
  lemma HubStaysGone(o: Oracle, w: World, rs: seq<Resource>, owner: string, adopts: bool)
    requires ClusterManagerCR !in w.cluster && forall r <- rs :: r.Template?
    ensures var (w1, v) := RunPlan(o, w, ClusterManagerOffPlan(rs, owner, adopts));
            && (v == Clear ==> HubNamespace !in w1.cluster)
            && forall i | |w.log| <= i < |w1.log| && TemplateDeletion(w1.log[i]) :: HubNamespace !in w1.log[i].pre
  {
    var ts := ClusterManagerOffPlan(rs, owner, adopts);
    var acc := {ClusterManagerCR};
    var (w1, v) := RunPlan(o, w, ts);
    HubSecured(rs, owner, adopts);
    if v == Clear { PlanSecures(o, w, ts, acc); }
    forall i | |w.log| <= i < |w1.log| && TemplateDeletion(w1.log[i]) ensures HubNamespace !in w1.log[i].pre {
      DeletionsInOrder(o, w, ts, acc, i);
      var k :| 0 <= k < |ts| && DeletionOf(w1.log, |w.log|, i, ts, acc, k);
      assert k == 3;
    }
  }

  lemma HubSecured(rs: seq<Resource>, owner: string, adopts: bool)
    ensures var ts := ClusterManagerOffPlan(rs, owner, adopts);
      HubNamespace in SecuredBy({ClusterManagerCR}, ts[..3]) && HubNamespace in SecuredBy({ClusterManagerCR}, ts)
  {
    var ts := ClusterManagerOffPlan(rs, owner, adopts);
    var acc := SecuredBy({ClusterManagerCR}, ts[..2]);
    SecuredByKeeps({ClusterManagerCR}, ts[..2]);
    assert HubNamespace in Secure(acc, HUB_GONE);
    SecuredBySplit({ClusterManagerCR}, ts[..3], 2);
    assert ts[..3][..2] == ts[..2] && ts[..3][2..] == [HUB_GONE] && [HUB_GONE][1..] == [];
    assert SecuredBy(acc, [HUB_GONE]) == SecuredBy(Secure(acc, HUB_GONE), []);
    SecuredByKeeps({ClusterManagerCR}, ts[..3]);
    SecuredByKeeps(SecuredBy({ClusterManagerCR}, ts[..3]), ts[3..]);
    SecuredBySplit({ClusterManagerCR}, ts, 3);
  }

  /** The toggle-off completes in this run, and the hub namespace is there. */
  ghost predicate HubBack(o: Oracle, w: World, rs: seq<Resource>, owner: string, adopts: bool) {
    var (w1, v) := RunPlan(o, w, ClusterManagerOffPlan(rs, owner, adopts));
    v == Clear && HubNamespace in w1.cluster
  }

  /** An InternalEngineComponent that is already terminating ends the call at once. */
  predicate SweepCanPass(c: Cluster) {
    Iec(ClusterManager) in c ==> !c[Iec(ClusterManager)].deleting
  }

  /** The toggle-off can complete with the hub namespace back exactly when a ClusterManager exists
      at the start and the InternalEngineComponent is not already terminating:
      ensureNoClusterManager does not wait for the ClusterManager itself. */
  lemma HubMayReturnIff(w: World, rs: seq<Resource>, owner: string, adopts: bool)
    requires forall r <- rs :: r.Template?
    ensures (exists o :: HubBack(o, w, rs, owner, adopts)) <==> ClusterManagerCR in w.cluster && SweepCanPass(w.cluster)
  {
    if ClusterManagerCR in w.cluster && SweepCanPass(w.cluster) {
      var o := HubReturns(w, rs, owner, adopts);
    }
    forall o | HubBack(o, w, rs, owner, adopts) ensures ClusterManagerCR in w.cluster && SweepCanPass(w.cluster) {
      if ClusterManagerCR !in w.cluster { HubStaysGone(o, w, rs, owner, adopts); }
      UnfoldPlan(o, w, Sweep([ClusterManager]), [Clean(ClusterManagerCR)] + ([HUB_GONE] + [Drop(rs, owner, adopts)]));
      UnfoldSweepOne(o, w, ClusterManager);
    }
  }

  const HELD := Obj(map[], {"held"}, false)

  /** After the sweep's last call, number `last`, the ClusterManager gets a finalizer; its deletion
      takes the hub namespace away, and the lookup that finds it gone brings it back. */
  ghost predicate Revives(o: Oracle, last: nat) {
    && o.env(last) == [Put(ClusterManagerCR, HELD)]
    && o.env(last + 1) == []
    && o.env(last + 2) == [Remove(HubNamespace)]
    && o.env(last + 3) == [Put(HubNamespace, HELD)]
    && (forall n | n > last + 3 :: o.env(n) == [])
  }

  lemma HubReturns(w: World, rs: seq<Resource>, owner: string, adopts: bool) returns (o: Oracle)
    requires ClusterManagerCR in w.cluster && SweepCanPass(w.cluster) && forall r <- rs :: r.Template?
    ensures HubBack(o, w, rs, owner, adopts)
  {
    var iec := Iec(ClusterManager);
    var last := if iec in w.cluster then w.clock + 2 else w.clock;
    o := Oracle(
      n => if n == last then [Put(ClusterManagerCR, HELD)]
           else if n == last + 2 then [Remove(HubNamespace)]
           else if n == last + 3 then [Put(HubNamespace, HELD)]
           else if n + 1 == last then [Remove(iec)]
           else [],
      (n, s) => Healthy, n => true);
    var drop := Drop(rs, owner, adopts);
    SweepHolds(o, w, last);
    UnfoldSweepOne(o, w, ClusterManager);
    var w1 := SweepOne(o, w, ClusterManager).0;
    UnfoldPlan(o, w, Sweep([ClusterManager]), [Clean(ClusterManagerCR)] + ([HUB_GONE] + [drop]));
    CleanHolds(o, w1, last);
    var w2 := CleanUp(o, w1, ClusterManagerCR).0;
    UnfoldPlan(o, w1, Clean(ClusterManagerCR), [HUB_GONE] + [drop]);
    WaitRevives(o, w2, last);
    var w3 := AwaitGone(o, w2, HubNamespace, false, false).0;
    UnfoldPlan(o, w2, HUB_GONE, [drop]);
    DropLeavesHub(o, w3, rs, owner, adopts);
    UnfoldLast(o, w3, drop);
  }

  lemma OneStep(c: Cluster, a: EnvAction)
    ensures EnvRun(c, [a]) == EnvStep(c, a)
  {
    assert [a][1..] == [];
  }

  lemma SweepHolds(o: Oracle, w: World, last: nat)
    requires AllHealthy(o) && Revives(o, last) && ClusterManagerCR in w.cluster && SweepCanPass(w.cluster)
    requires last == if Iec(ClusterManager) in w.cluster then w.clock + 2 else w.clock
    requires Iec(ClusterManager) in w.cluster ==> o.env(w.clock) == [] && o.env(w.clock + 1) == [Remove(Iec(ClusterManager))]
    ensures var (w1, v) := SweepOne(o, w, ClusterManager);
      v == Clear && w1.clock == last + 1 && ClusterManagerCR in w1.cluster && w1.cluster[ClusterManagerCR].finalizers == {"held"}
  {
    var iec := Iec(ClusterManager);
    if iec in w.cluster {
      var w1 := CallGet(o, w, iec).0;
      assert w1.cluster == w.cluster;
      var w2 := CallDelete(o, w1, iec).0;
      OneStep(AfterDelete(w1.cluster, iec), Remove(iec));
      OneStep(w2.cluster, Put(ClusterManagerCR, HELD));
    } else {
      OneStep(w.cluster, Put(ClusterManagerCR, HELD));
    }
  }

  lemma CleanHolds(o: Oracle, w: World, last: nat)
    requires AllHealthy(o) && Revives(o, last) && w.clock == last + 1
    requires ClusterManagerCR in w.cluster && w.cluster[ClusterManagerCR].finalizers != {}
    ensures var (w1, v) := CleanUp(o, w, ClusterManagerCR);
      v == Clear && w1.clock == last + 3 && ClusterManagerCR in w1.cluster && HubNamespace !in w1.cluster
  {
    var w1 := CallGet(o, w, ClusterManagerCR).0;
    assert w1.cluster == w.cluster;
    OneStep(AfterDelete(w1.cluster, ClusterManagerCR), Remove(HubNamespace));
  }

  lemma WaitRevives(o: Oracle, w: World, last: nat)
    requires AllHealthy(o) && Revives(o, last) && w.clock == last + 3
    requires ClusterManagerCR in w.cluster && HubNamespace !in w.cluster
    ensures var (w1, v) := AwaitGone(o, w, HubNamespace, false, false);
      v == Clear && HubNamespace in w1.cluster && forall n | n >= w1.clock :: o.env(n) == []
  {
    OneStep(w.cluster, Put(HubNamespace, HELD));
  }

  /** Deleting templates, answered and undisturbed, completes and leaves the namespace alone. */
  lemma {:induction false} DropLeavesHub(o: Oracle, w: World, rs: seq<Resource>, owner: string, adopts: bool)
    requires AllHealthy(o) && (forall n | n >= w.clock :: o.env(n) == []) && forall r <- rs :: r.Template?
    requires HubNamespace in w.cluster
    ensures var (w1, v) := DropAll(o, w, rs, owner, adopts); v == Clear && HubNamespace in w1.cluster
    decreases |rs|
  {
    if rs != [] {
      var w1 := if SkippedKind(rs[0]) then w else DropOne(o, w, rs[0], owner, adopts).0;
      assert rs[0].Template?;
      DropLeavesHub(o, w1, rs[1..], owner, adopts);
    }
  }
}
