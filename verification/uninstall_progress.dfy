/** Progress of the uninstall: what is pending never grows, no component holds up another,
    every pass moves something along, and fair environments see the finalizer removed. */
module UninstallProgress {
  import opened Names
  import opened ApiServer
  import opened Teardown
  import opened TeardownOrder
  import opened Uninstall
  import opened UninstallTheorems

  // -------------------------------------------------------------- exact ordering

  lemma {:induction false} SecuredIsProvided(acc: set<Resource>, ts: seq<Task>)
    ensures SecuredBy(acc, ts) <= acc + ProvidedBy(ts)
    decreases |ts|
  {
    if ts != [] { SecuredIsProvided(Secure(acc, ts[0]), ts[1..]); }
  }

  /** A namespace is secured exactly when its owner is awaited before it. */
  lemma NamespaceSecuredIff(ts: seq<Task>, i: nat)
    requires Proper(ts) && i < |ts| && ts[i].Await? && Guard(ts[i].target).Some?
    ensures ts[i].target in SecuredBy({}, ts) <==>
            exists j :: 0 <= j < i && Guard(ts[i].target).value in Provides(ts[j])
  {
    var r, g := ts[i].target, Guard(ts[i].target).value;
    var acc := SecuredBy({}, ts[..i]);
    SecuredBySplit({}, ts, i);
    SecuredByKeeps({}, ts[..i]);
    assert ts[i..][1..] == ts[i + 1..];
    if j :| 0 <= j < i && g in Provides(ts[j]) {
      assert ts[..i][j] == ts[j];
      UnguardedIsSecured({}, ts[..i], g, j);
      SecuredByKeeps(Secure(acc, ts[i]), ts[i + 1..]);
    }
    if r in SecuredBy({}, ts) {
      SecuredIsProvided(Secure(acc, ts[i]), ts[i + 1..]);
      ProvidedSomewhere(ts[i + 1..], r);
      SecuredIsProvided({}, ts[..i]);
      ProvidedSomewhere(ts[..i], r);
      ProvidedSomewhere(ts[..i], g);
      if j :| 0 <= j < i && g in Provides(ts[..i][j]) { assert g in Provides(ts[j]); }
    }
  }

  /** With any other order some run drops the finalizer while the namespace exists. */
  lemma WrongOrderIsUnsafe(ts: seq<Task>, i: nat) returns (o: Oracle, w: World)
    requires Proper(ts) && i < |ts| && ts[i].Await? && Guard(ts[i].target).Some?
    requires forall j | 0 <= j < i :: Guard(ts[i].target).value !in Provides(ts[j])
    ensures
      var (w1, removed) := Pass(o, w, ts);
      removed && w1.log != [] && w1.log[|w1.log| - 1].op == DropFinalizer(true) &&
      ts[i].target in w1.log[|w1.log| - 1].pre
  {
    NamespaceSecuredIff(ts, i);
    ProvidedSomewhere(ts, ts[i].target);
    o, w := UnsecuredCanReturn(ts, ts[i].target);
  }

  // --------------------------------------------------------------------- pending

  /** Required resources that exist or can still be recreated by an existing owner. */
  function Pending(cs: seq<Component>, c: Cluster): set<Resource> {
    set r | r in Required(cs) && (r in c || (Guard(r).Some? && Guard(r).value in c))
  }

  /** Nothing ever becomes pending again. */
  lemma PendingShrinks(o: Oracle, w: World, cs: seq<Component>, ts: seq<Task>)
    ensures Pending(cs, RunPlan(o, w, ts).0.cluster) <= Pending(cs, w.cluster)
    ensures Pending(cs, Pass(o, w, ts).0.cluster) <= Pending(cs, w.cluster)
  {
    var gone := Required(cs) - Pending(cs, w.cluster);
    PlanKeeps(o, w, ts, gone);
    var w1 := RunPlan(o, w, ts).0;
    AbsentIsStable(w1.cluster, o.env(w1.clock), gone);
    AbsentBoundsPending(cs, w.cluster, w1.cluster);
    AbsentBoundsPending(cs, w.cluster, EnvRun(w1.cluster, o.env(w1.clock)));
  }

  lemma AbsentBoundsPending(cs: seq<Component>, c: Cluster, c': Cluster)
    requires Absent(c', Required(cs) - Pending(cs, c))
    ensures Pending(cs, c') <= Pending(cs, c)
  {
    forall r <- Pending(cs, c') ensures r in Pending(cs, c) {
      var gone := Required(cs) - Pending(cs, c);
      if r in c' {
        assert r !in gone;
      } else {
        assert Guard(r).value !in gone;
      }
    }
  }

  lemma {:induction false} PassesPending(o: Oracle, w: World, cs: seq<Component>, ts: seq<Task>, m: nat, n: nat)
    requires m <= n
    ensures Pending(cs, Passes(o, w, ts, n).0.cluster) <= Pending(cs, Passes(o, w, ts, m).0.cluster)
    ensures Passes(o, w, ts, m).1 ==> Passes(o, w, ts, n).1
    decreases n
  {
    if m < n {
      PassesPending(o, w, cs, ts, m, n - 1);
      PendingShrinks(o, Passes(o, w, ts, n - 1).0, cs, ts);
    }
  }

  // ------------------------------------------------------------- one sweep of IECs

  lemma CallsKeepLeaving(o: Oracle, w: World, s: Resource, r: Resource)
    requires Durable(r) && Guard(r).None? && Leaving(w.cluster, r)
    ensures Leaving(CallGet(o, w, s).0.cluster, r) && Leaving(CallDelete(o, w, s).0.cluster, r)
  {
    LeavingIsStable(w.cluster, o.env(w.clock), r);
    LeavingIsStable(AfterDelete(w.cluster, s), o.env(w.clock), r);
  }

  lemma SweepOneKeepsLeaving(o: Oracle, w: World, c: Component, r: Resource)
    requires Durable(r) && Guard(r).None? && Leaving(w.cluster, r)
    ensures Leaving(SweepOne(o, w, c).0.cluster, r)
  {
    CallsKeepLeaving(o, w, Iec(c), r);
    var w1 := CallGet(o, w, Iec(c)).0;
    CallsKeepLeaving(o, w1, Iec(c), r);
    CallsKeepLeaving(o, CallDelete(o, w1, Iec(c)).0, Iec(c), r);
  }

  lemma {:induction false} SweepKeepsLeaving(o: Oracle, w: World, cs: seq<Component>, r: Resource)
    requires Durable(r) && Guard(r).None? && Leaving(w.cluster, r)
    ensures Leaving(SweepAll(o, w, cs).0.cluster, r)
    decreases |cs|
  {
    if cs != [] {
      SweepOneKeepsLeaving(o, w, cs[0], r);
      SweepKeepsLeaving(o, SweepOne(o, w, cs[0]).0, cs[1..], r);
    }
  }

  /** A deletion that the server accepts leaves the object terminating or gone. */
  lemma DeleteMarks(o: Oracle, w: World, r: Resource)
    requires Durable(r) && Guard(r).None? && o.fault(w.clock, r) != Broken
    ensures Leaving(CallDelete(o, w, r).0.cluster, r)
  {
    LeavingIsStable(AfterDelete(w.cluster, r), o.env(w.clock), r);
  }

  lemma SweepOneMarks(o: Oracle, w: World, c: Component)
    requires forall n | n >= w.clock :: o.fault(n, Iec(c)) == Healthy
    ensures Leaving(SweepOne(o, w, c).0.cluster, Iec(c))
  {
    var (w1, a) := CallGet(o, w, Iec(c));
    if a.NotFound? || (a.Found? && a.obj.deleting) {
      CallsKeepLeaving(o, w, Iec(c), Iec(c));
    } else {
      DeleteMarks(o, w1, Iec(c));
      CallsKeepLeaving(o, CallDelete(o, w1, Iec(c)).0, Iec(c), Iec(c));
    }
  }

  /** Errors and stuck finalizers of other components never keep an InternalEngineComponent
      from being deleted. */
  lemma {:induction false} SweepMarksEach(o: Oracle, w: World, cs: seq<Component>, c: Component)
    requires c in cs && forall n | n >= w.clock :: o.fault(n, Iec(c)) == Healthy
    ensures Leaving(SweepAll(o, w, cs).0.cluster, Iec(c))
    decreases |cs|
  {
    var w1 := SweepOne(o, w, cs[0]).0;
    if c == cs[0] {
      SweepOneMarks(o, w, c);
      SweepKeepsLeaving(o, w1, cs[1..], Iec(c));
    } else {
      SweepMarksEach(o, w1, cs[1..], c);
    }
  }

  /** From call number `start` on every call is answered, except that the addon's kind need not be
      registered. */
  ghost predicate Responsive(o: Oracle, start: nat) {
    && (forall n, r | n >= start :: o.fault(n, r) == Healthy || (r == HypershiftAddon && o.fault(n, r) == NoKind))
    && (forall n | n >= start :: o.plain(n))
  }

  lemma {:induction false} EmptySweepClears(o: Oracle, w: World, cs: seq<Component>)
    requires Responsive(o, w.clock) && forall c <- cs :: Iec(c) !in w.cluster
    ensures SweepAll(o, w, cs).1 == Clear
    decreases |cs|
  {
    if cs != [] {
      var iecs := set c | c in cs :: Iec(c);
      SweepKeeps(o, w, [cs[0]], iecs);
      assert SweepAll(o, w, [cs[0]]).0 == SweepOne(o, w, cs[0]).0;
      forall c <- cs[1..] ensures Iec(c) !in SweepOne(o, w, cs[0]).0.cluster { assert Iec(c) in iecs; }
      EmptySweepClears(o, SweepOne(o, w, cs[0]).0, cs[1..]);
    }
  }

  // ------------------------------------------------------------------- every pass

  /** On its way out: a namespace whose owner is gone, or anything else marked for deletion. */
  predicate Terminating(c: Cluster, r: Resource) {
    r in c && if Guard(r).Some? then Guard(r).value !in c else c[r].deleting
  }

  predicate Advanced(cs: seq<Component>, c: Cluster, c': Cluster, r: Resource) {
    r in Pending(cs, c) && (r in Pending(cs, c') ==> Terminating(c', r))
  }

  /** The global-set namespace vanished between its lookup and its deletion. */
  predicate Raced(w: World) {
    w.log != [] && w.log[|w.log| - 1].op == Delete(GlobalSetNamespace, AlreadyGone)
  }

  predicate Drivable(cs: seq<Component>, acc: set<Resource>, t: Task) {
    && Provides(t) <= Required(cs)
    && !t.Drop?
    && (t.Clean? ==> t.target == GlobalSetNamespace)
    && (t.Await? ==> (t.noMatchOk <==> t.target == HypershiftAddon))
    && (t.Await? && t.deletes ==> Guard(t.target).None?)
    && (t.Await? && !t.deletes ==> Guard(t.target).Some? && Guard(t.target).value in acc)
  }

  predicate DrivablePlan(cs: seq<Component>, acc: set<Resource>, ts: seq<Task>)
    decreases |ts|
  {
    ts == [] || (Drivable(cs, acc, ts[0]) && DrivablePlan(cs, Secure(acc, ts[0]), ts[1..]))
  }

  lemma TaskAdvances(o: Oracle, w: World, cs: seq<Component>, t: Task, acc: set<Resource>)
    requires Responsive(o, w.clock) && Closed(acc) && Absent(w.cluster, acc) && Drivable(cs, acc, t)
    requires RunTask(o, w, t).1 != Clear
    ensures var w' := RunTask(o, w, t).0; Raced(w') || exists r :: Advanced(cs, w.cluster, w'.cluster, r)
  {
    var w' := RunTask(o, w, t).0;
    match t
    case Sweep(components) =>
      if forall c <- components :: Iec(c) !in w.cluster { EmptySweepClears(o, w, components); }
      var c :| c in components && Iec(c) in w.cluster;
      SweepMarksEach(o, w, components, c);
      assert Iec(c) in Provides(t);
      assert Advanced(cs, w.cluster, w'.cluster, Iec(c));
    case Await(r, deletes, _) =>
      assert r in Provides(t);
      if deletes {
        DeleteMarks(o, CallGet(o, w, r).0, r);
      } else {
        TaskKeeps(o, w, t, acc);
      }
      assert Advanced(cs, w.cluster, w'.cluster, r);
    case _ =>
  }

  lemma {:induction false} SweepClock(o: Oracle, w: World, cs: seq<Component>)
    ensures SweepAll(o, w, cs).0.clock >= w.clock
    decreases |cs|
  {
    if cs != [] { SweepClock(o, SweepOne(o, w, cs[0]).0, cs[1..]); }
  }

  lemma {:induction false} DropClock(o: Oracle, w: World, rs: seq<Resource>, owner: string, adopts: bool)
    ensures DropAll(o, w, rs, owner, adopts).0.clock >= w.clock
    decreases |rs|
  {
    if rs != [] {
      if SkippedKind(rs[0]) { DropClock(o, w, rs[1..], owner, adopts); }
      else { DropClock(o, DropOne(o, w, rs[0], owner, adopts).0, rs[1..], owner, adopts); }
    }
  }

  lemma TaskClock(o: Oracle, w: World, t: Task)
    ensures RunTask(o, w, t).0.clock >= w.clock
  {
    match t
    case Sweep(cs) => SweepClock(o, w, cs);
    case Drop(rs, owner, adopts) => DropClock(o, w, rs, owner, adopts);
    case _ =>
  }

  lemma {:induction false} PlanClock(o: Oracle, w: World, ts: seq<Task>)
    ensures RunPlan(o, w, ts).0.clock >= w.clock
    decreases |ts|
  {
    if ts != [] {
      TaskClock(o, w, ts[0]);
      PlanClock(o, RunTask(o, w, ts[0]).0, ts[1..]);
    }
  }

  lemma {:induction false} PassesClock(o: Oracle, w: World, ts: seq<Task>, n: nat)
    ensures Passes(o, w, ts, n).0.clock >= w.clock
  {
    if n > 0 {
      PassesClock(o, w, ts, n - 1);
      PlanClock(o, Passes(o, w, ts, n - 1).0, ts);
    }
  }

  lemma {:induction false} PlanAdvances(o: Oracle, w: World, cs: seq<Component>, ts: seq<Task>, acc: set<Resource>)
    requires Responsive(o, w.clock) && Closed(acc) && Absent(w.cluster, acc) && DrivablePlan(cs, acc, ts)
    requires RunPlan(o, w, ts).1 != Clear
    ensures var w' := RunPlan(o, w, ts).0; Raced(w') || exists r :: Advanced(cs, w.cluster, w'.cluster, r)
    decreases |ts|
  {
    var (w1, v) := RunTask(o, w, ts[0]);
    if v != Clear {
      TaskAdvances(o, w, cs, ts[0], acc);
    } else {
      TaskSecures(o, w, ts[0], acc);
      TaskClock(o, w, ts[0]);
      PlanAdvances(o, w1, cs, ts[1..], Secure(acc, ts[0]));
      var w' := RunPlan(o, w, ts).0;
      if !Raced(w') {
        var r :| Advanced(cs, w1.cluster, w'.cluster, r);
        assert RunPlan(o, w, [ts[0]]).0 == w1;
        PendingShrinks(o, w, cs, [ts[0]]);
        assert Advanced(cs, w.cluster, w'.cluster, r);
      }
    }
  }

  lemma UnfoldDrivable(cs: seq<Component>, acc: set<Resource>, t: Task, rest: seq<Task>)
    requires Drivable(cs, acc, t) && DrivablePlan(cs, Secure(acc, t), rest)
    ensures DrivablePlan(cs, acc, [t] + rest)
  {
    assert ([t] + rest)[1..] == rest;
  }

  lemma PlanIsDrivable(cs: seq<Component>, onOCP: bool)
    ensures DrivablePlan(cs, {}, PlanFor(cs, onOCP))
  {
    var iecs := Secure({}, Sweep(cs));
    NamespacePlanIsDrivable(cs, iecs);
    if onOCP {
      assert Secure(iecs, ConsolePlugin) == iecs;
      UnfoldDrivable(cs, iecs, ConsolePlugin, NamespacePlan());
    } else {
      assert [] + NamespacePlan() == NamespacePlan();
    }
    UnfoldDrivable(cs, {}, Sweep(cs), (if onOCP then [ConsolePlugin] else []) + NamespacePlan());
  }

  lemma NamespacePlanIsDrivable(cs: seq<Component>, acc: set<Resource>)
    ensures DrivablePlan(cs, acc, NamespacePlan())
  {
    var addon := Await(HypershiftAddon, true, true);
    var mc := Await(LocalManagedCluster, true, false);
    var cm := Await(ClusterManagerCR, true, false);
    var hub := Await(HubNamespace, false, false);
    var ns := Await(LocalClusterNamespace, false, false);
    var s2 := Secure(Secure(acc, addon), mc);
    var s3 := Secure(s2, cm);
    var s5 := Secure(Secure(s3, hub), Clean(GlobalSetNamespace));
    assert LocalManagedCluster in s2 && ClusterManagerCR in s3 && LocalManagedCluster in s5;
    UnfoldDrivable(cs, s5, ns, []);
    UnfoldDrivable(cs, Secure(s3, hub), Clean(GlobalSetNamespace), [ns] + []);
    assert TailPlan() == [Clean(GlobalSetNamespace)] + ([ns] + []);
    UnfoldDrivable(cs, s3, hub, TailPlan());
    UnfoldDrivable(cs, s2, cm, [hub] + TailPlan());
    assert HubPlan() == [cm] + ([hub] + TailPlan());
    UnfoldDrivable(cs, Secure(acc, addon), mc, HubPlan());
    UnfoldDrivable(cs, acc, addon, [mc] + HubPlan());
    assert NamespacePlan() == [addon] + ([mc] + HubPlan());
  }

  // ------------------------------------------------------------------ termination

  /** If the finalizer is still there after n passes, whatever is terminating then is gone for
      good within `patience` passes, and the n-th pass did not trip over the global-set namespace. */
  predicate FairAfter(o: Oracle, w: World, cs: seq<Component>, ts: seq<Task>, patience: nat, n: nat) {
    var (wn, removed) := Passes(o, w, ts, n);
    removed ||
    (!Raced(wn) &&
     (set r | r in Required(cs) && Terminating(wn.cluster, r)) !!
     Pending(cs, Passes(o, w, ts, n + patience).0.cluster))
  }

  ghost predicate Fair(o: Oracle, w: World, cs: seq<Component>, ts: seq<Task>, patience: nat) {
    forall n: nat :: FairAfter(o, w, cs, ts, patience, n)
  }

  /** A pass that keeps the finalizer has moved something along. */
  lemma PassAdvances(o: Oracle, w: World, cs: seq<Component>, ts: seq<Task>)
    requires Responsive(o, w.clock) && DrivablePlan(cs, {}, ts) && !Pass(o, w, ts).1
    ensures var w' := Pass(o, w, ts).0; Raced(w') || exists r :: Advanced(cs, w.cluster, w'.cluster, r)
  {
    PlanClock(o, w, ts);
    PlanAdvances(o, w, cs, ts, {});
  }

  lemma FairAt(o: Oracle, w: World, cs: seq<Component>, ts: seq<Task>, patience: nat, n: nat, r: Resource)
    requires FairAfter(o, w, cs, ts, patience, n) && !Passes(o, w, ts, n).1
    requires r in Required(cs)
    requires var c := Passes(o, w, ts, n).0.cluster; r in Pending(cs, c) ==> Terminating(c, r)
    ensures r !in Pending(cs, Passes(o, w, ts, n + patience).0.cluster)
  {
    PassesPending(o, w, cs, ts, n, n + patience);
  }

  /** Within patience + 1 passes either the finalizer goes or less is pending. */
  lemma RoundProgress(o: Oracle, w: World, cs: seq<Component>, ts: seq<Task>, patience: nat, n: nat, next: nat, m: nat)
    requires Responsive(o, w.clock) && DrivablePlan(cs, {}, ts) && Fair(o, w, cs, ts, patience)
    requires next == n + 1 && m == next + patience
    ensures
      var (w1, removed) := Passes(o, w, ts, m);
      removed || Pending(cs, w1.cluster) < Pending(cs, Passes(o, w, ts, n).0.cluster)
  {
    PassesPending(o, w, cs, ts, n, m);
    PassesPending(o, w, cs, ts, next, m);
    if !Passes(o, w, ts, next).1 {
      assert FairAfter(o, w, cs, ts, patience, next);
      var r := SomethingAdvanced(o, w, cs, ts, n);
      FairAt(o, w, cs, ts, patience, next, r);
    }
  }

  lemma SomethingAdvanced(o: Oracle, w: World, cs: seq<Component>, ts: seq<Task>, n: nat) returns (r: Resource)
    requires Responsive(o, w.clock) && DrivablePlan(cs, {}, ts)
    requires !Passes(o, w, ts, n + 1).1 && !Raced(Passes(o, w, ts, n + 1).0)
    ensures Advanced(cs, Passes(o, w, ts, n).0.cluster, Passes(o, w, ts, n + 1).0.cluster, r)
  {
    var (wn, removed) := Passes(o, w, ts, n);
    assert Passes(o, w, ts, n + 1) == if removed then (wn, true) else Pass(o, wn, ts);
    PassesClock(o, w, ts, n);
    PassAdvances(o, wn, cs, ts);
    r :| Advanced(cs, wn.cluster, Pass(o, wn, ts).0.cluster, r);
  }

  lemma {:induction false} SmallerSet(a: set<Resource>, b: set<Resource>)
    requires a <= b
    ensures |a| <= |b| && (a < b ==> |a| < |b|)
  {
    assert b == a + (b - a);
    assert |b| == |a| + |b - a|;
  }

  lemma RoundLength(k: nat, patience: nat)
    requires k > 0
    ensures k * (patience + 1) == (k - 1) * (patience + 1) + 1 + patience
  {
  }

  lemma {:induction false} RoundsProgress(
    o: Oracle, w: World, cs: seq<Component>, ts: seq<Task>, patience: nat, k: nat, m: nat)
    requires Responsive(o, w.clock) && DrivablePlan(cs, {}, ts) && Fair(o, w, cs, ts, patience)
    requires m == k * (patience + 1)
    ensures
      var (w1, removed) := Passes(o, w, ts, m);
      removed || |Pending(cs, w1.cluster)| + k <= |Pending(cs, w.cluster)|
    decreases k
  {
    if k > 0 {
      var n := (k - 1) * (patience + 1);
      RoundLength(k, patience);
      RoundsProgress(o, w, cs, ts, patience, k - 1, n);
      RoundProgress(o, w, cs, ts, patience, n, n + 1, m);
      RoundCount(o, w, cs, ts, n, m);
    }
  }

  lemma RoundCount(o: Oracle, w: World, cs: seq<Component>, ts: seq<Task>, n: nat, m: nat)
    requires n <= m
    requires Passes(o, w, ts, m).1 || Pending(cs, Passes(o, w, ts, m).0.cluster) < Pending(cs, Passes(o, w, ts, n).0.cluster)
    ensures Passes(o, w, ts, n).1 ==> Passes(o, w, ts, m).1
    ensures Passes(o, w, ts, m).1 ||
      |Pending(cs, Passes(o, w, ts, m).0.cluster)| < |Pending(cs, Passes(o, w, ts, n).0.cluster)|
  {
    PassesPending(o, w, cs, ts, n, m);
    SmallerSet(Pending(cs, Passes(o, w, ts, m).0.cluster), Pending(cs, Passes(o, w, ts, n).0.cluster));
  }

  function Rounds(cs: seq<Component>, w: World, patience: nat): nat {
    (|Pending(cs, w.cluster)| + 1) * (patience + 1)
  }

  lemma DrivenTerminates(o: Oracle, w: World, cs: seq<Component>, ts: seq<Task>, patience: nat)
    requires Responsive(o, w.clock) && DrivablePlan(cs, {}, ts) && Fair(o, w, cs, ts, patience)
    ensures Passes(o, w, ts, Rounds(cs, w, patience)).1
  {
    RoundsProgress(o, w, cs, ts, patience, |Pending(cs, w.cluster)| + 1, Rounds(cs, w, patience));
  }

  /** A server that answers and an environment that finishes deletions see the finalizer
      removed within a number of passes bounded by what is pending at the start. */
  lemma UninstallTerminates(o: Oracle, w: World, onOCP: bool, patience: nat)
    requires Responsive(o, w.clock) && Fair(o, w, INTERNAL_COMPONENTS, UninstallPlan(onOCP), patience)
    ensures Passes(o, w, UninstallPlan(onOCP), Rounds(INTERNAL_COMPONENTS, w, patience)).1
  {
    PlanIsDrivable(INTERNAL_COMPONENTS, onOCP);
    DrivenTerminates(o, w, INTERNAL_COMPONENTS, UninstallPlan(onOCP), patience);
  }

  lemma {:induction false} PassesCompose(o: Oracle, w: World, ts: seq<Task>, m: nat, n: nat)
    ensures
      var (wm, removed) := Passes(o, w, ts, m);
      Passes(o, w, ts, m + n) == if removed then (wm, true) else Passes(o, wm, ts, n)
    decreases n
  {
    if n > 0 { PassesCompose(o, w, ts, m, n - 1); }
  }

  /** After m passes the server answers and the environment is fair, or the finalizer is gone. */
  ghost predicate SettlesAfter(o: Oracle, w: World, cs: seq<Component>, ts: seq<Task>, patience: nat, m: nat) {
    var (wm, removed) := Passes(o, w, ts, m);
    removed || (Responsive(o, wm.clock) && Fair(o, wm, cs, ts, patience))
  }

  lemma DrivenOnceAnswered(o: Oracle, w: World, cs: seq<Component>, ts: seq<Task>, patience: nat, m: nat)
    requires DrivablePlan(cs, {}, ts) && SettlesAfter(o, w, cs, ts, patience, m)
    ensures Passes(o, w, ts, m + Rounds(cs, Passes(o, w, ts, m).0, patience)).1
  {
    var (wm, removed) := Passes(o, w, ts, m);
    PassesCompose(o, w, ts, m, Rounds(cs, wm, patience));
    if !removed { DrivenTerminates(o, wm, cs, ts, patience); }
  }

  /** Whatever went wrong during the first m passes, once the server answers the finalizer goes
      within the bound. */
  lemma TerminatesOnceAnswered(o: Oracle, w: World, onOCP: bool, patience: nat, m: nat)
    requires SettlesAfter(o, w, INTERNAL_COMPONENTS, UninstallPlan(onOCP), patience, m)
    ensures
      var wm := Passes(o, w, UninstallPlan(onOCP), m).0;
      Passes(o, w, UninstallPlan(onOCP), m + Rounds(INTERNAL_COMPONENTS, wm, patience)).1
  {
    PlanIsDrivable(INTERNAL_COMPONENTS, onOCP);
    DrivenOnceAnswered(o, w, INTERNAL_COMPONENTS, UninstallPlan(onOCP), patience, m);
  }

  // --------------------------------------------------------------------- blocking

  /** The kind of r is not registered from call number `start` on. */
  ghost predicate Unregistered(o: Oracle, start: nat, r: Resource) {
    forall n | n >= start :: o.fault(n, r) == NoKind
  }

  /** A check that cannot pass without an answer that r does not exist. */
  predicate Insists(t: Task, r: Resource) {
    r in Provides(t) && (t.Await? ==> !t.noMatchOk)
  }

  lemma {:induction false} SweepBlocked(o: Oracle, w: World, cs: seq<Component>, c: Component)
    requires c in cs && Unregistered(o, w.clock, Iec(c))
    ensures SweepAll(o, w, cs).1 != Clear
    decreases |cs|
  {
    if c != cs[0] { SweepBlocked(o, SweepOne(o, w, cs[0]).0, cs[1..], c); }
  }

  lemma TaskBlocked(o: Oracle, w: World, t: Task, r: Resource)
    requires Insists(t, r) && Unregistered(o, w.clock, r)
    ensures RunTask(o, w, t).1 != Clear
  {
    if t.Sweep? { SweepBlocked(o, w, t.components, r.component); }
  }

  lemma {:induction false} NeverClear(o: Oracle, w: World, ts: seq<Task>, k: nat, r: Resource)
    requires k < |ts| && Insists(ts[k], r) && Unregistered(o, w.clock, r)
    ensures RunPlan(o, w, ts).1 != Clear
    decreases k
  {
    if k == 0 {
      TaskBlocked(o, w, ts[0], r);
    } else if RunTask(o, w, ts[0]).1 == Clear {
      TaskClock(o, w, ts[0]);
      NeverClear(o, RunTask(o, w, ts[0]).0, ts[1..], k - 1, r);
    }
  }

  lemma {:induction false} NeverRemoved(o: Oracle, w: World, ts: seq<Task>, k: nat, r: Resource, n: nat)
    requires k < |ts| && Insists(ts[k], r) && Unregistered(o, w.clock, r)
    ensures !Passes(o, w, ts, n).1
    decreases n
  {
    if n > 0 {
      NeverRemoved(o, w, ts, k, r, n - 1);
      PassesClock(o, w, ts, n - 1);
      NeverClear(o, Passes(o, w, ts, n - 1).0, ts, k, r);
    }
  }

  lemma {:induction false} DrivableAt(cs: seq<Component>, acc: set<Resource>, ts: seq<Task>, k: nat)
    requires DrivablePlan(cs, acc, ts) && k < |ts|
    ensures ts[k].Await? ==> (ts[k].noMatchOk <==> ts[k].target == HypershiftAddon)
    decreases k
  {
    if k > 0 { DrivableAt(cs, Secure(acc, ts[0]), ts[1..], k - 1); }
  }

  /** Every required resource but the addon is insisted on somewhere in the plan. */
  lemma InsistedSomewhere(cs: seq<Component>, onOCP: bool, r: Resource) returns (k: nat)
    requires r in Required(cs) && r != HypershiftAddon
    ensures k < |PlanFor(cs, onOCP)| && Insists(PlanFor(cs, onOCP)[k], r)
  {
    var ts := PlanFor(cs, onOCP);
    PlanSecuresRequired(cs, onOCP);
    SecuredIsProvided({}, ts);
    ProvidedSomewhere(ts, r);
    k :| 0 <= k < |ts| && r in Provides(ts[k]);
    PlanIsDrivable(cs, onOCP);
    DrivableAt(cs, {}, ts, k);
  }

  /** While the kind of a required resource other than the addon is unregistered, the finalizer
      is never removed. For the ManagedCluster the code means to accept the "no matches for kind"
      answer, but a comparison with a fresh error value never recognises it. */
  lemma NoMatchBlocksForever(o: Oracle, w: World, onOCP: bool, r: Resource, n: nat)
    requires r in Required(INTERNAL_COMPONENTS) && r != HypershiftAddon && Unregistered(o, w.clock, r)
    ensures !Passes(o, w, UninstallPlan(onOCP), n).1
  {
    var k := InsistedSomewhere(INTERNAL_COMPONENTS, onOCP, r);
    NeverRemoved(o, w, UninstallPlan(onOCP), k, r, n);
  }

  /** From call number `start` on every call is answered, and exactly the kinds of the resources
      in `missing` are unregistered. */
  ghost predicate Answers(o: Oracle, start: nat, missing: set<Resource>) {
    && (forall n, r | n >= start :: o.fault(n, r) == if r in missing then NoKind else Healthy)
    && (forall n | n >= start :: o.plain(n))
  }

  ghost predicate EventuallyRemoved(o: Oracle, w: World, onOCP: bool) {
    exists n: nat :: Passes(o, w, UninstallPlan(onOCP), n).1
  }

  /** With an answering server the finalizer is eventually removed if and only if no required
      kind other than the addon's is unregistered. */
  lemma UninstallTerminatesIff(o: Oracle, w: World, onOCP: bool, patience: nat, missing: set<Resource>)
    requires missing <= Required(INTERNAL_COMPONENTS) && Answers(o, w.clock, missing)
    requires missing <= {HypershiftAddon} ==> Fair(o, w, INTERNAL_COMPONENTS, UninstallPlan(onOCP), patience)
    ensures EventuallyRemoved(o, w, onOCP) <==> missing <= {HypershiftAddon}
  {
    if missing <= {HypershiftAddon} {
      UninstallTerminates(o, w, onOCP, patience);
    } else {
      var r :| r in missing && r != HypershiftAddon;
      forall n: nat ensures !Passes(o, w, UninstallPlan(onOCP), n).1 { NoMatchBlocksForever(o, w, onOCP, r, n); }
    }
  }
}
