/** Order of deletions in a plan, and the exact set of resources a plan secures. */
module TeardownOrder {
  import opened Names
  import opened ApiServer
  import opened Teardown

  // ----------------------------------------------------------- order of deletions

  /** Some call with index in [from, upto) was told that r does not exist. */
  ghost predicate SeenGone(log: seq<Event>, from: nat, upto: nat, r: Resource) {
    exists j :: from <= j < upto <= |log| && SaysGone(log[j], r)
  }

  predicate SaysGone(e: Event, r: Resource) {
    e.op.Get? && e.op.key == r && (e.op.got.NotFound? || e.op.got.NoMatch?)
  }

  /** A deletion issued at call i belongs to some task k; everything secured by the earlier
      tasks is absent at that instant and everything they provide was seen gone before. */
  ghost predicate InOrder(log: seq<Event>, start: nat, i: nat, ts: seq<Task>, acc: set<Resource>)
    requires i < |log|
  {
    log[i].op.Delete? ==>
      exists k :: 0 <= k < |ts| && DeletionOf(log, start, i, ts, acc, k)
  }

  ghost predicate DeletionOf(log: seq<Event>, start: nat, i: nat, ts: seq<Task>, acc: set<Resource>, k: nat)
    requires i < |log| && log[i].op.Delete? && k < |ts|
  {
    && log[i].op.key in Targets(ts[k])
    && Absent(log[i].pre, SecuredBy(acc, ts[..k]))
    && forall s <- ProvidedBy(ts[..k]) :: SeenGone(log, start, i, s)
  }

  lemma {:induction false} SweepTargets(o: Oracle, w: World, cs: seq<Component>, i: nat)
    requires |w.log| <= i < |SweepAll(o, w, cs).0.log|
    ensures w.log <= SweepAll(o, w, cs).0.log
    ensures var e := SweepAll(o, w, cs).0.log[i]; e.op.Delete? ==> e.op.key in Targets(Sweep(cs))
    decreases |cs|
  {
    SweepKeeps(o, w, cs, {});
    if cs != [] {
      var w1 := SweepOne(o, w, cs[0]).0;
      SweepKeeps(o, w1, cs[1..], {});
      if i < |w1.log| {
        assert SweepAll(o, w, cs).0.log[i] == w1.log[i];
      } else {
        SweepTargets(o, w1, cs[1..], i);
      }
    }
  }

  lemma {:induction false} DropTargets(o: Oracle, w: World, t: Task, i: nat)
    requires t.Drop? && |w.log| <= i < |RunTask(o, w, t).0.log|
    ensures var e := RunTask(o, w, t).0.log[i]; e.op.Delete? ==> e.op.key in Targets(t)
    decreases |t.templates|
  {
    var Drop(ts, owner, adopts) := t;
    if ts != [] {
      var rest := t.(templates := ts[1..]);
      if SkippedKind(ts[0]) {
        DropTargets(o, w, rest, i);
      } else {
        var (w1, v) := DropOne(o, w, ts[0], owner, adopts);
        if v == Clear {
          DropKeeps(o, w1, rest, {});
          if i < |w1.log| {
            assert RunTask(o, w, t).0.log[i] == w1.log[i];
          } else {
            DropTargets(o, w1, rest, i);
          }
        }
      }
    }
  }

  lemma TaskTargets(o: Oracle, w: World, t: Task, i: nat)
    requires |w.log| <= i < |RunTask(o, w, t).0.log|
    ensures var e := RunTask(o, w, t).0.log[i]; e.op.Delete? ==> e.op.key in Targets(t)
  {
    match t
    case Sweep(cs) => SweepTargets(o, w, cs, i);
    case Drop(_, _, _) => DropTargets(o, w, t, i);
    case _ =>
  }

  lemma {:induction false} SweepSees(o: Oracle, w: World, cs: seq<Component>, c: Component)
    requires SweepAll(o, w, cs).1 == Clear && c in cs
    ensures var log := SweepAll(o, w, cs).0.log; SeenGone(log, |w.log|, |log|, Iec(c))
    decreases |cs|
  {
    var w1 := SweepOne(o, w, cs[0]).0;
    var log := SweepAll(o, w, cs).0.log;
    SweepKeeps(o, w, [cs[0]], {});
    SweepKeeps(o, w1, cs[1..], {});
    if c == cs[0] {
      assert log[|w1.log| - 1] == w1.log[|w1.log| - 1];
      assert SaysGone(log[|w1.log| - 1], Iec(c));
    } else {
      SweepSees(o, w1, cs[1..], c);
    }
  }

  lemma TaskSees(o: Oracle, w: World, t: Task, r: Resource)
    requires RunTask(o, w, t).1 == Clear && r in Provides(t)
    ensures var log := RunTask(o, w, t).0.log; SeenGone(log, |w.log|, |log|, r)
  {
    match t
    case Sweep(cs) => SweepSees(o, w, cs, r.component);
    case Await(_, _, _) => assert SaysGone(RunTask(o, w, t).0.log[|w.log|], r);
  }

  lemma {:induction false} PlanKeeps(o: Oracle, w: World, ts: seq<Task>, gone: set<Resource>)
    requires Closed(gone) && Absent(w.cluster, gone)
    ensures Keeps(w, RunPlan(o, w, ts).0, gone)
    decreases |ts|
  {
    if ts != [] {
      TaskKeeps(o, w, ts[0], gone);
      var (w1, v) := RunTask(o, w, ts[0]);
      if v == Clear {
        PlanKeeps(o, w1, ts[1..], gone);
        KeepsTransitive(w, w1, RunPlan(o, w1, ts[1..]).0, gone);
      }
    }
  }

  /** Every deletion issued by a plan, in any interleaving, respects the order of the plan. */
  lemma {:induction false} DeletionsInOrder(o: Oracle, w: World, ts: seq<Task>, acc: set<Resource>, i: nat)
    requires Closed(acc) && Absent(w.cluster, acc)
    requires |w.log| <= i < |RunPlan(o, w, ts).0.log|
    ensures InOrder(RunPlan(o, w, ts).0.log, |w.log|, i, ts, acc)
    decreases |ts|
  {
    if ts == [] { return; }
    var (w1, v) := RunTask(o, w, ts[0]);
    var log := RunPlan(o, w, ts).0.log;
    TaskKeeps(o, w, ts[0], acc);
    if v == Clear { PlanKeeps(o, w1, ts[1..], {}); }
    if !log[i].op.Delete? { return; }
    if i < |w1.log| {
      assert log[i] == w1.log[i];
      TaskTargets(o, w, ts[0], i);
      assert ts[..0] == [];
      assert DeletionOf(log, |w.log|, i, ts, acc, 0);
    } else {
      TaskSecures(o, w, ts[0], acc);
      DeletionsInOrder(o, w1, ts[1..], Secure(acc, ts[0]), i);
      var k :| 0 <= k < |ts[1..]| && DeletionOf(log, |w1.log|, i, ts[1..], Secure(acc, ts[0]), k);
      assert ts[..k + 1][1..] == ts[1..][..k];
      forall s <- ProvidedBy(ts[..k + 1]) ensures SeenGone(log, |w.log|, i, s) {
        if s in Provides(ts[0]) {
          TaskSees(o, w, ts[0], s);
          var j :| |w.log| <= j < |w1.log| && SaysGone(w1.log[j], s);
          assert log[j] == w1.log[j];
        } else {
          assert SeenGone(log, |w1.log|, i, s);
        }
      }
      assert DeletionOf(log, |w.log|, i, ts, acc, k + 1);
    }
  }

  // ------------------------------------------------------------------ exactness

  /** Each resource is awaited once, and templates are only ever dropped. */
  predicate Proper(ts: seq<Task>) {
    && (forall i, j | 0 <= i < j < |ts| :: ts[i].Await? && ts[j].Await? ==> ts[i].target != ts[j].target)
    && (forall t <- ts :: t.Await? ==> !t.target.Template? && !t.target.Iec?)
    && (forall t <- ts :: t.Drop? ==> forall r <- t.templates :: r.Template?)
  }

  predicate Held(c: Cluster) {
    forall r <- c :: c[r].finalizers != {}
  }

  predicate Passable(t: Task, present: set<Resource>) {
    match t
    case Sweep(cs) => forall c <- cs :: Iec(c) !in present
    case Await(r, _, _) => r !in present
    case Drop(rs, _, _) => forall r <- rs :: r !in present
    case _ => true
  }

  /** Number of calls a task makes when it passes. */
  function Calls(t: Task, present: set<Resource>): nat {
    match t
    case Sweep(cs) => |cs|
    case Drop(rs, _, _) => Dropped(rs)
    case Clean(r) => if r in present then 2 else 1
    case _ => 1
  }

  function Dropped(rs: seq<Resource>): nat {
    if rs == [] then 0 else (if SkippedKind(rs[0]) then 0 else 1) + Dropped(rs[1..])
  }

  function CallsOf(ts: seq<Task>, present: set<Resource>): nat {
    if ts == [] then 0 else Calls(ts[0], present) + CallsOf(ts[1..], present)
  }

  ghost predicate AllHealthy(o: Oracle) {
    (forall n, r :: o.fault(n, r) == Healthy) && (forall n :: o.plain(n))
  }

  ghost predicate QuietFor(o: Oracle, w: World, calls: nat) {
    forall n | w.clock <= n < w.clock + calls :: o.env(n) == []
  }

  predicate Unmoved(w: World, w': World, calls: nat) {
    w'.cluster.Keys == w.cluster.Keys && Held(w'.cluster) && w'.clock == w.clock + calls
  }

  lemma {:induction false} QuietSweep(o: Oracle, w: World, cs: seq<Component>)
    requires AllHealthy(o) && Held(w.cluster) && Passable(Sweep(cs), w.cluster.Keys) && QuietFor(o, w, |cs|)
    ensures SweepAll(o, w, cs).1 == Clear && Unmoved(w, SweepAll(o, w, cs).0, |cs|)
    decreases |cs|
  {
    if cs != [] {
      assert o.env(w.clock) == [];
      QuietSweep(o, SweepOne(o, w, cs[0]).0, cs[1..]);
    }
  }

  lemma {:induction false} QuietDrop(o: Oracle, w: World, t: Task)
    requires t.Drop? && AllHealthy(o) && Held(w.cluster)
    requires Passable(t, w.cluster.Keys) && QuietFor(o, w, Dropped(t.templates))
    ensures RunTask(o, w, t).1 == Clear && Unmoved(w, RunTask(o, w, t).0, Dropped(t.templates))
    decreases |t.templates|
  {
    if t.templates != [] {
      var rest := t.(templates := t.templates[1..]);
      if SkippedKind(t.templates[0]) {
        QuietDrop(o, w, rest);
      } else {
        assert o.env(w.clock) == [];
        assert t.templates[0] !in w.cluster;
        QuietDrop(o, DropOne(o, w, t.templates[0], t.owner, t.adopts).0, rest);
      }
    }
  }

  lemma QuietTask(o: Oracle, w: World, t: Task)
    requires AllHealthy(o) && Held(w.cluster)
    requires Passable(t, w.cluster.Keys) && QuietFor(o, w, Calls(t, w.cluster.Keys))
    ensures RunTask(o, w, t).1 == Clear && Unmoved(w, RunTask(o, w, t).0, Calls(t, w.cluster.Keys))
  {
    match t
    case Sweep(cs) => QuietSweep(o, w, cs);
    case Drop(_, _, _) => QuietDrop(o, w, t);
    case Clean(r) =>
      assert o.env(w.clock) == [];
      if r in w.cluster { assert o.env(w.clock + 1) == []; }
    case _ => assert o.env(w.clock) == [];
  }

  lemma {:induction false} QuietPlan(o: Oracle, w: World, ts: seq<Task>)
    requires AllHealthy(o) && Held(w.cluster)
    requires forall t <- ts :: Passable(t, w.cluster.Keys)
    requires QuietFor(o, w, CallsOf(ts, w.cluster.Keys))
    ensures RunPlan(o, w, ts).1 == Clear && Unmoved(w, RunPlan(o, w, ts).0, CallsOf(ts, w.cluster.Keys))
    decreases |ts|
  {
    if ts != [] {
      QuietTask(o, w, ts[0]);
      QuietPlan(o, RunTask(o, w, ts[0]).0, ts[1..]);
    }
  }

  lemma {:induction false} RunPlanSplit(o: Oracle, w: World, ts: seq<Task>, k: nat)
    requires k <= |ts| && RunPlan(o, w, ts[..k]).1 == Clear
    ensures RunPlan(o, w, ts) == RunPlan(o, RunPlan(o, w, ts[..k]).0, ts[k..])
    decreases k
  {
    if k == 0 {
      assert ts[..k] == [] && ts[k..] == ts;
    } else {
      assert ts[..k][1..] == ts[1..][..k - 1] && ts[1..][k - 1..] == ts[k..];
      RunPlanSplit(o, RunTask(o, w, ts[0]).0, ts[1..], k - 1);
    }
  }

  lemma {:induction false} SecuredBySplit(acc: set<Resource>, ts: seq<Task>, k: nat)
    requires k <= |ts|
    ensures SecuredBy(acc, ts) == SecuredBy(SecuredBy(acc, ts[..k]), ts[k..])
    decreases k
  {
    if k == 0 {
      assert ts[..k] == [] && ts[k..] == ts;
    } else {
      assert ts[..k][1..] == ts[1..][..k - 1] && ts[1..][k - 1..] == ts[k..];
      SecuredBySplit(Secure(acc, ts[0]), ts[1..], k - 1);
    }
  }

  lemma {:induction false} UnguardedIsSecured(acc: set<Resource>, ts: seq<Task>, r: Resource, j: nat)
    requires Closed(acc) && j < |ts| && r in Provides(ts[j]) && Durable(r) && Guard(r).None?
    ensures r in SecuredBy(acc, ts)
    decreases |ts|
  {
    if j == 0 {
      SecuredByKeeps(Secure(acc, ts[0]), ts[1..]);
    } else {
      UnguardedIsSecured(Secure(acc, ts[0]), ts[1..], r, j - 1);
    }
  }

  lemma {:induction false} ProvidedSomewhere(ts: seq<Task>, r: Resource)
    ensures r in ProvidedBy(ts) <==> exists j :: 0 <= j < |ts| && r in Provides(ts[j])
    decreases |ts|
  {
    if ts != [] {
      ProvidedSomewhere(ts[1..], r);
      if j :| 0 <= j < |ts| && r in Provides(ts[j]) && j > 0 { assert r in Provides(ts[1..][j - 1]); }
      if j :| 0 <= j < |ts[1..]| && r in Provides(ts[1..][j]) { assert r in Provides(ts[j + 1]); }
    }
  }

  /** What the witness run starts with: the guard of r, held by a finalizer. */
  function Bait(r: Resource): Cluster {
    if Guard(r).Some? then map[Guard(r).value := Obj(map[], {"held"}, false)] else map[]
  }

  /** Recreate r, then let its guard go. */
  function Revival(r: Resource): seq<EnvAction> {
    [Put(r, Obj(map[], {"held"}, false))] + if Guard(r).Some? then [Remove(Guard(r).value)] else []
  }

  lemma RevivalWorks(c: Cluster, r: Resource)
    requires c.Keys == Bait(r).Keys && (!Durable(r) || Guard(r).Some?)
    ensures EnvRun(c, Revival(r)) == map[r := Obj(map[], {"held"}, false)]
  {
    var put := EnvStep(c, Revival(r)[0]);
    if Guard(r).Some? {
      assert MayAppear(c, r);
      assert EnvRun(c, Revival(r)) == EnvRun(put, Revival(r)[1..]);
      assert Revival(r)[1..] == [Remove(Guard(r).value)];
      assert EnvRun(put, [Remove(Guard(r).value)]) == EnvRun(put - {Guard(r).value}, []);
      assert c - {Guard(r).value} == map[];
    } else {
      assert c == map[];
      assert EnvRun(c, Revival(r)) == EnvRun(put, []);
    }
  }

  /** The revival happens during the call that awaits r, and nothing else happens. */
  ghost predicate StrikesOnce(o: Oracle, r: Resource, strike: nat) {
    AllHealthy(o) && o.env(strike) == Revival(r) && forall n | n != strike :: o.env(n) == []
  }

  lemma StrikeAt(o: Oracle, w: World, t: Task, r: Resource)
    requires t.Await? && t.target == r && StrikesOnce(o, r, w.clock)
    requires w.cluster.Keys == Bait(r).Keys && (!Durable(r) || Guard(r).Some?)
    ensures RunTask(o, w, t).1 == Clear
    ensures RunTask(o, w, t).0.cluster == map[r := Obj(map[], {"held"}, false)]
    ensures RunTask(o, w, t).0.clock == w.clock + 1
  {
    RevivalWorks(w.cluster, r);
    assert r !in w.cluster;
  }

  lemma AfterStrike(o: Oracle, w: World, ts: seq<Task>, k: nat, strike: nat)
    requires Proper(ts) && k < |ts| && ts[k].Await?
    requires StrikesOnce(o, ts[k].target, strike) && w.clock == strike + 1
    requires w.cluster == map[ts[k].target := Obj(map[], {"held"}, false)]
    ensures RunPlan(o, w, ts[k + 1..]).1 == Clear && ts[k].target in RunPlan(o, w, ts[k + 1..]).0.cluster
  {
    assert forall j | k < j < |ts| :: Passable(ts[j], {ts[k].target});
    QuietPlan(o, w, ts[k + 1..]);
  }

  /** The converse of PlanSecures: a resource that a plan awaits but does not secure can be
      present when the plan has run to its end. */
  lemma UnsecuredCanReturn(ts: seq<Task>, r: Resource) returns (o: Oracle, w: World)
    requires Proper(ts) && r in ProvidedBy(ts) && r !in SecuredBy({}, ts)
    ensures AllHealthy(o) && RunPlan(o, w, ts).1 == Clear && r in RunPlan(o, w, ts).0.cluster
  {
    ProvidedSomewhere(ts, r);
    var k :| 0 <= k < |ts| && r in Provides(ts[k]);
    if ts[k].Sweep? { UnguardedIsSecured({}, ts, r, k); }
    var strike := CallsOf(ts[..k], Bait(r).Keys);
    w := World(Bait(r), 0, []);
    o := Oracle(n => if n == strike then Revival(r) else [], (n, s) => Healthy, n => true);
    assert StrikesOnce(o, r, strike);

    BaitPasses(ts, r, k);
    QuietPlan(o, w, ts[..k]);
    RunPlanSplit(o, w, ts, k);
    var w1 := RunPlan(o, w, ts[..k]).0;
    StrikeAt(o, w1, ts[k], r);
    AfterStrike(o, RunTask(o, w1, ts[k]).0, ts, k, strike);
    assert ts[k..][1..] == ts[k + 1..];
  }

  lemma BaitPasses(ts: seq<Task>, r: Resource, k: nat)
    requires Proper(ts) && k < |ts| && ts[k].Await? && ts[k].target == r && r !in SecuredBy({}, ts)
    ensures !r.Template? && (!Durable(r) || Guard(r).Some?)
    ensures forall t <- ts[..k] :: Passable(t, Bait(r).Keys)
  {
    SecuredBySplit({}, ts, k);
    var acc := SecuredBy({}, ts[..k]);
    SecuredByKeeps({}, ts[..k]);
    SecuredByKeeps(Secure(acc, ts[k]), ts[k + 1..]);
    assert ts[k..][1..] == ts[k + 1..];
    assert r !in Secure(acc, ts[k]);
    if Guard(r).Some? {
      forall t <- ts[..k] ensures Passable(t, {Guard(r).value}) {
        var j :| 0 <= j < k && ts[..k][j] == t;
        if t.Await? && t.target == Guard(r).value {
          UnguardedIsSecured({}, ts[..k], Guard(r).value, j);
        }
      }
    }
  }
}
