/** What a plan does call by call, said on the log alone: which reads lead to a deletion, which
    deletions were preceded by which read, and what a completed plan must have seen or done. */
module TeardownEffects {
  import opened Names
  import opened Labels
  import opened ApiServer
  import opened Teardown
  import opened TeardownOrder

  // ------------------------------------------------------------ reads and deletions

  /** Resources a step looks up. */
  function Reads(t: Task): set<Resource> {
    match t
    case Sweep(cs) => set c | c in cs :: Iec(c)
    case ConsolePlugin => {}
    case Await(r, _, _) => {r}
    case Clean(r) => {r}
    case Drop(rs, _, _) => set r | r in rs && !(r.Template? && r.kind == "NetworkPolicy")
  }

  /** Must the step delete r when it reads this object? */
  predicate Due(t: Task, r: Resource, obj: Obj) {
    match t
    case Sweep(_) => !obj.deleting
    case ConsolePlugin => false
    case Await(_, deletes, _) => deletes
    case Clean(_) => true
    case Drop(_, owner, adopts) => MayManage(obj.labels, owner, adopts)
  }

  predicate DeletionAt(log: seq<Event>, i: int, r: Resource) {
    0 <= i < |log| && log[i].op.Delete? && log[i].op.key == r
  }

  predicate FoundAt(log: seq<Event>, i: int, r: Resource) {
    0 <= i < |log| && log[i].op.Get? && log[i].op.key == r && log[i].op.got.Found?
  }

  /** Call i is one that step t makes: a deletion follows at once the read that makes it due, and a
      read that makes it due is followed by it at once. Only the read after an
      InternalEngineComponent's deletion is made for information. */
  predicate MadeBy(log: seq<Event>, start: nat, i: nat, t: Task) {
    && start <= i < |log|
    && match log[i].op
       case Delete(r, _) =>
         r in Reads(t) && start < i && FoundAt(log, i - 1, r) && Due(t, r, log[i - 1].op.got.obj)
       case Get(r, a) =>
         r in Reads(t) &&
         (a.Found? && Due(t, r, a.obj) ==> DeletionAt(log, i + 1, r) || (r.Iec? && start < i && DeletionAt(log, i - 1, r)))
       case Console(_) => t.ConsolePlugin?
       case DropFinalizer(_) => false
  }

  /** Every new call is one that step t makes. */
  predicate AllMadeBy(w: World, w': World, t: Task) {
    w.log <= w'.log && forall i | |w.log| <= i < |w'.log| :: MadeBy(w'.log, |w.log|, i, t)
  }

  lemma MadeByLater(log: seq<Event>, log': seq<Event>, start: nat, start': nat, i: nat, t: Task)
    requires MadeBy(log, start', i, t) && log <= log' && start <= start'
    ensures MadeBy(log', start, i, t)
  {
  }

  lemma MadeByJoin(w: World, w1: World, w2: World, t: Task)
    requires AllMadeBy(w, w1, t) && AllMadeBy(w1, w2, t)
    ensures AllMadeBy(w, w2, t)
  {
    forall i | |w.log| <= i < |w2.log| ensures MadeBy(w2.log, |w.log|, i, t) {
      if i < |w1.log| {
        MadeByLater(w1.log, w2.log, |w.log|, |w.log|, i, t);
      } else {
        MadeByLater(w2.log, w2.log, |w.log|, |w1.log|, i, t);
      }
    }
  }

  /** One read that makes nothing due. */
  lemma ReadMade(w: World, w1: World, t: Task, r: Resource, a: GetAnswer)
    requires w1.log == w.log + [Event(w.cluster, Get(r, a))]
    requires r in Reads(t) && (a.Found? ==> !Due(t, r, a.obj))
    ensures AllMadeBy(w, w1, t)
  {
  }

  /** A read and the deletion it makes due. */
  lemma ReadDeleteMade(w: World, w2: World, t: Task, r: Resource, obj: Obj, d: DeleteAnswer, pre: Cluster)
    requires w2.log == w.log + [Event(w.cluster, Get(r, Found(obj))), Event(pre, Delete(r, d))]
    requires r in Reads(t) && Due(t, r, obj)
    ensures AllMadeBy(w, w2, t)
  {
    var n := |w.log|;
    assert FoundAt(w2.log, n, r) && DeletionAt(w2.log, n + 1, r);
  }

  /** A deletion, followed by a read for information. */
  lemma ReadDeleteReadMade(
    w: World, w3: World, t: Task, r: Resource, obj: Obj, d: DeleteAnswer, a: GetAnswer, pre: Cluster, pre': Cluster)
    requires w3.log == w.log + [Event(w.cluster, Get(r, Found(obj))), Event(pre, Delete(r, d)), Event(pre', Get(r, a))]
    requires r in Reads(t) && Due(t, r, obj) && r.Iec?
    ensures AllMadeBy(w, w3, t)
  {
    var n := |w.log|;
    assert FoundAt(w3.log, n, r) && DeletionAt(w3.log, n + 1, r);
  }

  lemma SweepOneMade(o: Oracle, w: World, t: Task, c: Component)
    requires t.Sweep? && c in t.components
    ensures AllMadeBy(w, SweepOne(o, w, c).0, t)
  {
    var r := Iec(c);
    assert r in Reads(t);
    var (w1, a) := CallGet(o, w, r);
    if a.Found? && !a.obj.deleting {
      var (w2, d) := CallDelete(o, w1, r);
      if d == DeleteErr {
        assert w2.log == w.log + [Event(w.cluster, Get(r, a)), Event(w1.cluster, Delete(r, d))];
        ReadDeleteMade(w, w2, t, r, a.obj, d, w1.cluster);
      } else {
        var (w3, b) := CallGet(o, w2, r);
        assert w3.log == w.log + [Event(w.cluster, Get(r, a)), Event(w1.cluster, Delete(r, d)), Event(w2.cluster, Get(r, b))];
        ReadDeleteReadMade(w, w3, t, r, a.obj, d, b, w1.cluster, w2.cluster);
      }
    } else {
      ReadMade(w, w1, t, r, a);
    }
  }

  lemma {:induction false} SweepMade(o: Oracle, w: World, t: Task, cs: seq<Component>)
    requires t.Sweep? && forall c <- cs :: c in t.components
    ensures AllMadeBy(w, SweepAll(o, w, cs).0, t)
    decreases |cs|
  {
    if cs != [] {
      SweepOneMade(o, w, t, cs[0]);
      SweepMade(o, SweepOne(o, w, cs[0]).0, t, cs[1..]);
      MadeByJoin(w, SweepOne(o, w, cs[0]).0, SweepAll(o, w, cs).0, t);
    }
  }

  lemma DropOneMade(o: Oracle, w: World, t: Task, r: Resource)
    requires t.Drop? && r in Reads(t)
    ensures AllMadeBy(w, DropOne(o, w, r, t.owner, t.adopts).0, t)
  {
    var (w1, a) := CallGet(o, w, r);
    if a.Found? && MayManage(a.obj.labels, t.owner, t.adopts) {
      var (w2, d) := CallDelete(o, w1, r);
      assert w2.log == w.log + [Event(w.cluster, Get(r, a)), Event(w1.cluster, Delete(r, d))];
      ReadDeleteMade(w, w2, t, r, a.obj, d, w1.cluster);
    } else {
      ReadMade(w, w1, t, r, a);
    }
  }

  lemma {:induction false} DropMade(o: Oracle, w: World, t: Task, rs: seq<Resource>)
    requires t.Drop? && forall r <- rs :: r in t.templates
    ensures AllMadeBy(w, DropAll(o, w, rs, t.owner, t.adopts).0, t)
    decreases |rs|
  {
    if rs != [] {
      assert rs[0] in t.templates;
      if SkippedKind(rs[0]) {
        DropMade(o, w, t, rs[1..]);
      } else {
        var (w1, v) := DropOne(o, w, rs[0], t.owner, t.adopts);
        DropOneMade(o, w, t, rs[0]);
        if v == Clear {
          DropMade(o, w1, t, rs[1..]);
          MadeByJoin(w, w1, DropAll(o, w1, rs[1..], t.owner, t.adopts).0, t);
        }
      }
    }
  }

  lemma AwaitMade(o: Oracle, w: World, t: Task)
    requires t.Await?
    ensures AllMadeBy(w, AwaitGone(o, w, t.target, t.deletes, t.noMatchOk).0, t)
  {
    var r := t.target;
    var (w1, a) := CallGet(o, w, r);
    if a.Found? && t.deletes {
      var (w2, d) := CallDelete(o, w1, r);
      assert w2.log == w.log + [Event(w.cluster, Get(r, a)), Event(w1.cluster, Delete(r, d))];
      ReadDeleteMade(w, w2, t, r, a.obj, d, w1.cluster);
    } else {
      ReadMade(w, w1, t, r, a);
    }
  }

  lemma CleanMade(o: Oracle, w: World, t: Task)
    requires t.Clean?
    ensures AllMadeBy(w, CleanUp(o, w, t.target).0, t)
  {
    var r := t.target;
    var (w1, a) := CallGet(o, w, r);
    if a.Found? {
      var (w2, d) := CallDelete(o, w1, r);
      assert w2.log == w.log + [Event(w.cluster, Get(r, a)), Event(w1.cluster, Delete(r, d))];
      ReadDeleteMade(w, w2, t, r, a.obj, d, w1.cluster);
    } else {
      ReadMade(w, w1, t, r, a);
    }
  }

  lemma TaskMade(o: Oracle, w: World, t: Task)
    ensures AllMadeBy(w, RunTask(o, w, t).0, t)
  {
    match t
    case Sweep(cs) => SweepMade(o, w, t, cs);
    case Drop(rs, _, _) => DropMade(o, w, t, rs);
    case Await(_, _, _) => AwaitMade(o, w, t);
    case Clean(_) => CleanMade(o, w, t);
    case ConsolePlugin =>
  }

  /** Some step of the plan makes call i. */
  ghost predicate Made(log: seq<Event>, start: nat, i: nat, ts: seq<Task>) {
    exists k :: 0 <= k < |ts| && MadeBy(log, start, i, ts[k])
  }

  /** In every run of a plan, whatever answers the server gives and whatever others do, each call is
      made by a step as described: nothing is deleted that was not just read and due, and nothing
      due is left undeleted. */
  lemma {:induction false} CallsAreDue(o: Oracle, w: World, ts: seq<Task>, i: nat)
    requires |w.log| <= i < |RunPlan(o, w, ts).0.log|
    ensures Made(RunPlan(o, w, ts).0.log, |w.log|, i, ts)
    decreases |ts|
  {
    if ts != [] {
      var (w1, v) := RunTask(o, w, ts[0]);
      var log := RunPlan(o, w, ts).0.log;
      TaskMade(o, w, ts[0]);
      if v == Clear { PlanKeeps(o, w1, ts[1..], {}); }
      if i < |w1.log| {
        MadeByLater(w1.log, log, |w.log|, |w.log|, i, ts[0]);
      } else {
        CallsAreDue(o, w1, ts[1..], i);
        var k :| 0 <= k < |ts[1..]| && MadeBy(log, |w1.log|, i, ts[1..][k]);
        MadeByLater(log, log, |w.log|, |w1.log|, i, ts[k + 1]);
      }
    }
  }

  // ------------------------------------------------------------- what completion shows

  /** The call settles r for the step. */
  predicate Settles(t: Task, r: Resource, op: Op) {
    match t
    case Sweep(_) => op == Get(r, NotFound)
    case ConsolePlugin => false
    case Await(_, _, noMatchOk) => op == Get(r, NotFound) || (noMatchOk && op == Get(r, NoMatch))
    case Clean(_) => op == Get(r, NotFound) || op == Delete(r, Deleted)
    case Drop(_, owner, adopts) =>
      || op == Get(r, NotFound) || op == Get(r, NoMatch)
      || (op.Get? && op.key == r && op.got.Found? && !MayManage(op.got.obj.labels, owner, adopts))
      || op == Delete(r, Deleted) || op == Delete(r, AlreadyGone)
  }

  ghost predicate Settled(log: seq<Event>, start: nat, t: Task, r: Resource) {
    exists j :: start <= j < |log| && Settles(t, r, log[j].op)
  }

  lemma SettledLater(log: seq<Event>, log': seq<Event>, start: nat, start': nat, t: Task, r: Resource)
    requires Settled(log, start', t, r) && log <= log' && start <= start'
    ensures Settled(log', start, t, r)
  {
    var j :| start' <= j < |log| && Settles(t, r, log[j].op);
    assert log'[j] == log[j];
  }

  lemma SweepOneSettles(o: Oracle, w: World, t: Task, c: Component)
    requires t.Sweep? && SweepOne(o, w, c).1 == Clear
    ensures Settled(SweepOne(o, w, c).0.log, |w.log|, t, Iec(c))
  {
    var log := SweepOne(o, w, c).0.log;
    assert Settles(t, Iec(c), log[|log| - 1].op);
  }

  lemma {:induction false} SweepSettles(o: Oracle, w: World, t: Task, cs: seq<Component>, c: Component)
    requires t.Sweep? && SweepAll(o, w, cs).1 == Clear && c in cs
    ensures Settled(SweepAll(o, w, cs).0.log, |w.log|, t, Iec(c))
    decreases |cs|
  {
    var w1 := SweepOne(o, w, cs[0]).0;
    SweepKeeps(o, w1, cs[1..], {});
    if c == cs[0] {
      SweepOneSettles(o, w, t, c);
      SettledLater(w1.log, SweepAll(o, w, cs).0.log, |w.log|, |w.log|, t, Iec(c));
    } else {
      SweepSettles(o, w1, t, cs[1..], c);
      SweepOneMade(o, w, Sweep([cs[0]]), cs[0]);
      SettledLater(SweepAll(o, w, cs).0.log, SweepAll(o, w, cs).0.log, |w.log|, |w1.log|, t, Iec(c));
    }
  }

  lemma DropOneSettles(o: Oracle, w: World, t: Task, r: Resource)
    requires t.Drop? && DropOne(o, w, r, t.owner, t.adopts).1 == Clear
    ensures Settled(DropOne(o, w, r, t.owner, t.adopts).0.log, |w.log|, t, r)
    ensures w.log <= DropOne(o, w, r, t.owner, t.adopts).0.log
  {
    var log := DropOne(o, w, r, t.owner, t.adopts).0.log;
    assert Settles(t, r, log[|log| - 1].op);
  }

  lemma {:induction false} DropSettles(o: Oracle, w: World, t: Task, rs: seq<Resource>, r: Resource)
    requires t.Drop? && DropAll(o, w, rs, t.owner, t.adopts).1 == Clear && r in rs && !SkippedKind(r)
    ensures Settled(DropAll(o, w, rs, t.owner, t.adopts).0.log, |w.log|, t, r)
    decreases |rs|
  {
    var log := DropAll(o, w, rs, t.owner, t.adopts).0.log;
    if SkippedKind(rs[0]) {
      DropSettles(o, w, t, rs[1..], r);
    } else {
      var w1 := DropOne(o, w, rs[0], t.owner, t.adopts).0;
      DropOneSettles(o, w, t, rs[0]);
      DropKeeps(o, w1, t.(templates := rs[1..]), {});
      if r == rs[0] {
        SettledLater(w1.log, log, |w.log|, |w.log|, t, r);
      } else {
        DropSettles(o, w1, t, rs[1..], r);
        SettledLater(log, log, |w.log|, |w1.log|, t, r);
      }
    }
  }

  lemma TaskSettles(o: Oracle, w: World, t: Task, r: Resource)
    requires RunTask(o, w, t).1 == Clear && r in Reads(t)
    ensures Settled(RunTask(o, w, t).0.log, |w.log|, t, r)
  {
    var log := RunTask(o, w, t).0.log;
    match t
    case Sweep(cs) => SweepSettles(o, w, t, cs, r.component);
    case Drop(rs, _, _) => DropSettles(o, w, t, rs, r);
    case Await(_, _, _) => assert Settles(t, r, log[|log| - 1].op);
    case Clean(_) => assert Settles(t, r, log[|log| - 1].op);
  }

  /** A plan that runs to its end has settled every resource of every step. */
  lemma {:induction false} CompletionSettles(o: Oracle, w: World, ts: seq<Task>, k: nat, r: Resource)
    requires RunPlan(o, w, ts).1 == Clear && k < |ts| && r in Reads(ts[k])
    ensures Settled(RunPlan(o, w, ts).0.log, |w.log|, ts[k], r)
    decreases |ts|
  {
    var w1 := RunTask(o, w, ts[0]).0;
    var log := RunPlan(o, w, ts).0.log;
    PlanKeeps(o, w1, ts[1..], {});
    if k == 0 {
      TaskSettles(o, w, ts[0], r);
      SettledLater(w1.log, log, |w.log|, |w.log|, ts[0], r);
    } else {
      CompletionSettles(o, w1, ts[1..], k - 1, r);
      TaskKeeps(o, w, ts[0], {});
      SettledLater(log, log, |w.log|, |w1.log|, ts[k], r);
    }
  }

  /** It has also removed the console plugin where that is a step. */
  lemma {:induction false} CompletionSettlesConsole(o: Oracle, w: World, ts: seq<Task>, k: nat)
    requires RunPlan(o, w, ts).1 == Clear && k < |ts| && ts[k].ConsolePlugin?
    ensures exists j :: |w.log| <= j < |RunPlan(o, w, ts).0.log| && RunPlan(o, w, ts).0.log[j].op == Console(true)
    decreases |ts|
  {
    var w1 := RunTask(o, w, ts[0]).0;
    var log := RunPlan(o, w, ts).0.log;
    TaskKeeps(o, w, ts[0], {});
    PlanKeeps(o, w1, ts[1..], {});
    if k == 0 {
      assert log[|w.log|] == w1.log[|w.log|];
    } else {
      CompletionSettlesConsole(o, w1, ts[1..], k - 1);
    }
  }

  // ---------------------------------------------------------------- what stops a plan

  /** The call can keep the step from ending clear. */
  predicate Stops(t: Task, op: Op) {
    match t
    case Sweep(cs) =>
      || (op.Get? && op.key in Reads(t) && !op.got.NotFound?)
      || (op.Delete? && op.key in Reads(t) && op.done == DeleteErr)
    case ConsolePlugin => op == Console(false)
    case Await(r, _, noMatchOk) => op.Get? && op.key == r && !op.got.NotFound? && !(noMatchOk && op.got.NoMatch?)
    case Clean(r) =>
      || (op.Get? && op.key == r && (op.got.NoMatch? || op.got.OtherErr?))
      || (op.Delete? && op.key == r && op.done != Deleted)
    case Drop(_, _, _) => (op.Get? && op.got.OtherErr?) || (op.Delete? && op.done == DeleteErr)
  }

  ghost predicate StoppedBy(log: seq<Event>, start: nat, t: Task) {
    exists j :: start <= j < |log| && Stops(t, log[j].op)
  }

  lemma StoppedLater(log: seq<Event>, log': seq<Event>, start: nat, start': nat, t: Task)
    requires StoppedBy(log, start', t) && log <= log' && start <= start'
    ensures StoppedBy(log', start, t)
  {
    var j :| start' <= j < |log| && Stops(t, log[j].op);
    assert log'[j] == log[j];
  }

  lemma SweepOneStops(o: Oracle, w: World, t: Task, c: Component)
    requires t.Sweep? && c in t.components && SweepOne(o, w, c).1 != Clear
    ensures StoppedBy(SweepOne(o, w, c).0.log, |w.log|, t)
  {
    var log := SweepOne(o, w, c).0.log;
    assert Iec(c) in Reads(t);
    assert Stops(t, log[|log| - 1].op);
  }

  lemma {:induction false} SweepStops(o: Oracle, w: World, t: Task, cs: seq<Component>)
    requires t.Sweep? && (forall c <- cs :: c in t.components) && SweepAll(o, w, cs).1 != Clear
    ensures StoppedBy(SweepAll(o, w, cs).0.log, |w.log|, t)
    decreases |cs|
  {
    var (w1, v) := SweepOne(o, w, cs[0]);
    var log := SweepAll(o, w, cs).0.log;
    SweepOneMade(o, w, t, cs[0]);
    SweepKeeps(o, w1, cs[1..], {});
    if v != Clear {
      SweepOneStops(o, w, t, cs[0]);
      StoppedLater(w1.log, log, |w.log|, |w.log|, t);
    } else {
      SweepStops(o, w1, t, cs[1..]);
      StoppedLater(log, log, |w.log|, |w1.log|, t);
    }
  }

  lemma {:induction false} DropStops(o: Oracle, w: World, t: Task, rs: seq<Resource>)
    requires t.Drop? && DropAll(o, w, rs, t.owner, t.adopts).1 != Clear
    ensures StoppedBy(DropAll(o, w, rs, t.owner, t.adopts).0.log, |w.log|, t)
    decreases |rs|
  {
    var log := DropAll(o, w, rs, t.owner, t.adopts).0.log;
    if SkippedKind(rs[0]) {
      DropStops(o, w, t, rs[1..]);
    } else {
      var (w1, v) := DropOne(o, w, rs[0], t.owner, t.adopts);
      if v != Clear {
        assert Stops(t, log[|log| - 1].op);
      } else {
        DropStops(o, w1, t, rs[1..]);
        DropOneSettles(o, w, t, rs[0]);
        StoppedLater(log, log, |w.log|, |w1.log|, t);
      }
    }
  }

  lemma TaskStops(o: Oracle, w: World, t: Task)
    requires RunTask(o, w, t).1 != Clear
    ensures StoppedBy(RunTask(o, w, t).0.log, |w.log|, t)
  {
    var log := RunTask(o, w, t).0.log;
    match t
    case Sweep(cs) => SweepStops(o, w, t, cs);
    case Drop(rs, _, _) => DropStops(o, w, t, rs);
    case Await(_, _, _) => assert Stops(t, log[|w.log|].op);
    case _ => assert Stops(t, log[|log| - 1].op);
  }

  /** A plan that does not run to its end was stopped by an answer that says so. */
  lemma {:induction false} IncompleteIsStopped(o: Oracle, w: World, ts: seq<Task>) returns (k: nat)
    requires RunPlan(o, w, ts).1 != Clear
    ensures k < |ts| && StoppedBy(RunPlan(o, w, ts).0.log, |w.log|, ts[k])
    decreases |ts|
  {
    var (w1, v) := RunTask(o, w, ts[0]);
    var log := RunPlan(o, w, ts).0.log;
    if v != Clear {
      TaskStops(o, w, ts[0]);
      k := 0;
    } else {
      TaskKeeps(o, w, ts[0], {});
      var j := IncompleteIsStopped(o, w1, ts[1..]);
      StoppedLater(log, log, |w.log|, |w1.log|, ts[1..][j]);
      k := j + 1;
    }
  }
}
