/** Teardown plans: the common shape of finalizeBackplaneConfig and of the ensureNo* functions.
    A plan is a list of tasks; a task that does not end Clear stops the plan. */
module Teardown {
  import opened Names
  import opened Labels
  import opened ApiServer

  datatype Verdict = Clear | Waiting | Failed

  datatype Task =
    | Sweep(components: seq<Component>)
    | ConsolePlugin
    | Await(target: Resource, deletes: bool, noMatchOk: bool)
    | Clean(target: Resource)
    | Drop(templates: seq<Resource>, owner: string, adopts: bool)

  function Worst(a: Verdict, b: Verdict): Verdict {
    if a == Failed || b == Failed then Failed
    else if a == Waiting || b == Waiting then Waiting
    else Clear
  }

  function SweepOne(o: Oracle, w: World, c: Component): (World, Verdict) {
    var (w1, a) := CallGet(o, w, Iec(c));
    if a.NotFound? then (w1, Clear)
    else if !a.Found? then (w1, Failed)
    else if a.obj.deleting then (w1, Waiting)
    else
      var (w2, d) := CallDelete(o, w1, Iec(c));
      if d == DeleteErr then (w2, Failed)
      else
        var (w3, b) := CallGet(o, w2, Iec(c));
        (w3, if b.NotFound? then Clear else if b.Found? then Waiting else Failed)
  }

  /** Every component is processed, whatever happened to the ones before it. */
  function SweepAll(o: Oracle, w: World, cs: seq<Component>): (World, Verdict)
    decreases |cs|, w
  {
    if cs == [] then (w, Clear)
    else
      var (w1, v1) := SweepOne(o, w, cs[0]);
      var (w2, v2) := SweepAll(o, w1, cs[1..]);
      (w2, Worst(v1, v2))
  }

  function AwaitGone(o: Oracle, w: World, r: Resource, deletes: bool, noMatchOk: bool): (World, Verdict) {
    var (w1, a) := CallGet(o, w, r);
    if a.NotFound? || (a.NoMatch? && noMatchOk) then (w1, Clear)
    else if !a.Found? then (w1, Failed)
    else if !deletes then (w1, Waiting)
    else
      var (w2, d) := CallDelete(o, w1, r);
      (w2, if d == Deleted then Waiting else Failed)
  }

  function CleanUp(o: Oracle, w: World, r: Resource): (World, Verdict) {
    var (w1, a) := CallGet(o, w, r);
    if a.NotFound? then (w1, Clear)
    else if !a.Found? then (w1, Failed)
    else
      var (w2, d) := CallDelete(o, w1, r);
      (w2, if d == Deleted then Clear else Failed)
  }

  function DropOne(o: Oracle, w: World, t: Resource, owner: string, adopts: bool): (World, Verdict) {
    var (w1, a) := CallGet(o, w, t);
    if a.NotFound? || a.NoMatch? then (w1, Clear)
    else if !a.Found? then (w1, Failed)
    else if !MayManage(a.obj.labels, owner, adopts) then (w1, Clear)
    else
      var (w2, d) := CallDelete(o, w1, t);
      (w2, if d == DeleteErr then Failed else Clear)
  }

  predicate SkippedKind(t: Resource) {
    t.Template? && t.kind == "NetworkPolicy"
  }

  function DropAll(o: Oracle, w: World, ts: seq<Resource>, owner: string, adopts: bool): (World, Verdict)
    decreases |ts|
  {
    if ts == [] then (w, Clear)
    else if SkippedKind(ts[0]) then DropAll(o, w, ts[1..], owner, adopts)
    else
      var (w1, v) := DropOne(o, w, ts[0], owner, adopts);
      if v != Clear then (w1, v) else DropAll(o, w1, ts[1..], owner, adopts)
  }

  function RunTask(o: Oracle, w: World, t: Task): (World, Verdict) {
    match t
    case Sweep(cs) => SweepAll(o, w, cs)
    case ConsolePlugin => var (w1, ok) := CallConsole(o, w); (w1, if ok then Clear else Failed)
    case Await(r, deletes, noMatchOk) => AwaitGone(o, w, r, deletes, noMatchOk)
    case Clean(r) => CleanUp(o, w, r)
    case Drop(ts, owner, adopts) => DropAll(o, w, ts, owner, adopts)
  }

  function RunPlan(o: Oracle, w: World, ts: seq<Task>): (World, Verdict)
    decreases |ts|, w
  {
    if ts == [] then (w, Clear)
    else
      var (w1, v) := RunTask(o, w, ts[0]);
      if v != Clear then (w1, v) else RunPlan(o, w1, ts[1..])
  }

  // ------------------------------------------------------- what a plan secures

  /** Resources a task has seen absent when it ends Clear. */
  function Provides(t: Task): set<Resource> {
    match t
    case Sweep(cs) => set c | c in cs :: Iec(c)
    case Await(r, _, _) => {r}
    case _ => {}
  }

  /** Resources a task may issue a deletion for. */
  function Targets(t: Task): set<Resource> {
    match t
    case Sweep(cs) => set c | c in cs :: Iec(c)
    case Await(r, deletes, _) => if deletes then {r} else {}
    case Clean(r) => {r}
    case Drop(ts, _, _) => set r | r in ts && !SkippedKind(r)
    case ConsolePlugin => {}
  }

  /** An absence seen by `t` lasts if nobody can undo it given the absences secured before. */
  function Secure(acc: set<Resource>, t: Task): set<Resource> {
    acc + set r | r in Provides(t) && Durable(r) && (Guard(r).Some? ==> Guard(r).value in acc)
  }

  function SecuredBy(acc: set<Resource>, ts: seq<Task>): set<Resource>
    decreases |ts|, acc
  {
    if ts == [] then acc else SecuredBy(Secure(acc, ts[0]), ts[1..])
  }

  function ProvidedBy(ts: seq<Task>): set<Resource> {
    if ts == [] then {} else Provides(ts[0]) + ProvidedBy(ts[1..])
  }

  lemma {:induction false} SecuredByKeeps(acc: set<Resource>, ts: seq<Task>)
    requires Closed(acc)
    ensures acc <= SecuredBy(acc, ts) && Closed(SecuredBy(acc, ts))
    decreases |ts|
  {
    if ts != [] {
      SecuredByKeeps(Secure(acc, ts[0]), ts[1..]);
    }
  }

  /** From w to w' the log only grew and `gone` was absent at every new call and at the end. */
  predicate Keeps(w: World, w': World, gone: set<Resource>) {
    && w.log <= w'.log
    && Absent(w'.cluster, gone)
    && forall i | |w.log| <= i < |w'.log| :: Absent(w'.log[i].pre, gone)
  }

  lemma KeepsTransitive(w0: World, w1: World, w2: World, gone: set<Resource>)
    requires Keeps(w0, w1, gone) && Keeps(w1, w2, gone)
    ensures Keeps(w0, w2, gone)
  {
    forall i | |w0.log| <= i < |w2.log| ensures Absent(w2.log[i].pre, gone) {
      if i < |w1.log| { assert w1.log[i] == w2.log[i]; }
    }
  }

  lemma GetKeeps(o: Oracle, w: World, r: Resource, gone: set<Resource>)
    requires Closed(gone) && Absent(w.cluster, gone)
    ensures Keeps(w, CallGet(o, w, r).0, gone)
  {
    AbsentIsStable(w.cluster, o.env(w.clock), gone);
  }

  lemma DeleteKeeps(o: Oracle, w: World, r: Resource, gone: set<Resource>)
    requires Closed(gone) && Absent(w.cluster, gone)
    ensures Keeps(w, CallDelete(o, w, r).0, gone)
  {
    AbsentIsStable(w.cluster, o.env(w.clock), gone);
    AbsentIsStable(AfterDelete(w.cluster, r), o.env(w.clock), gone);
  }

  /** The three call patterns used by plan steps: get; get-delete; get-delete-get. */
  lemma PatternKeeps(o: Oracle, w: World, r: Resource, gone: set<Resource>)
    requires Closed(gone) && Absent(w.cluster, gone)
    ensures
      var w1 := CallGet(o, w, r).0;
      var w2 := CallDelete(o, w1, r).0;
      && Keeps(w, w1, gone) && Keeps(w, w2, gone) && Keeps(w, CallGet(o, w2, r).0, gone)
  {
    GetKeeps(o, w, r, gone);
    var w1 := CallGet(o, w, r).0;
    DeleteKeeps(o, w1, r, gone);
    var w2 := CallDelete(o, w1, r).0;
    GetKeeps(o, w2, r, gone);
    KeepsTransitive(w, w1, w2, gone);
    KeepsTransitive(w, w2, CallGet(o, w2, r).0, gone);
  }

  lemma {:induction false} SweepKeeps(o: Oracle, w: World, cs: seq<Component>, gone: set<Resource>)
    requires Closed(gone) && Absent(w.cluster, gone)
    ensures Keeps(w, SweepAll(o, w, cs).0, gone)
    decreases |cs|
  {
    if cs != [] {
      PatternKeeps(o, w, Iec(cs[0]), gone);
      var w1 := SweepOne(o, w, cs[0]).0;
      SweepKeeps(o, w1, cs[1..], gone);
      KeepsTransitive(w, w1, SweepAll(o, w, cs).0, gone);
    }
  }

  lemma {:induction false} DropKeeps(o: Oracle, w: World, t: Task, gone: set<Resource>)
    requires t.Drop? && Closed(gone) && Absent(w.cluster, gone)
    ensures Keeps(w, RunTask(o, w, t).0, gone)
    decreases |t.templates|
  {
    var Drop(ts, owner, adopts) := t;
    if ts != [] {
      var rest := t.(templates := ts[1..]);
      if SkippedKind(ts[0]) {
        DropKeeps(o, w, rest, gone);
      } else {
        PatternKeeps(o, w, ts[0], gone);
        var (w1, v) := DropOne(o, w, ts[0], owner, adopts);
        if v == Clear {
          DropKeeps(o, w1, rest, gone);
          KeepsTransitive(w, w1, RunTask(o, w1, rest).0, gone);
        }
      }
    }
  }

  lemma TaskKeeps(o: Oracle, w: World, t: Task, gone: set<Resource>)
    requires Closed(gone) && Absent(w.cluster, gone)
    ensures Keeps(w, RunTask(o, w, t).0, gone)
  {
    match t
    case Sweep(cs) => SweepKeeps(o, w, cs, gone);
    case ConsolePlugin => AbsentIsStable(w.cluster, o.env(w.clock), gone);
    case Await(r, _, _) => PatternKeeps(o, w, r, gone);
    case Clean(r) => PatternKeeps(o, w, r, gone);
    case Drop(_, _, _) => DropKeeps(o, w, t, gone);
  }

  /** An absence answered by the server lasts beyond the environment steps that follow. */
  lemma GetSecures(o: Oracle, w: World, r: Resource, acc: set<Resource>)
    requires Closed(acc) && Absent(w.cluster, acc)
    requires CallGet(o, w, r).1.NotFound? || CallGet(o, w, r).1.NoMatch?
    requires Durable(r) && (Guard(r).Some? ==> Guard(r).value in acc)
    ensures r !in CallGet(o, w, r).0.cluster
  {
    AbsentIsStable(w.cluster, o.env(w.clock), acc + {r});
    assert r in acc + {r};
  }

  lemma {:induction false} SweepSecures(o: Oracle, w: World, cs: seq<Component>)
    requires SweepAll(o, w, cs).1 == Clear
    ensures Absent(SweepAll(o, w, cs).0.cluster, set c | c in cs :: Iec(c))
    decreases |cs|
  {
    if cs != [] {
      SweepOneSecures(o, w, cs[0]);
      var w1 := SweepOne(o, w, cs[0]).0;
      SweepSecures(o, w1, cs[1..]);
      SweepKeeps(o, w1, cs[1..], {Iec(cs[0])});
      forall c | c in cs ensures Iec(c) !in SweepAll(o, w, cs).0.cluster {
        if c == cs[0] { assert Iec(c) in {Iec(cs[0])}; }
        else { assert c in cs[1..]; assert Iec(c) in set c' | c' in cs[1..] :: Iec(c'); }
      }
    }
  }

  lemma SweepOneSecures(o: Oracle, w: World, c: Component)
    requires SweepOne(o, w, c).1 == Clear
    ensures Iec(c) !in SweepOne(o, w, c).0.cluster
  {
    var (w1, a) := CallGet(o, w, Iec(c));
    if a.NotFound? { GetSecures(o, w, Iec(c), {}); }
    else { GetSecures(o, CallDelete(o, w1, Iec(c)).0, Iec(c), {}); }
  }

  /** One cleared task: everything secured so far is absent. */
  lemma TaskSecures(o: Oracle, w: World, t: Task, acc: set<Resource>)
    requires Closed(acc) && Absent(w.cluster, acc)
    requires RunTask(o, w, t).1 == Clear
    ensures Closed(Secure(acc, t)) && Absent(RunTask(o, w, t).0.cluster, Secure(acc, t))
  {
    TaskKeeps(o, w, t, acc);
    if t.Sweep? { SweepSecures(o, w, t.components); }
    if t.Await? && t.target in Secure(acc, t) - acc { GetSecures(o, w, t.target, acc); }
  }

  /** Whatever other actors do between any two calls, a plan that runs to its end leaves
      every secured resource absent. */
  lemma {:induction false} PlanSecures(o: Oracle, w: World, ts: seq<Task>, acc: set<Resource>)
    requires Closed(acc) && Absent(w.cluster, acc)
    requires RunPlan(o, w, ts).1 == Clear
    ensures Closed(SecuredBy(acc, ts)) && Absent(RunPlan(o, w, ts).0.cluster, SecuredBy(acc, ts))
    decreases |ts|
  {
    if ts != [] {
      TaskSecures(o, w, ts[0], acc);
      PlanSecures(o, RunTask(o, w, ts[0]).0, ts[1..], Secure(acc, ts[0]));
    }
  }
}
