/** Lifecycle of the local ManagedCluster (controllers/toggle_components.go, ensureLocalCluster and
    ensureNoLocalCluster) under renames admitted by the webhook. */
module LocalCluster {
  import opened Names

  const MAX_NAME_LENGTH := 35
  const NODE_SELECTOR := "open-cluster-management/nodeSelector"
  const TOLERATIONS := "open-cluster-management/tolerations"

  /** `local` is the label local-cluster=true. */
  datatype Managed = Managed(local: bool, annotations: map<string, string>, deleting: bool, finalizers: set<string>)

  /** The parts of an engine's spec that matter here; None stands for an empty list. */
  datatype Spec = Spec(name: string, nodeSelector: Option<string>, tolerations: Option<string>)

  /** What was in the cluster at the instant of a call. */
  datatype Event =
    | CreatedCluster(name: string, namespaceThere: bool)
    | DeletedCluster(name: string)
    | DeletedNamespace(name: string, clusterThere: bool)

  datatype Namespace = Active | Terminating

  datatype World = World(
    clusters: map<string, Managed>, namespaces: map<string, Namespace>, spec: Spec, events: seq<Event>)

  // -------------------------------------------------------------------- everyone else

  datatype Env =
    | ImportCluster(name: string)
    | EditCluster(name: string, annotations: map<string, string>, finalizers: set<string>)
    | UnlabelCluster(name: string)
    | DeleteCluster(name: string)
    | AddNamespace(name: string)
    | TerminateNamespace(name: string)
    | RemoveNamespace(name: string)

  function Removed(c: Managed, clusters: map<string, Managed>, name: string): map<string, Managed> {
    if c.finalizers == {} then clusters - {name} else clusters[name := c.(deleting := true)]
  }

  /** Others import clusters under other names and never as local ones; a cluster's namespace
      appears only while the cluster exists. */
  function EnvStep(w: World, e: Env): World {
    match e
    case ImportCluster(n) =>
      if n == w.spec.name || n in w.clusters then w
      else w.(clusters := w.clusters[n := Managed(false, map[], false, {})])
    case EditCluster(n, annotations, finalizers) =>
      if n !in w.clusters then w
      else if w.clusters[n].deleting && finalizers == {} then w.(clusters := w.clusters - {n})
      else w.(clusters := w.clusters[n := w.clusters[n].(annotations := annotations, finalizers := finalizers)])
    case UnlabelCluster(n) =>
      if n in w.clusters then w.(clusters := w.clusters[n := w.clusters[n].(local := false)]) else w
    case DeleteCluster(n) =>
      if n in w.clusters then w.(clusters := Removed(w.clusters[n], w.clusters, n)) else w
    case AddNamespace(n) =>
      if n !in w.namespaces && (n in w.clusters || n != w.spec.name)
      then w.(namespaces := w.namespaces[n := Active]) else w
    case TerminateNamespace(n) =>
      if n in w.namespaces then w.(namespaces := w.namespaces[n := Terminating]) else w
    case RemoveNamespace(n) => w.(namespaces := w.namespaces - {n})
  }

  function EnvRun(w: World, es: seq<Env>): World {
    if es == [] then w else EnvStep(EnvRun(w, es[..|es| - 1]), es[|es| - 1])
  }

  // -------------------------------------------------------------------- the operations

  datatype Answer = Answered | NoMatch | OtherError

  /** Steps of others after each of the first three calls of a pass. */
  datatype Gaps = Gaps(first: seq<Env>, second: seq<Env>, third: seq<Env>)

  datatype Faults = Faults(cluster: Answer, namespace: Answer, write: Answer, update: Answer)

  datatype Outcome = Done | Waiting | Error

  function SetOrDelete(m: map<string, string>, key: string, value: Option<string>): map<string, string> {
    if value.Some? then m[key := value.value] else m - {key}
  }

  function Annotated(c: Managed, spec: Spec): Managed {
    c.(annotations :=
      SetOrDelete(SetOrDelete(c.annotations, NODE_SELECTOR, spec.nodeSelector), TOLERATIONS, spec.tolerations))
  }

  const NEW_CLUSTER := Managed(true, map[], false, {})

  function Create(w: World): World {
    w.(clusters := w.clusters[w.spec.name := NEW_CLUSTER],
       events := w.events + [CreatedCluster(w.spec.name, w.spec.name in w.namespaces)])
  }

  /** The update is refused when the object is not the one that was read. */
  function Update(w: World, seen: Managed, fault: Answer): World {
    if fault == Answered && w.spec.name in w.clusters && w.clusters[w.spec.name] == seen
    then w.(clusters := w.clusters[w.spec.name := Annotated(seen, w.spec)])
    else w
  }

  function AfterCreate(w: World, g: Gaps, f: Faults): World {
    if f.write != Answered || w.spec.name in w.clusters then w
    else Update(EnvRun(Create(w), g.third), NEW_CLUSTER, f.update)
  }

  /** One call of ensureLocalCluster. */
  function OnPass(w: World, g: Gaps, f: Faults): World {
    if f.cluster != Answered then w
    else if w.spec.name in w.clusters then Update(EnvRun(w, g.first), w.clusters[w.spec.name], f.update)
    else
      var w1 := EnvRun(w, g.first);
      if f.namespace != Answered || w1.spec.name in w1.namespaces then w1
      else AfterCreate(EnvRun(w1, g.second), g, f)
  }

  function RequestClusterDeletion(w: World): World {
    if w.spec.name !in w.clusters then w
    else w.(clusters := Removed(w.clusters[w.spec.name], w.clusters, w.spec.name),
            events := w.events + [DeletedCluster(w.spec.name)])
  }

  /** A namespace is marked and stays until others remove it; a request for one that is gone is
      answered NotFound. */
  function RequestNamespaceDeletion(w: World): World {
    w.(namespaces := if w.spec.name in w.namespaces then w.namespaces[w.spec.name := Terminating] else w.namespaces,
       events := w.events + [DeletedNamespace(w.spec.name, w.spec.name in w.clusters)])
  }

  /** One call of ensureNoLocalCluster. NoMatch on the first read says that there is no
      ManagedCluster resource type, and counts as absent. */
  function OffPass(w: World, g: Gaps, f: Faults): World {
    if f.cluster == OtherError then w
    else
      var w1 := EnvRun(w, g.first);
      if f.cluster == Answered && w.spec.name in w.clusters
      then if f.write == Answered then RequestClusterDeletion(w1) else w1
      else if f.namespace != Answered || w1.spec.name !in w1.namespaces then w1
      else
        var w2 := EnvRun(w1, g.second);
        if f.write == Answered then RequestNamespaceDeletion(w2) else w2
  }

  /** Webhook rule for a change of the local cluster's name. */
  predicate MayRename(w: World, name: string) {
    && |name| < MAX_NAME_LENGTH
    && forall n <- w.clusters :: n != w.spec.name && !w.clusters[n].local
  }

  function Rename(w: World, spec: Spec): World {
    if spec.name == w.spec.name || MayRename(w, spec.name) then w.(spec := spec) else w
  }

  /** The calls as the controller makes them. */
  class Controller {
    var w: World

    constructor (world: World)
      ensures w == world
    {
      w := world;
    }

    method Await(es: seq<Env>)
      modifies this
      ensures w == EnvRun(old(w), es)
    {
      for i := 0 to |es|
        invariant w == EnvRun(old(w), es[..i])
      {
        assert es[..i + 1][..i] == es[..i];
        w := EnvStep(w, es[i]);
      }
      assert es[..|es|] == es;
    }

    method UpdateCluster(seen: Managed, fault: Answer) returns (r: Outcome)
      modifies this
      ensures w == Update(old(w), seen, fault)
      ensures r == Done ==> w.spec.name in w.clusters && w.clusters[w.spec.name] == Annotated(seen, w.spec)
    {
      if fault != Answered || w.spec.name !in w.clusters || w.clusters[w.spec.name] != seen { return Error; }
      var annotations := seen.annotations;
      annotations := SetOrDelete(annotations, NODE_SELECTOR, w.spec.nodeSelector);
      annotations := SetOrDelete(annotations, TOLERATIONS, w.spec.tolerations);
      w := w.(clusters := w.clusters[w.spec.name := seen.(annotations := annotations)]);
      return Done;
    }

    method EnsureLocalCluster(g: Gaps, f: Faults) returns (r: Outcome)
      modifies this
      ensures w == OnPass(old(w), g, f)
      ensures r == Done ==> w.spec.name in w.clusters
    {
      if f.cluster == NoMatch { return Waiting; }
      if f.cluster == OtherError { return Error; }
      if w.spec.name in w.clusters {
        var seen := w.clusters[w.spec.name];
        Await(g.first);
        r := UpdateCluster(seen, f.update);
        return;
      }
      Await(g.first);
      if f.namespace != Answered { return Error; }
      if w.spec.name in w.namespaces { return Waiting; }
      Await(g.second);
      if f.write == NoMatch { return Waiting; }
      if f.write == OtherError || w.spec.name in w.clusters { return Error; }
      w := Create(w);
      Await(g.third);
      r := UpdateCluster(NEW_CLUSTER, f.update);
    }

    method EnsureNoLocalCluster(g: Gaps, f: Faults) returns (r: Outcome)
      modifies this
      ensures w == OffPass(old(w), g, f)
      ensures r == Done ==> w.spec.name !in w.namespaces && (f.cluster == Answered ==> old(w.spec.name !in w.clusters))
    {
      if f.cluster == OtherError { return Error; }
      var there := f.cluster == Answered && w.spec.name in w.clusters;
      Await(g.first);
      if there {
        if f.write != Answered { return Error; }
        w := RequestClusterDeletion(w);
        return Waiting;
      }
      if f.namespace != Answered { return Error; }
      if w.spec.name !in w.namespaces { return Done; }
      Await(g.second);
      if f.write != Answered { return Error; }
      w := RequestNamespaceDeletion(w);
      return Waiting;
    }
  }

  // ---------------------------------------------------------------------- whole runs

  datatype Op =
    | On(g: Gaps, f: Faults)
    | Off(g: Gaps, f: Faults)
    | Change(spec: Spec)
    | Idle(es: seq<Env>)

  /** NoMatch is only answered when no ManagedCluster exists. */
  predicate Honest(w: World, op: Op) {
    op.Off? && op.f.cluster == NoMatch ==> w.clusters == map[]
  }

  function Step(w: World, op: Op): World {
    match op
    case On(g, f) => OnPass(w, g, f)
    case Off(g, f) => OffPass(w, g, f)
    case Change(spec) => Rename(w, spec)
    case Idle(es) => EnvRun(w, es)
  }

  function Run(w: World, ops: seq<Op>): World {
    if ops == [] then w else Step(Run(w, ops[..|ops| - 1]), ops[|ops| - 1])
  }

  predicate AllHonest(w: World, ops: seq<Op>) {
    forall n | 0 <= n < |ops| :: Honest(Run(w, ops[..n]), ops[n])
  }

  predicate SafeEvent(e: Event) {
    (e.CreatedCluster? ==> !e.namespaceThere) && (e.DeletedNamespace? ==> !e.clusterThere)
  }

  /** Only the named cluster carries the local label, and every call so far was safe. */
  predicate Inv(w: World) {
    && (forall n <- w.clusters :: w.clusters[n].local ==> n == w.spec.name)
    && (forall i | 0 <= i < |w.events| :: SafeEvent(w.events[i]))
  }

  lemma EnvStepKeeps(w: World, e: Env)
    requires Inv(w)
    ensures Inv(EnvStep(w, e)) && EnvStep(w, e).spec == w.spec && EnvStep(w, e).events == w.events
    ensures w.spec.name !in w.clusters ==> w.spec.name !in EnvStep(w, e).clusters
    ensures w.spec.name !in w.clusters && w.spec.name !in w.namespaces ==> w.spec.name !in EnvStep(w, e).namespaces
  {
  }

  /** What others do: the invariant stays, and neither the local cluster nor, without it, its
      namespace appears. */
  lemma {:induction false} EnvKeeps(w: World, es: seq<Env>)
    requires Inv(w)
    ensures Inv(EnvRun(w, es)) && EnvRun(w, es).spec == w.spec && EnvRun(w, es).events == w.events
    ensures w.spec.name !in w.clusters ==> w.spec.name !in EnvRun(w, es).clusters
    ensures w.spec.name !in w.clusters && w.spec.name !in w.namespaces ==> w.spec.name !in EnvRun(w, es).namespaces
    decreases |es|
  {
    if es != [] {
      EnvKeeps(w, es[..|es| - 1]);
      EnvStepKeeps(EnvRun(w, es[..|es| - 1]), es[|es| - 1]);
    }
  }

  lemma OnKeeps(w: World, g: Gaps, f: Faults)
    requires Inv(w)
    ensures Inv(OnPass(w, g, f))
  {
    EnvKeeps(w, g.first);
    var w1 := EnvRun(w, g.first);
    EnvKeeps(w1, g.second);
    var w2 := EnvRun(w1, g.second);
    if w.spec.name !in w.clusters && w1.spec.name !in w1.namespaces {
      CreateKeeps(w2, g, f);
    }
  }

  lemma CreateKeeps(w: World, g: Gaps, f: Faults)
    requires Inv(w) && w.spec.name !in w.clusters && w.spec.name !in w.namespaces
    ensures Inv(AfterCreate(w, g, f))
  {
    assert SafeEvent(CreatedCluster(w.spec.name, w.spec.name in w.namespaces));
    EnvKeeps(Create(w), g.third);
  }

  lemma OffKeeps(w: World, g: Gaps, f: Faults)
    requires Inv(w) && Honest(w, Off(g, f))
    ensures Inv(OffPass(w, g, f))
  {
    EnvKeeps(w, g.first);
    EnvKeeps(EnvRun(w, g.first), g.second);
  }

  /** In every run of passes, admitted changes and interference, each cluster labelled local has
      the name in the spec, the cluster is created only when its namespace is absent, and the
      namespace is deleted only when the cluster is absent. */
  lemma {:induction false} LifecycleIsSafe(w: World, ops: seq<Op>)
    requires Inv(w) && AllHonest(w, ops)
    ensures Inv(Run(w, ops))
    decreases |ops|
  {
    if ops != [] {
      var n := |ops| - 1;
      var before, op := Run(w, ops[..n]), ops[n];
      assert forall k | 0 <= k < n :: ops[..n][..k] == ops[..k] && ops[..n][k] == ops[k];
      LifecycleIsSafe(w, ops[..n]);
      match op {
        case On(g, f) => OnKeeps(before, g, f);
        case Off(g, f) => OffKeeps(before, g, f);
        case Change(spec) =>
        case Idle(es) => EnvKeeps(before, es);
      }
    }
  }

  // --------------------------------------------------------------- what a pass asks for

  lemma {:induction false} EnvNoCluster(w: World, es: seq<Env>)
    requires w.spec.name !in w.clusters
    ensures w.spec.name !in EnvRun(w, es).clusters && EnvRun(w, es).spec == w.spec
    decreases |es|
  {
    if es != [] { EnvNoCluster(w, es[..|es| - 1]); }
  }

  lemma {:induction false} EnvSilent(w: World, es: seq<Env>)
    ensures EnvRun(w, es).spec == w.spec && EnvRun(w, es).events == w.events
    decreases |es|
  {
    if es != [] { EnvSilent(w, es[..|es| - 1]); }
  }

  /** An enabling pass creates the cluster, under the spec's name and labelled local, exactly when it
      reads the cluster and its namespace as absent and the calls are answered. */
  lemma OnCreatesIff(w: World, g: Gaps, f: Faults)
    ensures
      var n := w.spec.name;
      var r := OnPass(w, g, f);
      var creates :=
        && f.cluster == Answered && n !in w.clusters
        && f.namespace == Answered && n !in EnvRun(w, g.first).namespaces && f.write == Answered;
      if creates then |r.events| == |w.events| + 1 && w.events <= r.events && r.events[|w.events|].CreatedCluster? && r.events[|w.events|].name == n
      else r.events == w.events
  {
    EnvSilent(w, g.first);
    var w1 := EnvRun(w, g.first);
    EnvSilent(w1, g.second);
    var w2 := EnvRun(w1, g.second);
    EnvSilent(Create(w2), g.third);
    if w.spec.name !in w.clusters {
      EnvNoCluster(w, g.first);
      EnvNoCluster(w1, g.second);
    }
  }

  /** Undisturbed, an answered enabling pass on an absent cluster and namespace leaves the cluster
      labelled local and annotated as the spec says. */
  lemma OnEstablishes(w: World, f: Faults)
    requires f == Faults(Answered, Answered, Answered, Answered)
    requires w.spec.name !in w.namespaces || w.spec.name in w.clusters
    ensures var r := OnPass(w, Gaps([], [], []), f);
      && w.spec.name in r.clusters
      && (w.spec.name !in w.clusters ==> r.clusters[w.spec.name].local && !r.clusters[w.spec.name].deleting)
      && (w.spec.name in w.clusters ==>
            r.clusters[w.spec.name].(annotations := w.clusters[w.spec.name].annotations) == w.clusters[w.spec.name])
      && AnnotatedFor(r.clusters[w.spec.name].annotations, w.spec)
      && forall n | n != w.spec.name :: (n in r.clusters <==> n in w.clusters) && (n in w.clusters ==> r.clusters[n] == w.clusters[n])
  {
    AnnotatedSays(if w.spec.name in w.clusters then w.clusters[w.spec.name] else NEW_CLUSTER, w.spec);
  }

  /** The two annotations carry the spec's values, and are absent where it has none. */
  predicate AnnotatedFor(annotations: map<string, string>, spec: Spec) {
    && (spec.nodeSelector.Some? <==> "open-cluster-management/nodeSelector" in annotations)
    && (spec.nodeSelector.Some? ==> annotations["open-cluster-management/nodeSelector"] == spec.nodeSelector.value)
    && (spec.tolerations.Some? <==> "open-cluster-management/tolerations" in annotations)
    && (spec.tolerations.Some? ==> annotations["open-cluster-management/tolerations"] == spec.tolerations.value)
  }

  lemma AnnotatedSays(c: Managed, spec: Spec)
    ensures AnnotatedFor(Annotated(c, spec).annotations, spec)
    ensures forall k | k != NODE_SELECTOR && k != TOLERATIONS ::
      (k in Annotated(c, spec).annotations <==> k in c.annotations) &&
      (k in c.annotations ==> Annotated(c, spec).annotations[k] == c.annotations[k])
  {
    assert |NODE_SELECTOR| != |TOLERATIONS|;
  }

  /** A disabling pass asks for the cluster's deletion exactly when it reads the cluster, the call is
      answered and the cluster is still there; the cluster is then gone or terminating. */
  lemma OffAsksForCluster(w: World, g: Gaps, f: Faults)
    ensures
      var n := w.spec.name;
      var w1 := EnvRun(w, g.first);
      var r := OffPass(w, g, f);
      f.cluster == Answered && n in w.clusters ==>
        if f.write == Answered && n in w1.clusters
        then r.events == w.events + [DeletedCluster(n)] && (n in r.clusters ==> r.clusters[n].deleting)
        else r.events == w.events
  {
    EnvSilent(w, g.first);
  }

  /** Otherwise it asks for the namespace's deletion exactly when it reads the namespace. */
  lemma OffAsksForNamespace(w: World, g: Gaps, f: Faults)
    ensures
      var n := w.spec.name;
      var r := OffPass(w, g, f);
      (f.cluster == NoMatch || (f.cluster == Answered && n !in w.clusters)) ==>
        if f.namespace == Answered && n in EnvRun(w, g.first).namespaces && f.write == Answered
        then |r.events| == |w.events| + 1 && w.events <= r.events && DeletionOf(r.events[|w.events|], n)
        else r.events == w.events
  {
    EnvSilent(w, g.first);
    EnvSilent(EnvRun(w, g.first), g.second);
  }

  // ------------------------------------------------------------------ abandoned namespaces

  /** Whether this call of ensureNoLocalCluster gets to delete namespace n, if n is there: n has the
      spec's name, the cluster is read as absent, and the calls about n are answered. */
  predicate Requests(w: World, op: Op, n: string) {
    && op.Off? && w.spec.name == n
    && (op.f.cluster == NoMatch || (op.f.cluster == Answered && n !in w.clusters))
    && op.f.namespace == Answered && op.f.write == Answered
  }

  predicate RequestsAt(w: World, ops: seq<Op>, n: string, k: nat) {
    k < |ops| && Requests(Run(w, ops[..k]), ops[k], n)
  }

  ghost predicate RequestedDuring(w: World, ops: seq<Op>, n: string) {
    exists k: nat :: RequestsAt(w, ops, n, k)
  }

  /** None of these steps deletes or removes namespace n. */
  predicate Spares(es: seq<Env>, n: string) {
    TerminateNamespace(n) !in es && RemoveNamespace(n) !in es
  }

  /** Nobody but the controller deletes or removes namespace n during the operation. */
  predicate LeftToController(op: Op, n: string) {
    match op
    case On(g, _) => Spares(g.first, n) && Spares(g.second, n) && Spares(g.third, n)
    case Off(g, _) => Spares(g.first, n) && Spares(g.second, n) && Spares(g.third, n)
    case Change(_) => true
    case Idle(es) => Spares(es, n)
  }

  lemma {:induction false} EnvSpares(w: World, es: seq<Env>, n: string)
    requires Spares(es, n) && n in w.namespaces
    ensures n in EnvRun(w, es).namespaces && EnvRun(w, es).namespaces[n] == w.namespaces[n]
    ensures EnvRun(w, es).spec == w.spec && EnvRun(w, es).events == w.events
    decreases |es|
  {
    if es != [] {
      assert es == es[..|es| - 1] + [es[|es| - 1]];
      EnvSpares(w, es[..|es| - 1], n);
    }
  }

  lemma StepSpares(w: World, op: Op, n: string)
    requires LeftToController(op, n) && n in w.namespaces
    ensures n in Step(w, op).namespaces
    ensures Step(w, op).namespaces[n] == if Requests(w, op, n) then Terminating else w.namespaces[n]
  {
    match op
    case Change(spec) =>
    case Idle(es) => EnvSpares(w, es, n);
    case Off(g, f) =>
      EnvSpares(w, g.first, n);
      EnvSpares(EnvRun(w, g.first), g.second, n);
    case On(g, f) =>
      EnvSpares(w, g.first, n);
      var w2 := EnvRun(EnvRun(w, g.first), g.second);
      EnvSpares(EnvRun(w, g.first), g.second, n);
      EnvSpares(Create(w2), g.third, n);
  }

  lemma RequestsAtPrefix(w: World, ops: seq<Op>, n: string, k: nat)
    requires k < |ops| - 1
    ensures RequestsAt(w, ops[..|ops| - 1], n, k) == RequestsAt(w, ops, n, k)
  {
    assert ops[..|ops| - 1][..k] == ops[..k];
  }

  lemma RequestedStep(w: World, ops: seq<Op>, n: string)
    requires ops != []
    ensures RequestedDuring(w, ops, n) <==>
            RequestedDuring(w, ops[..|ops| - 1], n) || RequestsAt(w, ops, n, |ops| - 1)
  {
    var front := ops[..|ops| - 1];
    if k: nat :| RequestsAt(w, ops, n, k) && k < |ops| - 1 { RequestsAtPrefix(w, ops, n, k); }
    if k: nat :| RequestsAt(w, front, n, k) { RequestsAtPrefix(w, ops, n, k); }
  }

  /** Over any run in which others leave it alone, a namespace ends up terminating exactly when some
      disabling pass, at a moment when the namespace had the spec's name, got to delete it. */
  lemma {:induction false} TerminatedIffRequested(w: World, ops: seq<Op>, n: string)
    requires n in w.namespaces && forall i | 0 <= i < |ops| :: LeftToController(ops[i], n)
    ensures n in Run(w, ops).namespaces
    ensures Run(w, ops).namespaces[n] == if RequestedDuring(w, ops, n) then Terminating else w.namespaces[n]
    decreases |ops|
  {
    if ops != [] {
      var k := |ops| - 1;
      TerminatedIffRequested(w, ops[..k], n);
      StepSpares(Run(w, ops[..k]), ops[k], n);
      RequestedStep(w, ops, n);
    }
  }

  // ------------------------------------------------------------------------ renames

  predicate RenamesTo(op: Op, n: string) {
    op.Change? && op.spec.name == n
  }

  predicate DeletionOf(e: Event, n: string) {
    e.DeletedNamespace? && e.name == n
  }

  lemma StepElsewhere(w: World, op: Op, n: string)
    requires w.spec.name != n && !RenamesTo(op, n)
    ensures Step(w, op).spec.name != n && w.events <= Step(w, op).events
    ensures forall i | |w.events| <= i < |Step(w, op).events| :: !DeletionOf(Step(w, op).events[i], n)
  {
    match op
    case Change(spec) =>
    case Idle(es) => EnvSilent(w, es);
    case Off(g, f) =>
      EnvSilent(w, g.first);
      EnvSilent(EnvRun(w, g.first), g.second);
    case On(g, f) =>
      EnvSilent(w, g.first);
      var w2 := EnvRun(EnvRun(w, g.first), g.second);
      EnvSilent(EnvRun(w, g.first), g.second);
      EnvSilent(Create(w2), g.third);
  }

  /** Once the spec has another name, and until it is given this one, no pass asks for the deletion
      of namespace n, whatever others do. */
  lemma {:induction false} NeverAskedAfterRename(w: World, ops: seq<Op>, n: string)
    requires w.spec.name != n && forall i | 0 <= i < |ops| :: !RenamesTo(ops[i], n)
    ensures Run(w, ops).spec.name != n && w.events <= Run(w, ops).events && !RequestedDuring(w, ops, n)
    ensures forall i | |w.events| <= i < |Run(w, ops).events| :: !DeletionOf(Run(w, ops).events[i], n)
    decreases |ops|
  {
    if ops != [] {
      var k := |ops| - 1;
      var before := Run(w, ops[..k]);
      NeverAskedAfterRename(w, ops[..k], n);
      StepElsewhere(before, ops[k], n);
      RequestedStep(w, ops, n);
      forall i | |w.events| <= i < |Run(w, ops).events| ensures !DeletionOf(Run(w, ops).events[i], n) {
        if i < |before.events| { assert Run(w, ops).events[i] == before.events[i]; }
      }
    }
  }

  lemma {:induction false} RunSplit(w: World, a: seq<Op>, b: seq<Op>)
    ensures Run(w, a + b) == Run(Run(w, a), b)
    decreases |b|
  {
    if b == [] {
      assert a + b == a;
    } else {
      assert (a + b)[..|a + b| - 1] == a + b[..|b| - 1];
      RunSplit(w, a, b[..|b| - 1]);
    }
  }

  lemma RunThrough(w: World, a: seq<Op>, op: Op, b: seq<Op>)
    ensures Run(w, a + [op] + b) == Run(Step(Run(w, a), op), b)
  {
    RunSplit(w, a + [op], b);
    RunSplit(w, a, [op]);
    assert [op][..0] == [];
  }

  /** The namespace is there, nobody is deleting it, and the spec names another. */
  predicate Abandoned(w: World, n: string) {
    n in w.namespaces && w.namespaces[n] == Active && w.spec.name != n
  }

  /** Passes and interference until the rename, the rename, and passes and interference after it:
      the old namespace is abandoned in the end if and only if the rename is admitted, which looks
      at ManagedClusters only, and no disabling pass before it got to delete the namespace. */
  lemma RenameAbandonsIff(w: World, before: seq<Op>, spec: Spec, after: seq<Op>, n: string)
    requires n in w.namespaces && w.namespaces[n] == Active
    requires forall op <- before + after :: LeftToController(op, n)
    requires Run(w, before).spec.name == n && spec.name != n && forall op <- after :: !op.Change?
    ensures Abandoned(Run(w, before + [Change(spec)] + after), n) <==>
            MayRename(Run(w, before), spec.name) && !RequestedDuring(w, before, n)
  {
    var w1 := Run(w, before);
    var w2 := Step(w1, Change(spec));
    assert forall i | 0 <= i < |before| :: before[i] in before + after;
    assert forall i | 0 <= i < |after| :: after[i] in before + after;
    TerminatedIffRequested(w, before, n);
    RunThrough(w, before, Change(spec), after);
    if MayRename(w1, spec.name) {
      NeverAskedAfterRename(w2, after, n);
      TerminatedIffRequested(w2, after, n);
    } else {
      NameStays(w2, after);
    }
  }

  lemma {:induction false} NameStays(w: World, ops: seq<Op>)
    requires forall op <- ops :: !op.Change?
    ensures Run(w, ops).spec == w.spec
    decreases |ops|
  {
    if ops != [] {
      var k := |ops| - 1;
      assert ops[k] in ops;
      NameStays(w, ops[..k]);
      var before := Run(w, ops[..k]);
      match ops[k] {
        case Idle(es) => EnvSilent(before, es);
        case Off(g, f) =>
          EnvSilent(before, g.first);
          EnvSilent(EnvRun(before, g.first), g.second);
        case On(g, f) =>
          EnvSilent(before, g.first);
          var w2 := EnvRun(EnvRun(before, g.first), g.second);
          EnvSilent(EnvRun(before, g.first), g.second);
          EnvSilent(Create(w2), g.third);
      }
    }
  }
}
