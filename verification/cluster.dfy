/** The API server as the reconciler sees it: a map of objects, one atomic step per client
    call, and any number of steps of other actors between two calls. */
module ApiServer {
  import opened Names

  datatype Resource =
    | Iec(component: Component)          // InternalEngineComponent in the target namespace
    | HypershiftAddon                    // ManagedClusterAddOn hypershift-addon
    | LocalManagedCluster                // ManagedCluster named Spec.LocalClusterName
    | ClusterManagerCR                   // ClusterManager cluster-manager
    | HubNamespace                       // Namespace open-cluster-management-hub
    | GlobalSetNamespace                 // Namespace open-cluster-management-global-set
    | LocalClusterNamespace              // Namespace named Spec.LocalClusterName
    | MaestroNamespace                   // Namespace maestro
    | Template(kind: string, namespace: string, name: string)

  datatype Obj = Obj(labels: map<string, string>, finalizers: set<string>, deleting: bool)

  type Cluster = map<Resource, Obj>

  /** What other actors may do in one step. */
  datatype EnvAction = Put(target: Resource, obj: Obj) | Remove(target: Resource)

  /** The owner whose existence lets a controller (re)create the resource. */
  function Guard(r: Resource): (g: Option<Resource>)
  {
    match r
    case HubNamespace => Some(ClusterManagerCR)
    case LocalClusterNamespace => Some(LocalManagedCluster)
    case _ => None
  }

  predicate MayAppear(c: Cluster, r: Resource) {
    match r
    case HubNamespace => ClusterManagerCR in c
    case LocalClusterNamespace => LocalManagedCluster in c
    case GlobalSetNamespace | MaestroNamespace => true
    case Template(_, _, _) => true
    case _ => false
  }

  /** Anyone may delete or edit anything; a deletion timestamp is never unset; only the
      resources admitted by MayAppear are created behind the reconciler's back. */
  function EnvStep(c: Cluster, a: EnvAction): Cluster {
    match a
    case Remove(r) => c - {r}
    case Put(r, o) =>
      if r in c then c[r := o.(deleting := o.deleting || c[r].deleting)]
      else if MayAppear(c, r) then c[r := o.(deleting := false)]
      else c
  }

  function EnvRun(c: Cluster, acts: seq<EnvAction>): Cluster
    decreases |acts|
  {
    if acts == [] then c else EnvRun(EnvStep(c, acts[0]), acts[1..])
  }

  /** How the server treats one call: answered, failing, or not knowing the kind. An object that
      exists has a registered kind, so NoKind only shows in calls about absent objects. */
  datatype Fault = Healthy | Broken | NoKind

  datatype GetAnswer = Found(obj: Obj) | NotFound | NoMatch | OtherErr

  datatype DeleteAnswer = Deleted | AlreadyGone | DeleteErr

  datatype Op =
    | Get(key: Resource, got: GetAnswer)
    | Delete(key: Resource, done: DeleteAnswer)
    | Console(ok: bool)
    | DropFinalizer(ok: bool)

  /** One client call together with the cluster it met. */
  datatype Event = Event(pre: Cluster, op: Op)

  /** Everything outside the reconciler's control, indexed by the number of calls made. */
  datatype Oracle = Oracle(env: nat -> seq<EnvAction>, fault: (nat, Resource) -> Fault, plain: nat -> bool)

  datatype World = World(cluster: Cluster, clock: nat, log: seq<Event>)

  /** One call acts on the cluster, then the other actors run until the next call. */
  function Tick(o: Oracle, w: World, op: Op, after: Cluster): World {
    World(EnvRun(after, o.env(w.clock)), w.clock + 1, w.log + [Event(w.cluster, op)])
  }

  function AnswerGet(c: Cluster, r: Resource, f: Fault): GetAnswer {
    if f == Broken then OtherErr
    else if r in c then Found(c[r])
    else if f == NoKind then NoMatch
    else NotFound
  }

  function CallGet(o: Oracle, w: World, r: Resource): (World, GetAnswer) {
    var a := AnswerGet(w.cluster, r, o.fault(w.clock, r));
    (Tick(o, w, Get(r, a), w.cluster), a)
  }

  /** Deletion removes an object without finalizers and only marks the others. */
  function AfterDelete(c: Cluster, r: Resource): Cluster {
    if r !in c then c
    else if c[r].finalizers == {} then c - {r}
    else c[r := c[r].(deleting := true)]
  }

  function CallDelete(o: Oracle, w: World, r: Resource): (World, DeleteAnswer) {
    if o.fault(w.clock, r) == Broken then (Tick(o, w, Delete(r, DeleteErr), w.cluster), DeleteErr)
    else if r !in w.cluster && o.fault(w.clock, r) == NoKind then
      (Tick(o, w, Delete(r, DeleteErr), w.cluster), DeleteErr)
    else if r !in w.cluster then (Tick(o, w, Delete(r, AlreadyGone), w.cluster), AlreadyGone)
    else (Tick(o, w, Delete(r, Deleted), AfterDelete(w.cluster, r)), Deleted)
  }

  /** Cluster version lookup and console plugin removal: touches none of the resources. */
  function CallConsole(o: Oracle, w: World): (World, bool) {
    (Tick(o, w, Console(o.plain(w.clock)), w.cluster), o.plain(w.clock))
  }

  /** The update that removes the finalizer from the MultiClusterEngine. */
  function CallDropFinalizer(o: Oracle, w: World): (World, bool) {
    (Tick(o, w, DropFinalizer(o.plain(w.clock)), w.cluster), o.plain(w.clock))
  }

  // ---------------------------------------------------------------- stability

  predicate Absent(c: Cluster, gone: set<Resource>) {
    forall r <- gone :: r !in c
  }

  /** Nobody recreates the resource unless its guard exists. */
  predicate Durable(r: Resource) {
    !r.GlobalSetNamespace? && !r.MaestroNamespace? && !r.Template?
  }

  /** No member can come back while all members are absent. */
  predicate Closed(gone: set<Resource>) {
    forall r <- gone :: Durable(r) && (Guard(r).Some? ==> Guard(r).value in gone)
  }

  lemma {:induction false} AbsentIsStable(c: Cluster, acts: seq<EnvAction>, gone: set<Resource>)
    requires Closed(gone) && Absent(c, gone)
    ensures Absent(EnvRun(c, acts), gone)
    decreases |acts|
  {
    if acts != [] {
      forall r <- gone ensures r !in EnvStep(c, acts[0]) {
        assert Durable(r);
        if Guard(r).Some? { assert Guard(r).value !in c; }
      }
      AbsentIsStable(EnvStep(c, acts[0]), acts[1..], gone);
    }
  }

  /** An object that is terminating, or gone. */
  predicate Leaving(c: Cluster, r: Resource) {
    r in c ==> c[r].deleting
  }

  lemma {:induction false} LeavingIsStable(c: Cluster, acts: seq<EnvAction>, r: Resource)
    requires Durable(r) && Guard(r).None? && Leaving(c, r)
    ensures Leaving(EnvRun(c, acts), r)
    decreases |acts|
  {
    if acts != [] {
      LeavingIsStable(EnvStep(c, acts[0]), acts[1..], r);
    }
  }
}
