/** What admission keeps over any serialised run of creates, updates and deletes. */
module AdmissionRuns {
  import opened Names
  import opened Components
  import opened Engine
  import opened Admission

  datatype Request =
    | Create(obj: Mce)
    | Update(index: nat, to: Mce, around: Surroundings)
    | Delete(index: nat)

  type Store = seq<Mce>

  predicate NameTaken(store: Store, name: string) {
    exists i :: 0 <= i < |store| && store[i].name == name
  }

  /** Requests that the API server or the webhook refuses leave the store as it is. */
  function Serve(store: Store, r: Request): Store {
    match r
    case Create(obj) =>
      if !NameTaken(store, obj.name) && ValidateCreate(obj, store) == Admitted then store + [obj] else store
    case Update(i, to, around) =>
      if i < |store| && to.name == store[i].name && ValidateUpdate(store[i], to, around) == Admitted
      then store[i := to] else store
    case Delete(i) => if i < |store| then store[..i] + store[i + 1..] else store
  }

  function ServeAll(store: Store, rs: seq<Request>): Store
    decreases |rs|, store
  {
    if rs == [] then store else ServeAll(Serve(store, rs[0]), rs[1..])
  }

  lemma {:induction false} CheckOthersIff(obj: Mce, existing: seq<Mce>)
    ensures CheckOthers(obj, existing).None? <==>
            forall m <- existing ::
              && Effective(m.spec.targetNamespace) != Effective(obj.spec.targetNamespace)
              && (Hosted(m) || Hosted(obj))
    decreases |existing|
  {
    if existing != [] {
      CheckOthersIff(obj, existing[1..]);
      assert forall m :: m in existing <==> m == existing[0] || m in existing[1..];
    }
  }

  // -------------------------------------------------------- one standalone engine

  predicate OneStandalone(store: Store) {
    forall i, j | 0 <= i < j < |store| :: Hosted(store[i]) || Hosted(store[j])
  }

  lemma ServeKeepsOneStandalone(store: Store, r: Request)
    requires OneStandalone(store)
    ensures OneStandalone(Serve(store, r))
  {
    if r.Create? { CheckOthersIff(r.obj, store); }
  }

  lemma {:induction false} RunKeepsOneStandalone(store: Store, rs: seq<Request>)
    requires OneStandalone(store)
    ensures OneStandalone(ServeAll(store, rs))
    decreases |rs|
  {
    if rs != [] {
      ServeKeepsOneStandalone(store, rs[0]);
      RunKeepsOneStandalone(Serve(store, rs[0]), rs[1..]);
    }
  }

  // ------------------------------------------------------------ distinct namespaces

  predicate DistinctNamespaces(store: Store) {
    forall i, j | 0 <= i < j < |store| ::
      Effective(store[i].spec.targetNamespace) != Effective(store[j].spec.targetNamespace)
  }

  /** An empty target namespace is only rewritten to the default. */
  predicate Disciplined(store: Store, r: Request) {
    r.Update? && r.index < |store| && store[r.index].spec.targetNamespace == "" ==>
      Effective(r.to.spec.targetNamespace) == DEFAULT_NAMESPACE
  }

  predicate DisciplinedRun(store: Store, rs: seq<Request>)
    decreases |rs|, store
  {
    rs == [] || (Disciplined(store, rs[0]) && DisciplinedRun(Serve(store, rs[0]), rs[1..]))
  }

  lemma ServeKeepsDistinct(store: Store, r: Request)
    requires DistinctNamespaces(store) && Disciplined(store, r)
    ensures DistinctNamespaces(Serve(store, r))
  {
    if r.Create? { CheckOthersIff(r.obj, store); }
  }

  lemma {:induction false} RunKeepsDistinct(store: Store, rs: seq<Request>)
    requires DistinctNamespaces(store) && DisciplinedRun(store, rs)
    ensures DistinctNamespaces(ServeAll(store, rs))
    decreases |rs|
  {
    if rs != [] {
      ServeKeepsDistinct(store, rs[0]);
      RunKeepsDistinct(Serve(store, rs[0]), rs[1..]);
    }
  }

  /** An admitted update keeps the namespaces distinct exactly when the namespace was already
      set or the new one is not in use. */
  lemma UpdateKeepsDistinctIff(store: Store, i: nat, to: Mce, around: Surroundings)
    requires DistinctNamespaces(store) && i < |store| && to.name == store[i].name
    requires ValidateUpdate(store[i], to, around) == Admitted
    ensures DistinctNamespaces(Serve(store, Update(i, to, around))) <==>
            || store[i].spec.targetNamespace != ""
            || forall j | 0 <= j < |store| && j != i ::
                 Effective(store[j].spec.targetNamespace) != Effective(to.spec.targetNamespace)
  {
    var after := Serve(store, Update(i, to, around));
    assert after == store[i := to];
    if store[i].spec.targetNamespace == "" && DistinctNamespaces(after) {
      forall j | 0 <= j < |store| && j != i
        ensures Effective(store[j].spec.targetNamespace) != Effective(to.spec.targetNamespace)
      {
        assert after[i] == to && after[j] == store[j];
      }
    }
  }

  /** An engine with nothing unusual about it. */
  predicate Plain(m: Mce) {
    AllowedAvailability(m.spec.availability) && ComponentsOf(m.spec) == [] && |m.spec.localClusterName| < MAX_LOCAL_NAME
  }

  lemma PlainCreated(store: Store, m: Mce)
    requires Plain(m) && !NameTaken(store, m.name) && CheckOthers(m, store).None?
    ensures Serve(store, Create(m)) == store + [m]
  {
    var cs := ComponentsOf(m.spec);
    assert CheckComponents(cs, false).None? && Exclusive(cs);
  }

  lemma PlainRetargeted(store: Store, m: Mce, namespace: string, around: Surroundings)
    requires store != [] && store[0] == m && Plain(m) && m.spec.targetNamespace == ""
    ensures var to := m.(spec := m.spec.(targetNamespace := namespace));
      Serve(store, Update(0, to, around)) == store[0 := to]
  {
    var to := m.(spec := m.spec.(targetNamespace := namespace));
    var cs := ComponentsOf(to.spec);
    assert cs == [] && CheckComponents(cs, Enabled(cs, MaestroPreview)).None? && Exclusive(cs) && !Present(cs, Discovery);
    assert ValidateUpdate(m, to, around) == Admitted;
  }

  /** Two creates and one update, all admitted, after which two engines share a namespace: any
      standalone engine that leaves its namespace empty can be moved into a hosted one's. */
  lemma NamespacesCanCollide(a: Mce, b: Mce, around: Surroundings) returns (rs: seq<Request>)
    requires Plain(a) && Plain(b) && a.name != b.name && a.spec.targetNamespace == ""
    requires Hosted(b) && Effective(b.spec.targetNamespace) != DEFAULT_NAMESPACE
    ensures |ServeAll([], rs)| == 2 && !DistinctNamespaces(ServeAll([], rs))
  {
    var to := a.(spec := a.spec.(targetNamespace := b.spec.targetNamespace));
    rs := [Create(a), Create(b), Update(0, to, around)];
    PlainCreated([], a);
    CheckOthersIff(b, [a]);
    PlainCreated([a], b);
    assert [] + [a] == [a] && [a] + [b] == [a, b];
    PlainRetargeted([a, b], a, b.spec.targetNamespace, around);
    assert [a, b][0 := to] == [to, b];
    ServeThree([], rs);
    assert ServeAll([], rs) == [to, b];
    assert Effective([to, b][0].spec.targetNamespace) == Effective([to, b][1].spec.targetNamespace);
  }

  lemma ServeThree(store: Store, rs: seq<Request>)
    requires |rs| == 3
    ensures ServeAll(store, rs) == Serve(Serve(Serve(store, rs[0]), rs[1]), rs[2])
  {
    assert rs[1..][1..][1..] == [];
    assert ServeAll(store, rs) == ServeAll(Serve(store, rs[0]), rs[1..]);
    assert ServeAll(Serve(store, rs[0]), rs[1..]) == ServeAll(Serve(Serve(store, rs[0]), rs[1]), rs[1..][1..]);
  }

  /** Such engines exist. */
  lemma CollisionWitness() returns (a: Mce, b: Mce)
    ensures Plain(a) && Plain(b) && a.name != b.name && a.spec.targetNamespace == ""
    ensures Hosted(b) && Effective(b.spec.targetNamespace) != DEFAULT_NAMESPACE
  {
    a := Mce("a", map[], Spec("", "", "local-cluster", None, None));
    b := Mce("bb", map["deploymentmode" := "Hosted"], Spec("", "shared", "local-cluster", None, None));
    assert |a.name| != |b.name| && |"shared"| != |DEFAULT_NAMESPACE|;
  }

  // --------------------------------------------------------------- maestro stays off

  predicate MaestroOn(m: Mce) {
    Enabled(ComponentsOf(m.spec), MaestroPreview)
  }

  lemma {:induction false} EnabledEntry<N>(cs: seq<Entry<N>>, n: N) returns (c: Entry<N>)
    requires Enabled(cs, n)
    ensures c in cs && c.name == n && c.enabled
    decreases |cs|
  {
    if cs[0].name == n { c := cs[0]; } else { c := EnabledEntry(cs[1..], n); }
  }

  lemma CheckKeepsMaestroOff(cs: ComponentList)
    requires CheckComponents(cs, false).None?
    ensures !Enabled(cs, MaestroPreview)
  {
    CheckComponentsIff(cs, false);
    if Enabled(cs, MaestroPreview) { var c := EnabledEntry(cs, MaestroPreview); }
  }

  /** The engines that have maestro-preview on, by name. */
  function MaestroNames(store: Store): set<string> {
    set i | 0 <= i < |store| && MaestroOn(store[i]) :: store[i].name
  }

  lemma ServeKeepsMaestroOff(store: Store, r: Request)
    ensures MaestroNames(Serve(store, r)) <= MaestroNames(store)
  {
    var after := Serve(store, r);
    forall i | 0 <= i < |after| && MaestroOn(after[i]) ensures after[i].name in MaestroNames(store) {
      match r
      case Create(obj) => if i == |store| { CheckKeepsMaestroOff(ComponentsOf(obj.spec)); }
      case Update(k, to, _) =>
        if k < |store| && i == k && after == store[k := to] {
          if !MaestroOn(store[k]) && after != store { CheckKeepsMaestroOff(ComponentsOf(to.spec)); }
        }
      case Delete(k) =>
        if k < |store| && i >= k { assert after[i] == store[i + 1]; }
    }
  }

  /** Over any run, no engine goes from maestro-preview disabled to enabled. */
  lemma {:induction false} MaestroNeverReturns(store: Store, rs: seq<Request>)
    ensures MaestroNames(ServeAll(store, rs)) <= MaestroNames(store)
    decreases |rs|
  {
    if rs != [] {
      ServeKeepsMaestroOff(store, rs[0]);
      MaestroNeverReturns(Serve(store, rs[0]), rs[1..]);
    }
  }
}
