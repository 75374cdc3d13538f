/** Create-once NetworkPolicies (controllers/networkpolicy.go): one atomic step per client call, with
    any number of steps of the operand teams between two calls. */
module NetworkPolicies {
  import opened Names
  import opened Components

  datatype Id = Id(namespace: string, name: string)

  /** `owner` is the backplaneconfig.name label. */
  datatype Policy = Policy(uid: nat, owner: string, body: string)

  datatype State = State(policies: map<Id, Policy>, nextUid: nat)

  datatype Template = Template(kind: string, id: Id, body: string)

  datatype Engine = Engine(
    name: string, target: string, flag: Option<bool>, list: ComponentList, annotated: seq<Component>)

  /** Rendered chart of a component; None when rendering fails. */
  type Charts = Component -> Option<seq<Template>>

  const MCE_COMPONENTS: seq<Component> := [
    AssistedService, ClusterAPI, ClusterAPIProviderAWS, ClusterAPIProviderAzurePreview,
    ClusterAPIProviderMetal, ClusterAPIProviderOA, ClusterLifecycle, ClusterManager,
    ClusterPermission, ClusterProxyAddon, ConsoleMCE, Discovery, FleetNavigation, Hive, HyperShift,
    HypershiftLocalHosting, ImageBasedInstallOperator, ManagedServiceAccount, ServerFoundation,
    MaestroPreview]

  predicate Active(e: Engine) {
    e.flag.None? || e.flag.value
  }

  // -------------------------------------------------------------------- operand teams

  datatype Act =
    | Create(id: Id, owner: string, body: string)
    | Edit(id: Id, owner: string, body: string)
    | Delete(id: Id)

  function ActStep(s: State, a: Act): State {
    match a
    case Create(id, owner, body) =>
      if id in s.policies then s else State(s.policies[id := Policy(s.nextUid, owner, body)], s.nextUid + 1)
    case Edit(id, owner, body) =>
      if id in s.policies then s.(policies := s.policies[id := s.policies[id].(owner := owner, body := body)]) else s
    case Delete(id) => s.(policies := s.policies - {id})
  }

  function ActRun(s: State, acts: seq<Act>): State {
    if acts == [] then s else ActStep(ActRun(s, acts[..|acts| - 1]), acts[|acts| - 1])
  }

  /** What happens around item number k of a pass: whether its calls fail, and what the operand teams
      do before its write and after it. */
  datatype Moment = Moment(readFails: bool, before: seq<Act>, writeFails: bool, after: seq<Act>)

  type Course = nat -> Moment

  // ------------------------------------------------------------------ specification

  function PoliciesIn(ts: seq<Template>): seq<Template> {
    if ts == [] then []
    else PoliciesIn(ts[..|ts| - 1]) + if ts[|ts| - 1].kind == "NetworkPolicy" then [ts[|ts| - 1]] else []
  }

  function WantedOf(e: Engine, charts: Charts, c: Component): seq<Template> {
    if !Enabled(e.list, c) || c == HypershiftLocalHosting || c in e.annotated || charts(c).None? then []
    else PoliciesIn(charts(c).value)
  }

  /** Policies wanted from each component. */
  type Choice = Component -> seq<Template>

  function ChoiceOf(e: Engine, charts: Charts): Choice {
    c => WantedOf(e, charts, c)
  }

  function Wanted(f: Choice, cs: seq<Component>): seq<Template> {
    if cs == [] then [] else f(cs[0]) + Wanted(f, cs[1..])
  }

  function Created(s: State, owner: string, t: Template): State {
    State(s.policies[t.id := Policy(s.nextUid, owner, t.body)], s.nextUid + 1)
  }

  /** Look up and, if it is missing, create; losing a race to an operand team is an error. */
  function CreateOne(s: State, owner: string, t: Template, m: Moment): (State, bool) {
    if m.readFails then (s, false)
    else
      var s1 := ActRun(s, m.before);
      if t.id in s.policies then (ActRun(s1, m.after), true)
      else if m.writeFails || t.id in s1.policies then (s1, false)
      else (ActRun(Created(s1, owner, t), m.after), true)
  }

  /** The items in order, starting with number k, up to the first error. */
  function CreateFrom(s: State, owner: string, ts: seq<Template>, w: Course, k: nat): (State, bool)
    decreases |ts|, s
  {
    if ts == [] then (s, true)
    else
      var (s1, ok) := CreateOne(s, owner, ts[0], w(k));
      if ok then CreateFrom(s1, owner, ts[1..], w, k + 1) else (s1, false)
  }

  function DeleteOne(s: State, id: Id, m: Moment): (State, bool) {
    var s1 := ActRun(s, m.before);
    if m.writeFails then (s1, false)
    else (ActRun(s1.(policies := s1.policies - {id}), m.after), true)
  }

  function DeleteFrom(s: State, ids: seq<Id>, w: Course, k: nat): (State, bool)
    decreases |ids|, s
  {
    if ids == [] then (s, true)
    else
      var (s1, ok) := DeleteOne(s, ids[0], w(k));
      if ok then DeleteFrom(s1, ids[1..], w, k + 1) else (s1, false)
  }

  predicate Belongs(s: State, e: Engine, id: Id) {
    id in s.policies && id.namespace == e.target && s.policies[id].owner == e.name
  }

  /** What the list call returns: every policy that belongs to the engine, in some order. */
  predicate IsListing(s: State, e: Engine, ids: seq<Id>) {
    && (forall id <- ids :: Belongs(s, e, id))
    && (forall id <- s.policies :: Belongs(s, e, id) ==> id in ids)
  }

  /** One pass; `listing` is the answer of the list call. */
  function AfterPass(s: State, e: Engine, charts: Charts, listing: seq<Id>, w: Course): (State, bool) {
    if Active(e) then CreateFrom(s, e.name, Wanted(ChoiceOf(e, charts), MCE_COMPONENTS), w, 0)
    else DeleteFrom(s, listing, w, 0)
  }

  // ------------------------------------------------------------------- the pass

  lemma {:induction false} CreateJoin(s: State, owner: string, a: seq<Template>, b: seq<Template>, w: Course, k: nat)
    ensures
      var (s1, ok) := CreateFrom(s, owner, a, w, k);
      CreateFrom(s, owner, a + b, w, k) == if ok then CreateFrom(s1, owner, b, w, k + |a|) else (s1, false)
    decreases |a|
  {
    if a == [] {
      assert a + b == b;
    } else {
      assert (a + b)[1..] == a[1..] + b;
      var (s1, ok) := CreateOne(s, owner, a[0], w(k));
      if ok { CreateJoin(s1, owner, a[1..], b, w, k + 1); }
    }
  }

  lemma WantedStep(f: Choice, cs: seq<Component>, i: nat)
    requires i < |cs|
    ensures Wanted(f, cs[i..]) == f(cs[i]) + Wanted(f, cs[i + 1..])
  {
    assert cs[i..][1..] == cs[i + 1..];
  }

  method FilterPolicies(ts: seq<Template>) returns (r: seq<Template>)
    ensures r == PoliciesIn(ts)
  {
    r := [];
    for i := 0 to |ts|
      invariant r == PoliciesIn(ts[..i])
    {
      assert ts[..i + 1][..i] == ts[..i];
      if ts[i].kind == "NetworkPolicy" { r := r + [ts[i]]; }
    }
    assert ts[..|ts|] == ts;
  }

  method PoliciesOf(e: Engine, charts: Charts, c: Component) returns (r: seq<Template>)
    ensures r == WantedOf(e, charts, c)
  {
    if !Enabled(e.list, c) || c == HypershiftLocalHosting || c in e.annotated { return []; }
    if charts(c).None? { return []; }
    r := FilterPolicies(charts(c).value);
  }

  class Server {
    var state: State

    constructor ()
      ensures state == State(map[], 0)
    {
      state := State(map[], 0);
    }

    method CreateIfMissing(owner: string, t: Template, m: Moment) returns (ok: bool)
      modifies this
      ensures (state, ok) == CreateOne(old(state), owner, t, m)
    {
      if m.readFails { return false; }
      var missing := t.id !in state.policies;
      state := ActRun(state, m.before);
      if missing {
        if m.writeFails || t.id in state.policies { return false; }
        state := State(state.policies[t.id := Policy(state.nextUid, owner, t.body)], state.nextUid + 1);
      }
      state := ActRun(state, m.after);
      return true;
    }

    method DeleteListed(listing: seq<Id>, w: Course) returns (ok: bool)
      modifies this
      ensures (state, ok) == DeleteFrom(old(state), listing, w, 0)
    {
      for i := 0 to |listing|
        invariant DeleteFrom(state, listing[i..], w, i) == DeleteFrom(old(state), listing, w, 0)
      {
        assert listing[i..][1..] == listing[i + 1..];
        state := ActRun(state, w(i).before);
        if w(i).writeFails { return false; }
        state := state.(policies := state.policies - {listing[i]});
        state := ActRun(state, w(i).after);
      }
      return true;
    }

    method CreatePolicies(owner: string, policies: seq<Template>, w: Course, k: nat) returns (ok: bool)
      modifies this
      ensures (state, ok) == CreateFrom(old(state), owner, policies, w, k)
    {
      for j := 0 to |policies|
        invariant CreateFrom(state, owner, policies[j..], w, k + j) == CreateFrom(old(state), owner, policies, w, k)
      {
        assert policies[j..][1..] == policies[j + 1..];
        ok := CreateIfMissing(owner, policies[j], w(k + j));
        if !ok { return false; }
      }
      return true;
    }

    method CreateWanted(e: Engine, charts: Charts, cs: seq<Component>, w: Course) returns (ok: bool)
      modifies this
      ensures (state, ok) == CreateFrom(old(state), e.name, Wanted(ChoiceOf(e, charts), cs), w, 0)
    {
      var k: nat := 0;
      ghost var f := ChoiceOf(e, charts);
      for i := 0 to |cs|
        invariant CreateFrom(state, e.name, Wanted(f, cs[i..]), w, k) == CreateFrom(old(state), e.name, Wanted(f, cs), w, 0)
      {
        var policies := PoliciesOf(e, charts, cs[i]);
        WantedStep(f, cs, i);
        assert policies == f(cs[i]);
        CreateJoin(state, e.name, policies, Wanted(f, cs[i + 1..]), w, k);
        ok := CreatePolicies(e.name, policies, w, k);
        if !ok { return false; }
        k := k + |policies|;
      }
      return true;
    }

    method EnsureNetworkPolicies(e: Engine, charts: Charts, listing: seq<Id>, w: Course) returns (ok: bool)
      requires !Active(e) ==> IsListing(state, e, listing)
      modifies this
      ensures (state, ok) == AfterPass(old(state), e, charts, listing, w)
    {
      if !Active(e) {
        ok := DeleteListed(listing, w);
        return;
      }
      ok := CreateWanted(e, charts, MCE_COMPONENTS, w);
    }
  }

  // ------------------------------------------------------------------- what is wanted

  /** The filter goes through the list piece by piece, so it keeps the order. */
  lemma {:induction false} PoliciesInOrder(a: seq<Template>, b: seq<Template>)
    ensures PoliciesIn(a + b) == PoliciesIn(a) + PoliciesIn(b)
    decreases |b|
  {
    if b == [] {
      assert a + b == a;
    } else {
      assert (a + b)[..|a + b| - 1] == a + b[..|b| - 1];
      PoliciesInOrder(a, b[..|b| - 1]);
    }
  }

  /** It keeps every NetworkPolicy as often as it occurs, and nothing else. */
  lemma {:induction false} PoliciesInExactly(ts: seq<Template>, t: Template)
    ensures multiset(PoliciesIn(ts))[t] == if t.kind == "NetworkPolicy" then multiset(ts)[t] else 0
    decreases |ts|
  {
    if ts != [] {
      PoliciesInExactly(ts[..|ts| - 1], t);
      assert ts == ts[..|ts| - 1] + [ts[|ts| - 1]];
    }
  }

  /** A policy is wanted exactly when some listed component wants it. */
  lemma {:induction false} WantedExactly(e: Engine, charts: Charts, cs: seq<Component>, t: Template)
    ensures t in Wanted(ChoiceOf(e, charts), cs) <==> exists c :: c in cs && t in WantedOf(e, charts, c)
    decreases |cs|
  {
    if cs != [] {
      WantedExactly(e, charts, cs[1..], t);
      assert cs == [cs[0]] + cs[1..];
    }
  }

  /** A component wants what its chart renders if it is enabled, not hypershift-local-hosting and not
      annotated as externally managed. */
  lemma WantedOfExactly(e: Engine, charts: Charts, c: Component, t: Template)
    ensures t in WantedOf(e, charts, c) <==>
      && Enabled(e.list, c) && c != HypershiftLocalHosting && c !in e.annotated
      && charts(c).Some? && t in charts(c).value && t.kind == "NetworkPolicy"
  {
    if charts(c).Some? {
      PoliciesInExactly(charts(c).value, t);
      assert t in PoliciesIn(charts(c).value) <==> t in multiset(PoliciesIn(charts(c).value));
      assert t in charts(c).value <==> t in multiset(charts(c).value);
    }
  }

  // ------------------------------------------------------------------- one pass

  predicate Valid(s: State) {
    forall id <- s.policies :: s.policies[id].uid < s.nextUid
  }

  /** None of these steps is about id. */
  predicate Spares(acts: seq<Act>, id: Id) {
    forall i | 0 <= i < |acts| :: acts[i].id != id
  }

  /** During the pass no operand team touches id. */
  ghost predicate SparedBy(w: Course, id: Id) {
    forall k :: Spares(w(k).before, id) && Spares(w(k).after, id)
  }

  function At(s: State, id: Id): Option<Policy> {
    if id in s.policies then Some(s.policies[id]) else None
  }

  lemma {:induction false} ActsKeep(s: State, acts: seq<Act>, id: Id)
    requires Valid(s)
    ensures Valid(ActRun(s, acts)) && s.nextUid <= ActRun(s, acts).nextUid
    ensures Spares(acts, id) ==> At(ActRun(s, acts), id) == At(s, id)
    decreases |acts|
  {
    if acts != [] { ActsKeep(s, acts[..|acts| - 1], id); }
  }

  lemma CreateOneKeeps(s: State, owner: string, t: Template, m: Moment, id: Id)
    requires Valid(s)
    ensures
      var (r, ok) := CreateOne(s, owner, t, m);
      && Valid(r) && s.nextUid <= r.nextUid
      && (Spares(m.before, id) && Spares(m.after, id) ==>
            && (id in s.policies ==> At(r, id) == At(s, id))
            && (id !in s.policies ==>
                  if ok && id == t.id
                  then id in r.policies && r.policies[id].owner == owner && r.policies[id].body == t.body && r.policies[id].uid >= s.nextUid
                  else id !in r.policies))
  {
    ActsKeep(s, m.before, id);
    var s1 := ActRun(s, m.before);
    ActsKeep(s1, m.after, id);
    ActsKeep(Created(s1, owner, t), m.after, id);
  }

  /** Number of items completed before the first error. */
  function Completed(s: State, owner: string, ts: seq<Template>, w: Course, k: nat): (n: nat)
    ensures n <= |ts|
    decreases |ts|, s
  {
    if ts == [] then 0
    else
      var (s1, ok) := CreateOne(s, owner, ts[0], w(k));
      if ok then 1 + Completed(s1, owner, ts[1..], w, k + 1) else 0
  }

  predicate FirstNamed(ts: seq<Template>, id: Id, i: nat) {
    i < |ts| && ts[i].id == id && forall j | 0 <= j < i :: ts[j].id != id
  }

  predicate Mentions(ts: seq<Template>, id: Id) {
    exists i :: 0 <= i < |ts| && ts[i].id == id
  }

  /** Whatever the operand teams do meanwhile to other policies: creation leaves an existing policy
      alone, and a missing one is there afterwards exactly when a completed item names it, with the
      engine's label. */
  lemma {:induction false} CreateOnce(s: State, owner: string, ts: seq<Template>, w: Course, k: nat, id: Id)
    requires Valid(s) && SparedBy(w, id)
    ensures
      var r := CreateFrom(s, owner, ts, w, k).0;
      && Valid(r) && s.nextUid <= r.nextUid
      && (id in s.policies ==> At(r, id) == At(s, id))
      && (id !in s.policies && id in r.policies ==> r.policies[id].owner == owner && r.policies[id].uid >= s.nextUid)
      && (id in r.policies <==> id in s.policies || Mentions(ts[..Completed(s, owner, ts, w, k)], id))
    decreases |ts|
  {
    if ts != [] {
      CreateOneKeeps(s, owner, ts[0], w(k), id);
      var (s1, ok) := CreateOne(s, owner, ts[0], w(k));
      if ok {
        var n := Completed(s1, owner, ts[1..], w, k + 1);
        CreateOnce(s1, owner, ts[1..], w, k + 1, id);
        MentionsStep(ts, n, id);
      }
    }
  }

  lemma MentionsStep(ts: seq<Template>, n: nat, id: Id)
    requires ts != [] && n < |ts|
    ensures Mentions(ts[..n + 1], id) <==> ts[0].id == id || Mentions(ts[1..][..n], id)
  {
    assert ts[..n + 1] == [ts[0]] + ts[1..][..n];
    if i :| 0 <= i < n && ts[1..][..n][i].id == id { assert ts[..n + 1][i + 1].id == id; }
    if ts[0].id == id { assert ts[..n + 1][0].id == id; }
  }

  /** Of several templates with one name the first decides. */
  lemma {:induction false} FirstTemplateWins(
    s: State, owner: string, ts: seq<Template>, w: Course, k: nat, id: Id, i: nat)
    requires Valid(s) && SparedBy(w, id) && id !in s.policies && FirstNamed(ts, id, i)
    requires i < Completed(s, owner, ts, w, k)
    ensures var r := CreateFrom(s, owner, ts, w, k).0; id in r.policies && r.policies[id].body == ts[i].body
    decreases |ts|
  {
    CreateOneKeeps(s, owner, ts[0], w(k), id);
    var s1 := CreateOne(s, owner, ts[0], w(k)).0;
    if i == 0 {
      CreateOnce(s1, owner, ts[1..], w, k + 1, id);
    } else {
      assert ts[0].id != id;
      assert FirstNamed(ts[1..], id, i - 1);
      FirstTemplateWins(s1, owner, ts[1..], w, k + 1, id, i - 1);
    }
  }

  /** Without failing calls, and with the named policies left alone, every item is completed. */
  lemma {:induction false} UndisturbedCompletes(s: State, owner: string, ts: seq<Template>, w: Course, k: nat)
    requires Valid(s) && forall n :: !w(n).readFails && !w(n).writeFails
    requires forall i | 0 <= i < |ts| :: SparedBy(w, ts[i].id)
    ensures CreateFrom(s, owner, ts, w, k).1 && Completed(s, owner, ts, w, k) == |ts|
    decreases |ts|
  {
    if ts != [] {
      assert SparedBy(w, ts[0].id);
      ActsKeep(s, w(k).before, ts[0].id);
      CreateOneKeeps(s, owner, ts[0], w(k), ts[0].id);
      var s1 := CreateOne(s, owner, ts[0], w(k)).0;
      forall i | 0 <= i < |ts[1..]| ensures SparedBy(w, ts[1..][i].id) { assert ts[1..][i] == ts[i + 1]; }
      UndisturbedCompletes(s1, owner, ts[1..], w, k + 1);
    }
  }

  /** A pass with the flag on and no failing call then succeeds, and every wanted policy is there. */
  lemma WantedAreThere(s: State, e: Engine, charts: Charts, w: Course, t: Template)
    requires Valid(s) && Active(e) && forall n :: !w(n).readFails && !w(n).writeFails
    requires forall u <- Wanted(ChoiceOf(e, charts), MCE_COMPONENTS) :: SparedBy(w, u.id)
    requires t in Wanted(ChoiceOf(e, charts), MCE_COMPONENTS)
    ensures AfterPass(s, e, charts, [], w).1 && t.id in AfterPass(s, e, charts, [], w).0.policies
  {
    var ts := Wanted(ChoiceOf(e, charts), MCE_COMPONENTS);
    forall i | 0 <= i < |ts| ensures SparedBy(w, ts[i].id) { assert ts[i] in ts; }
    UndisturbedCompletes(s, e.name, ts, w, 0);
    CreatedAll(s, e.name, ts, w, t);
  }

  /** Item number i of a deleting pass is reached: no deletion up to it fails. */
  ghost predicate Reached(ids: seq<Id>, w: Course, k: nat, id: Id, i: nat) {
    i < |ids| && ids[i] == id && forall n | k <= n <= k + i :: !w(n).writeFails
  }

  ghost predicate Reaches(ids: seq<Id>, w: Course, k: nat, id: Id) {
    exists i: nat :: Reached(ids, w, k, id, i)
  }

  lemma ReachesStep(ids: seq<Id>, w: Course, k: nat, id: Id)
    requires ids != []
    ensures Reaches(ids, w, k, id) <==> !w(k).writeFails && (ids[0] == id || Reaches(ids[1..], w, k + 1, id))
  {
    var rest, next := ids[1..], k + 1;
    if i: nat :| Reached(ids, w, k, id, i) && i > 0 { assert Reached(rest, w, next, id, i - 1); }
    if !w(k).writeFails {
      if ids[0] == id { assert Reached(ids, w, k, id, 0); }
      if i: nat :| Reached(rest, w, next, id, i) { assert Reached(ids, w, k, id, i + 1); }
    }
  }

  lemma DeleteOneKeeps(s: State, target: Id, m: Moment, id: Id)
    requires Valid(s)
    ensures
      var (r, ok) := DeleteOne(s, target, m);
      && Valid(r) && s.nextUid <= r.nextUid && (ok <==> !m.writeFails)
      && (Spares(m.before, id) && Spares(m.after, id) ==> At(r, id) == if ok && id == target then None else At(s, id))
  {
    ActsKeep(s, m.before, id);
    var s1 := ActRun(s, m.before);
    ActsKeep(s1.(policies := s1.policies - {target}), m.after, id);
  }

  /** A deleting pass removes exactly the listed policies it reaches, and modifies none. */
  lemma {:induction false} DeleteExactly(s: State, ids: seq<Id>, w: Course, k: nat, id: Id)
    requires Valid(s) && SparedBy(w, id)
    ensures
      var r := DeleteFrom(s, ids, w, k).0;
      && Valid(r) && s.nextUid <= r.nextUid
      && At(r, id) == if Reaches(ids, w, k, id) then None else At(s, id)
    decreases |ids|
  {
    if ids != [] {
      ReachesStep(ids, w, k, id);
      DeleteOneKeeps(s, ids[0], w(k), id);
      var (s1, ok) := DeleteOne(s, ids[0], w(k));
      if ok { DeleteExactly(s1, ids[1..], w, k + 1, id); }
    }
  }

  lemma {:induction false} AllReached(ids: seq<Id>, w: Course, id: Id)
    requires forall k :: !w(k).writeFails
    ensures Reaches(ids, w, 0, id) <==> id in ids
  {
    if id in ids {
      var i :| 0 <= i < |ids| && ids[i] == id;
      assert Reached(ids, w, 0, id, i);
    }
  }

  /** The pass gets to delete id: the flag is off, the policy is the engine's own when the policies
      are listed, and no call before its deletion fails. */
  ghost predicate PassDeletes(s: State, e: Engine, listing: seq<Id>, w: Course, id: Id) {
    !Active(e) && Belongs(s, e, id) && Reaches(listing, w, 0, id)
  }

  /** An existing policy that no operand team touches is, after a pass, unmodified or deleted, and
      deleted exactly in this case. */
  lemma PassKeepsOrDeletes(s: State, e: Engine, charts: Charts, listing: seq<Id>, w: Course, id: Id)
    requires Valid(s) && SparedBy(w, id) && id in s.policies && (!Active(e) ==> IsListing(s, e, listing))
    ensures At(AfterPass(s, e, charts, listing, w).0, id) ==
            if PassDeletes(s, e, listing, w, id) then None else At(s, id)
  {
    if Active(e) {
      CreateOnce(s, e.name, Wanted(ChoiceOf(e, charts), MCE_COMPONENTS), w, 0, id);
    } else {
      DeleteExactly(s, listing, w, 0, id);
      if i: nat :| Reached(listing, w, 0, id, i) { assert listing[i] in listing; }
    }
  }

  /** Without errors: a policy goes if and only if the flag is off and the policy is the engine's. */
  lemma PassDeletesIff(s: State, e: Engine, charts: Charts, listing: seq<Id>, w: Course, id: Id)
    requires Valid(s) && SparedBy(w, id) && id in s.policies && (!Active(e) ==> IsListing(s, e, listing))
    requires forall k :: !w(k).writeFails
    ensures id !in AfterPass(s, e, charts, listing, w).0.policies <==>
            e.flag == Some(false) && id.namespace == e.target && s.policies[id].owner == e.name
  {
    PassKeepsOrDeletes(s, e, charts, listing, w, id);
    AllReached(listing, w, id);
  }

  // --------------------------------------------------------------------- whole runs

  datatype Op =
    | Pass(e: Engine, charts: Charts, listing: seq<Id>, w: Course)
    | Operand(acts: seq<Act>)

  function Step(s: State, op: Op): State {
    match op
    case Pass(e, charts, listing, w) => AfterPass(s, e, charts, listing, w).0
    case Operand(acts) => ActRun(s, acts)
  }

  function Run(s: State, ops: seq<Op>): State {
    if ops == [] then s else Step(Run(s, ops[..|ops| - 1]), ops[|ops| - 1])
  }

  /** The listing is what the server holds when the pass starts. */
  predicate Faithful(s: State, op: Op) {
    op.Pass? && !Active(op.e) ==> IsListing(s, op.e, op.listing)
  }

  predicate FaithfulRun(s: State, ops: seq<Op>) {
    forall n | 0 <= n < |ops| :: Faithful(Run(s, ops[..n]), ops[n])
  }

  /** No operand team touches id, neither between passes nor during one. */
  ghost predicate Untouched(op: Op, id: Id) {
    match op
    case Pass(_, _, _, w) => SparedBy(w, id)
    case Operand(acts) => Spares(acts, id)
  }

  lemma FaithfulPrefix(s: State, ops: seq<Op>)
    requires ops != [] && FaithfulRun(s, ops)
    ensures FaithfulRun(s, ops[..|ops| - 1]) && Faithful(Run(s, ops[..|ops| - 1]), ops[|ops| - 1])
  {
    var n := |ops| - 1;
    assert forall k | 0 <= k < n :: ops[..n][..k] == ops[..k] && ops[..n][k] == ops[k];
  }

  lemma StepKeeps(s: State, op: Op, id: Id)
    requires Valid(s) && Faithful(s, op) && Untouched(op, id)
    ensures Valid(Step(s, op)) && s.nextUid <= Step(s, op).nextUid
    ensures id !in s.policies && id in Step(s, op).policies ==> Step(s, op).policies[id].uid >= s.nextUid
    ensures id in s.policies ==> At(Step(s, op), id) == if StepDeletes(s, op, id) then None else At(s, id)
  {
    match op
    case Pass(e, charts, listing, w) =>
      if id in s.policies { PassKeepsOrDeletes(s, e, charts, listing, w, id); }
      if Active(e) {
        CreateOnce(s, e.name, Wanted(ChoiceOf(e, charts), MCE_COMPONENTS), w, 0, id);
      } else {
        DeleteExactly(s, listing, w, 0, id);
      }
    case Operand(acts) => ActsKeep(s, acts, id);
  }

  ghost predicate StepDeletes(s: State, op: Op, id: Id) {
    op.Pass? && PassDeletes(s, op.e, op.listing, op.w, id)
  }

  /** Operation i of the run gets to delete id. */
  ghost predicate DeletedAt(s: State, ops: seq<Op>, id: Id, i: nat) {
    i < |ops| && StepDeletes(Run(s, ops[..i]), ops[i], id)
  }

  ghost predicate EverDeleted(s: State, ops: seq<Op>, id: Id) {
    exists i: nat :: DeletedAt(s, ops, id, i)
  }

  lemma DeletedAtPrefix(s: State, ops: seq<Op>, id: Id, i: nat)
    requires i < |ops| - 1
    ensures DeletedAt(s, ops[..|ops| - 1], id, i) == DeletedAt(s, ops, id, i)
  {
    assert ops[..|ops| - 1][..i] == ops[..i];
  }

  lemma DeletedStep(s: State, ops: seq<Op>, id: Id)
    requires ops != []
    ensures EverDeleted(s, ops, id) <==> EverDeleted(s, ops[..|ops| - 1], id) || DeletedAt(s, ops, id, |ops| - 1)
  {
    if EverDeleted(s, ops, id) { DeletedEarlier(s, ops, id); }
    if EverDeleted(s, ops[..|ops| - 1], id) { DeletedLater(s, ops, id); }
  }

  lemma DeletedEarlier(s: State, ops: seq<Op>, id: Id)
    requires ops != [] && EverDeleted(s, ops, id)
    ensures EverDeleted(s, ops[..|ops| - 1], id) || DeletedAt(s, ops, id, |ops| - 1)
  {
    var last, front := |ops| - 1, ops[..|ops| - 1];
    var i: nat :| DeletedAt(s, ops, id, i);
    if i < last {
      DeletedAtPrefix(s, ops, id, i);
      assert EverDeleted(s, front, id);
    } else {
      assert i == last;
    }
  }

  lemma DeletedLater(s: State, ops: seq<Op>, id: Id)
    requires ops != [] && EverDeleted(s, ops[..|ops| - 1], id)
    ensures EverDeleted(s, ops, id)
  {
    var front := ops[..|ops| - 1];
    var i: nat :| DeletedAt(s, front, id, i);
    DeletedAtPrefix(s, ops, id, i);
  }

  /** The object id was at the start is still there, unmodified. */
  predicate Unmodified(s: State, r: State, id: Id) {
    id in s.policies && id in r.policies && r.policies[id] == s.policies[id]
  }

  /** Over any run with the flag flipping, with operand teams active between and during passes, a
      policy they do not touch stays as it is if and only if no pass with the flag off gets to
      delete it. A policy that is recreated later is another object. */
  lemma {:induction false} StaysIffNotDeleted(s: State, ops: seq<Op>, id: Id)
    requires Valid(s) && FaithfulRun(s, ops) && id in s.policies
    requires forall i | 0 <= i < |ops| :: Untouched(ops[i], id)
    ensures Valid(Run(s, ops)) && s.nextUid <= Run(s, ops).nextUid
    ensures Unmodified(s, Run(s, ops), id) <==> !EverDeleted(s, ops, id)
    ensures id in Run(s, ops).policies && !Unmodified(s, Run(s, ops), id) ==> Run(s, ops).policies[id].uid >= s.nextUid
    decreases |ops|
  {
    if ops != [] {
      var n := |ops| - 1;
      FaithfulPrefix(s, ops);
      StaysIffNotDeleted(s, ops[..n], id);
      StepKeeps(Run(s, ops[..n]), ops[n], id);
      DeletedStep(s, ops, id);
    }
  }

  /** Passes create and delete; they never modify: as long as it is the same object, a policy that
      no operand team touches has the same content. */
  lemma PassesNeverModify(s: State, ops: seq<Op>, id: Id)
    requires Valid(s) && FaithfulRun(s, ops) && id in s.policies
    requires forall i | 0 <= i < |ops| :: Untouched(ops[i], id)
    ensures id in Run(s, ops).policies && Run(s, ops).policies[id].uid == s.policies[id].uid ==>
              Run(s, ops).policies[id] == s.policies[id]
  {
    StaysIffNotDeleted(s, ops, id);
  }

  /** Disabling a component does not remove its policies: a policy created for it stays, unmodified,
      in every run of passes with the flag on, whatever their component lists. */
  lemma DisabledComponentKeepsPolicy(
    s: State, e: Engine, charts: Charts, w: Course, c: Component, t: Template, ops: seq<Op>)
    requires Valid(s) && Active(e) && c in MCE_COMPONENTS && t in WantedOf(e, charts, c)
    requires SparedBy(w, t.id) && AfterPass(s, e, charts, [], w).1
    requires forall i | 0 <= i < |ops| ::
      ops[i].Pass? && Active(ops[i].e) && !Enabled(ops[i].e.list, c) && Untouched(ops[i], t.id)
    ensures var s1 := AfterPass(s, e, charts, [], w).0;
      t.id in s1.policies && Unmodified(s1, Run(s1, ops), t.id)
  {
    WantedExactly(e, charts, MCE_COMPONENTS, t);
    CreatedAll(s, e.name, Wanted(ChoiceOf(e, charts), MCE_COMPONENTS), w, t);
    ActivePassesKeep(AfterPass(s, e, charts, [], w).0, ops, t.id);
  }

  lemma CreatedAll(s: State, owner: string, ts: seq<Template>, w: Course, t: Template)
    requires Valid(s) && SparedBy(w, t.id) && t in ts && CreateFrom(s, owner, ts, w, 0).1
    ensures var s1 := CreateFrom(s, owner, ts, w, 0).0; Valid(s1) && t.id in s1.policies
  {
    CompletedAll(s, owner, ts, w, 0);
    CreateOnce(s, owner, ts, w, 0, t.id);
    var i :| 0 <= i < |ts| && ts[i] == t;
    assert ts[..|ts|] == ts && ts[i].id == t.id;
  }

  lemma ActivePassesKeep(s: State, ops: seq<Op>, id: Id)
    requires Valid(s) && id in s.policies
    requires forall i | 0 <= i < |ops| :: ops[i].Pass? && Active(ops[i].e) && Untouched(ops[i], id)
    ensures Unmodified(s, Run(s, ops), id)
  {
    StaysIffNotDeleted(s, ops, id);
  }

  lemma {:induction false} CompletedAll(s: State, owner: string, ts: seq<Template>, w: Course, k: nat)
    requires CreateFrom(s, owner, ts, w, k).1
    ensures Completed(s, owner, ts, w, k) == |ts|
    decreases |ts|
  {
    if ts != [] { CompletedAll(CreateOne(s, owner, ts[0], w(k)).0, owner, ts[1..], w, k + 1); }
  }
}
