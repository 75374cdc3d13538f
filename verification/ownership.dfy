/** Ownership and adoption of template resources by the MultiClusterEngines sharing a cluster
    (controllers/backplaneconfig_controller.go, applyTemplate and deleteTemplate). */
module Ownership {
  import opened Labels

  datatype Id = Id(kind: string, namespace: string, name: string)

  datatype Object = Object(
    uid: nat, labels: map<string, string>, body: string, finalizers: set<string>, deleting: bool)

  /** A rendered template before the owner label is put on it. */
  datatype Template = Template(id: Id, labels: map<string, string>, body: string, editable: bool)

  /** The policy is the annotation's value; only the exact text Adopt adopts. */
  datatype Mce = Mce(name: string, target: string, policy: string)

  /** Contents of the cluster and the next unused object identity. */
  datatype State = State(objects: map<Id, Object>, nextUid: nat)

  datatype NamespaceAnswer = NamespaceFound | NamespaceMissing | NamespaceError

  datatype Fault = NoFault | ReadFails | WriteFails

  datatype Outcome = Applied | Skipped | Failed(flagged: bool)

  function Owner(o: Object): string {
    LabelOf(o.labels)
  }

  predicate Adopts(m: Mce) {
    m.policy == "Adopt"
  }

  /** ensureResourceOwnership: may m change this object? */
  predicate Manages(m: Mce, o: Object) {
    MayManage(o.labels, m.name, Adopts(m))
  }

  /** Rendering labels every template with the engine it is rendered for. */
  function Rendered(m: Mce, t: Template): Template {
    t.(labels := t.labels[OWNER := m.name])
  }

  function Created(t: Template, uid: nat): Object {
    Object(uid, t.labels, t.body, {}, false)
  }

  /** Forced server-side apply: the template's labels and content win. */
  function Patched(o: Object, t: Template): Object {
    o.(labels := o.labels + t.labels, body := t.body)
  }

  /** The template's namespace is looked up and not found. */
  predicate BadNamespace(m: Mce, t: Template, ns: NamespaceAnswer) {
    NamespaceChecked(m, t) && ns != NamespaceFound
  }

  predicate NamespaceChecked(m: Mce, t: Template) {
    t.id.kind != "APIService" && t.id.namespace != m.target && t.id.namespace != ""
  }

  /** Object id after its deletion is requested. */
  function Deleted(s: State, id: Id): State
    requires id in s.objects
  {
    if s.objects[id].finalizers == {} then s.(objects := s.objects - {id})
    else s.(objects := s.objects[id := s.objects[id].(deleting := true)])
  }

  // ----------------------------------------------------------------- the operations

  /** Whether the call gets as far as deciding about the object. */
  predicate Reaches(m: Mce, t: Template, ns: NamespaceAnswer, fault: Fault) {
    (NamespaceChecked(m, t) ==> ns == NamespaceFound) && fault == NoFault
  }

  function AfterApply(s: State, m: Mce, raw: Template, ns: NamespaceAnswer, fault: Fault): State {
    var t := Rendered(m, raw);
    if !Reaches(m, t, ns, fault) then s
    else if t.id !in s.objects then State(s.objects[t.id := Created(t, s.nextUid)], s.nextUid + 1)
    else if t.id.kind != "APIService" && Manages(m, s.objects[t.id]) && !t.editable
    then s.(objects := s.objects[t.id := Patched(s.objects[t.id], t)])
    else s
  }

  function AfterErase(s: State, m: Mce, id: Id, fault: Fault): State {
    if fault == NoFault && id in s.objects && Manages(m, s.objects[id]) then Deleted(s, id) else s
  }

  class Server {
    var state: State

    constructor ()
      ensures state == State(map[], 0)
    {
      state := State(map[], 0);
    }

    /** Adoption puts the owner label on the template before it is applied. */
    method EnsureResourceOwnership(existing: Object, template: Template, m: Mce) returns (ok: bool, t: Template)
      ensures ok == Manages(m, existing)
      ensures t == if ok && Owner(existing) != m.name then Rendered(m, template) else template
    {
      var owner := Owner(existing);
      t := template;
      if owner == m.name { return true, t; }
      if owner != "" { return false, t; }
      if m.policy == "Adopt" {
        t := t.(labels := t.labels[OWNER := m.name]);
        return true, t;
      }
      return false, t;
    }

    method EnsureUnstructuredResource(m: Mce, u: Template, fault: Fault) returns (r: Outcome)
      requires u.id.kind == "APIService"
      modifies this
      ensures state == AfterApply(old(state), m, u, NamespaceFound, fault)
      ensures r.Failed? ==> state == old(state) && !r.flagged
      ensures r == Applied <==> u.id !in old(state).objects && fault == NoFault
      ensures r.Failed? <==> fault == ReadFails || (fault == WriteFails && u.id !in old(state).objects)
    {
      var t := Rendered(m, u);
      if fault == ReadFails { return Failed(false); }
      if t.id !in state.objects {
        if fault == WriteFails { return Failed(false); }
        state := State(state.objects[t.id := Created(t, state.nextUid)], state.nextUid + 1);
        return Applied;
      }
      return Skipped;
    }

    method ApplyTemplate(m: Mce, raw: Template, ns: NamespaceAnswer, fault: Fault) returns (r: Outcome)
      modifies this
      ensures state == AfterApply(old(state), m, raw, ns, fault)
      ensures r.Failed? ==> state == old(state)
      ensures r.Failed? ==> (r.flagged <==> raw.id.kind != "APIService" && fault != NoFault && !BadNamespace(m, raw, ns))
      ensures r == Applied <==> Writes(old(state), m, raw, ns, fault)
      ensures r.Failed? <==>
        if BadNamespace(m, raw, ns) then ns == NamespaceError
        else fault == ReadFails || (fault == WriteFails && Writes(old(state), m, raw, ns, NoFault))
    {
      var t := Rendered(m, raw);
      if t.id.kind == "APIService" {
        r := EnsureUnstructuredResource(m, t, fault);
        assert Rendered(m, t) == t;
        return;
      }
      if t.id.namespace != m.target && t.id.namespace != "" {
        if ns == NamespaceMissing { return Skipped; }
        if ns == NamespaceError { return Failed(false); }
      }
      if fault == ReadFails { return Failed(true); }
      if t.id !in state.objects {
        if fault == WriteFails { return Failed(true); }
        state := State(state.objects[t.id := Created(t, state.nextUid)], state.nextUid + 1);
        return Applied;
      }
      var ok, desired := EnsureResourceOwnership(state.objects[t.id], t, m);
      if !ok { return Skipped; }
      assert Rendered(m, t) == t;
      if !desired.editable {
        if fault == WriteFails { return Failed(true); }
        state := state.(objects := state.objects[t.id := Patched(state.objects[t.id], desired)]);
        return Applied;
      }
      return Skipped;
    }

    method DeleteTemplate(m: Mce, id: Id, fault: Fault) returns (r: Outcome)
      modifies this
      ensures state == AfterErase(old(state), m, id, fault)
      ensures r.Failed? ==> state == old(state) && !r.flagged
      ensures r == Applied <==> fault == NoFault && id in old(state).objects && Manages(m, old(state).objects[id])
    {
      if fault == ReadFails { return Failed(false); }
      if id !in state.objects { return Skipped; }
      if !Manages(m, state.objects[id]) { return Skipped; }
      if fault == WriteFails { return Failed(false); }
      state := Deleted(state, id);
      return Applied;
    }
  }

  // ------------------------------------------------------------------- whole runs

  /** Everyone else may create, remove and edit anything, but leaves owner labels, identities and
      pending deletions alone. */
  datatype Foreign =
    | Create(id: Id, labels: map<string, string>, body: string, finalizers: set<string>)
    | Edit(id: Id, labels: map<string, string>, body: string, finalizers: set<string>)
    | Remove(id: Id)

  datatype Step =
    | Apply(m: Mce, t: Template, ns: NamespaceAnswer, fault: Fault)
    | Erase(m: Mce, id: Id, fault: Fault)
    | Other(f: Foreign)

  function AfterForeign(s: State, f: Foreign): State {
    match f
    case Create(id, labels, body, finalizers) =>
      if id in s.objects then s
      else State(s.objects[id := Object(s.nextUid, labels, body, finalizers, false)], s.nextUid + 1)
    case Edit(id, labels, body, finalizers) =>
      if id in s.objects && LabelOf(labels) == Owner(s.objects[id])
      then s.(objects := s.objects[id := s.objects[id].(labels := labels, body := body, finalizers := finalizers)])
      else s
    case Remove(id) => s.(objects := s.objects - {id})
  }

  function After(s: State, step: Step): State {
    match step
    case Apply(m, t, ns, fault) => AfterApply(s, m, t, ns, fault)
    case Erase(m, id, fault) => AfterErase(s, m, id, fault)
    case Other(f) => AfterForeign(s, f)
  }

  function Run(s: State, h: seq<Step>): State {
    if h == [] then s else After(Run(s, h[..|h| - 1]), h[|h| - 1])
  }

  predicate Valid(s: State) {
    forall id <- s.objects :: s.objects[id].uid < s.nextUid
  }

  /** Engines have names. */
  predicate Named(step: Step) {
    step.Other? || step.m.name != ""
  }

  predicate AllNamed(h: seq<Step>) {
    forall i | 0 <= i < |h| :: Named(h[i])
  }

  lemma StepKeeps(s: State, step: Step, id: Id)
    requires Valid(s) && Named(step)
    ensures Valid(After(s, step)) && s.nextUid <= After(s, step).nextUid
    ensures id in After(s, step).objects ==>
      || After(s, step).objects[id].uid >= s.nextUid
      || (id in s.objects && After(s, step).objects[id].uid == s.objects[id].uid
          && (Owner(s.objects[id]) != "" ==> Owner(After(s, step).objects[id]) == Owner(s.objects[id])))
  {
  }

  lemma {:induction false} RunKeeps(s: State, h: seq<Step>, id: Id)
    requires Valid(s) && AllNamed(h)
    ensures Valid(Run(s, h)) && s.nextUid <= Run(s, h).nextUid
    ensures id in Run(s, h).objects ==>
      || Run(s, h).objects[id].uid >= s.nextUid
      || (id in s.objects && Run(s, h).objects[id].uid == s.objects[id].uid
          && (Owner(s.objects[id]) != "" ==> Owner(Run(s, h).objects[id]) == Owner(s.objects[id])))
    decreases |h|
  {
    if h != [] {
      RunKeeps(s, h[..|h| - 1], id);
      StepKeeps(Run(s, h[..|h| - 1]), h[|h| - 1], id);
    }
  }

  /** A non-empty owner label stays for as long as the object lives, whoever acts. */
  lemma OwnerNeverChanges(s: State, h: seq<Step>, id: Id)
    requires Valid(s) && AllNamed(h)
    requires id in s.objects && Owner(s.objects[id]) != ""
    requires id in Run(s, h).objects && Run(s, h).objects[id].uid == s.objects[id].uid
    ensures Owner(Run(s, h).objects[id]) == Owner(s.objects[id])
  {
    RunKeeps(s, h, id);
  }

  predicate SameAt(a: State, b: State, id: Id) {
    (id in a.objects <==> id in b.objects) && (id in a.objects ==> a.objects[id] == b.objects[id])
  }

  /** The step is about id and its engine may change the object there. */
  predicate Entitled(s: State, step: Step, id: Id) {
    && !step.Other?
    && id == (if step.Apply? then step.t.id else step.id)
    && (id in s.objects ==> Manages(step.m, s.objects[id]))
    && (id !in s.objects ==> step.Apply?)
  }

  /** An engine's step changes nothing it is not entitled to change. */
  lemma OnlyEntitledAlter(s: State, step: Step, id: Id)
    requires !step.Other? && !Entitled(s, step, id)
    ensures SameAt(s, After(s, step), id)
  {
  }

  /** The step is about the object at id. */
  predicate ActsOn(step: Step, id: Id) {
    match step
    case Apply(_, t, _, _) => t.id == id
    case Erase(_, target, _) => target == id
    case Other(f) => f.id == id
  }

  /** Every step about id is taken by an engine that may not change an object like o. */
  predicate NoneEntitled(o: Object, h: seq<Step>, id: Id) {
    forall i | 0 <= i < |h| && ActsOn(h[i], id) :: !h[i].Other? && !Manages(h[i].m, o)
  }

  lemma OnlyItsOwn(s: State, step: Step, id: Id)
    requires !ActsOn(step, id)
    ensures SameAt(s, After(s, step), id)
  {
  }

  /** An object survives, untouched, every run in which only engines that neither own nor adopt it
      act on it, whatever anybody does to other objects. */
  lemma {:induction false} StrangersLeaveItAlone(s: State, h: seq<Step>, id: Id)
    requires id in s.objects && NoneEntitled(s.objects[id], h, id)
    ensures SameAt(s, Run(s, h), id)
    decreases |h|
  {
    if h != [] {
      var n := |h| - 1;
      StrangersLeaveItAlone(s, h[..n], id);
      if ActsOn(h[n], id) {
        OnlyEntitledAlter(Run(s, h[..n]), h[n], id);
      } else {
        OnlyItsOwn(Run(s, h[..n]), h[n], id);
      }
    }
  }

  /** Strict engines never alter an unlabelled object. */
  lemma StrictLeavesUnlabelledAlone(s: State, h: seq<Step>, id: Id)
    requires id in s.objects && Owner(s.objects[id]) == ""
    requires forall i | 0 <= i < |h| && ActsOn(h[i], id) ::
               !h[i].Other? && h[i].m.name != "" && !Adopts(h[i].m)
    ensures SameAt(s, Run(s, h), id)
  {
    StrangersLeaveItAlone(s, h, id);
  }

  // -------------------------------------------------------------- non-interference

  /** The run without the steps of other engines than the named one. */
  function Solo(h: seq<Step>, name: string): seq<Step> {
    if h == [] then []
    else
      var last := h[|h| - 1];
      Solo(h[..|h| - 1], name) + if last.Other? || last.m.name == name then [last] else []
  }

  /** The object is there before every step; the last one may delete it. */
  predicate PresentBefore(s: State, h: seq<Step>, id: Id) {
    forall n | 0 <= n < |h| :: id in Run(s, h[..n]).objects
  }

  lemma StepLocal(a: State, b: State, step: Step, id: Id)
    requires SameAt(a, b, id) && id in a.objects
    ensures SameAt(After(a, step), After(b, step), id)
  {
  }

  lemma SoloStep(h: seq<Step>, name: string, s: State)
    requires h != []
    ensures var n, last := |h| - 1, h[|h| - 1];
      Run(s, Solo(h, name)) ==
      if last.Other? || last.m.name == name then After(Run(s, Solo(h[..n], name)), last) else Run(s, Solo(h[..n], name))
  {
    var n, last := |h| - 1, h[|h| - 1];
    var front := Solo(h[..n], name);
    assert (front + [last])[..|front|] == front;
    assert front + [] == front;
  }

  /** What happens to an engine's own object, until it is gone, is what would happen to it if the
      other engines were not there. */
  lemma {:induction false} OthersDoNotInterfere(s: State, h: seq<Step>, id: Id)
    requires Valid(s) && AllNamed(h) && PresentBefore(s, h, id)
    requires id in s.objects && Owner(s.objects[id]) != ""
    ensures id in Run(s, h).objects ==> Owner(Run(s, h).objects[id]) == Owner(s.objects[id])
    ensures SameAt(Run(s, h), Run(s, Solo(h, Owner(s.objects[id]))), id)
    decreases |h|
  {
    if h != [] {
      var n, name := |h| - 1, Owner(s.objects[id]);
      var before := Run(s, h[..n]);
      assert forall k | 0 <= k < n :: h[..n][..k] == h[..k];
      OthersDoNotInterfere(s, h[..n], id);
      assert id in before.objects;
      SoloStep(h, name, s);
      RunKeeps(s, h[..n], id);
      StepKeeps(before, h[n], id);
      if h[n].Other? || h[n].m.name == name {
        StepLocal(before, Run(s, Solo(h[..n], name)), h[n], id);
      } else {
        OnlyEntitledAlter(before, h[n], id);
      }
    }
  }

  // ------------------------------------------------------------------- adoption

  /** The step labels an unlabelled object at id. */
  predicate Adoption(step: Step, id: Id) {
    && step.Apply? && step.t.id == id && id.kind != "APIService" && !step.t.editable
    && Adopts(step.m) && Reaches(step.m, step.t, step.ns, step.fault)
  }

  predicate FirstAdoption(h: seq<Step>, id: Id, k: nat) {
    k < |h| && Adoption(h[k], id) && forall i | 0 <= i < k :: !Adoption(h[i], id)
  }

  lemma AdoptionStep(s: State, step: Step, id: Id)
    requires id in s.objects && id in After(s, step).objects && Named(step)
    requires Owner(s.objects[id]) == ""
    ensures Owner(After(s, step).objects[id]) == if Adoption(step, id) then step.m.name else ""
  {
  }

  /** The first engine to adopt an unlabelled object keeps it; without an adoption it stays
      unlabelled. */
  lemma {:induction false} FirstAdopterWins(s: State, h: seq<Step>, id: Id)
    requires Valid(s) && AllNamed(h) && PresentBefore(s, h, id)
    requires id in s.objects && Owner(s.objects[id]) == "" && id in Run(s, h).objects
    ensures forall k: nat | FirstAdoption(h, id, k) :: Owner(Run(s, h).objects[id]) == h[k].m.name
    ensures (forall k | 0 <= k < |h| :: !Adoption(h[k], id)) ==> Owner(Run(s, h).objects[id]) == ""
    decreases |h|
  {
    if h != [] {
      var n := |h| - 1;
      var before := Run(s, h[..n]);
      assert forall k | 0 <= k < n :: h[..n][..k] == h[..k];
      assert id in before.objects;
      FirstAdopterWins(s, h[..n], id);
      RunKeeps(s, h[..n], id);
      StepKeeps(before, h[n], id);
      if Owner(before.objects[id]) == "" { AdoptionStep(before, h[n], id); }
      forall k: nat | FirstAdoption(h, id, k) ensures Owner(Run(s, h).objects[id]) == h[k].m.name {
        if k < n {
          assert FirstAdoption(h[..n], id, k);
          assert Named(h[k]);
        }
      }
    }
  }

  // ------------------------------------------------------------ applying and deleting

  /** The call gets to write the object: it creates it, or patches one it may change. */
  predicate Writes(s: State, m: Mce, t: Template, ns: NamespaceAnswer, fault: Fault) {
    && fault == NoFault
    && (t.id.kind != "APIService" && t.id.namespace != m.target && t.id.namespace != "" ==> ns == NamespaceFound)
    && (t.id in s.objects ==> t.id.kind != "APIService" && Manages(m, s.objects[t.id]) && !t.editable)
  }

  /** The object carries the template's content and labels, and the engine's owner label. */
  predicate Carries(o: Object, m: Mce, t: Template) {
    && o.body == t.body && Owner(o) == m.name
    && forall l <- t.labels :: l != OWNER ==> l in o.labels && o.labels[l] == t.labels[l]
  }

  /** What the template does not speak of is as it was. */
  ghost predicate KeepsRest(before: Object, after: Object, t: Template) {
    && after.uid == before.uid && after.finalizers == before.finalizers && after.deleting == before.deleting
    && forall l | l != OWNER && l !in t.labels ::
         (l in after.labels <==> l in before.labels) && (l in before.labels ==> after.labels[l] == before.labels[l])
  }

  /** A call that writes puts the template on the object and leaves the rest of it, and every other
      object, alone; a call that does not write changes nothing. */
  lemma ApplyExactly(s: State, m: Mce, t: Template, ns: NamespaceAnswer, fault: Fault)
    requires m.name != ""
    ensures var r := AfterApply(s, m, t, ns, fault);
      && (!Writes(s, m, t, ns, fault) ==> r == s)
      && (Writes(s, m, t, ns, fault) ==>
            && t.id in r.objects && Carries(r.objects[t.id], m, t)
            && (forall id | id != t.id :: SameAt(s, r, id))
            && (if t.id in s.objects then KeepsRest(s.objects[t.id], r.objects[t.id], t)
                else
                  && r.objects[t.id].uid == s.nextUid && r.objects[t.id].finalizers == {} && !r.objects[t.id].deleting
                  && r.objects[t.id].labels.Keys == t.labels.Keys + {OWNER}))
  {
  }

  /** Deletion removes a manageable object without finalizers and marks one with finalizers; in every
      other case it changes nothing. */
  lemma EraseExactly(s: State, m: Mce, id: Id, fault: Fault)
    ensures var r := AfterErase(s, m, id, fault);
      && (forall other | other != id :: SameAt(s, r, other))
      && if fault == NoFault && id in s.objects && Manages(m, s.objects[id])
         then (id in r.objects <==> s.objects[id].finalizers != {})
           && (id in r.objects ==> r.objects[id] == s.objects[id].(deleting := true))
         else r == s
  {
  }

  predicate WritesAt(s: State, h: seq<Step>, id: Id, k: nat) {
    && k < |h| && h[k].Apply? && h[k].t.id == id
    && Writes(Run(s, h[..k]), h[k].m, h[k].t, h[k].ns, h[k].fault)
  }

  /** Step k is the last to write the object, and nobody else acts on it since. */
  ghost predicate LastWrite(s: State, h: seq<Step>, id: Id, k: nat) {
    && WritesAt(s, h, id, k)
    && forall i: nat | k < i < |h| :: !WritesAt(s, h, id, i) && !(h[i].Other? && ActsOn(h[i], id))
  }

  lemma WritesAtPrefix(s: State, h: seq<Step>, id: Id, k: nat)
    requires k < |h| - 1
    ensures WritesAt(s, h[..|h| - 1], id, k) == WritesAt(s, h, id, k)
  {
    assert h[..|h| - 1][..k] == h[..k];
  }

  lemma LastWritePrefix(s: State, h: seq<Step>, id: Id, k: nat)
    requires LastWrite(s, h, id, k) && k < |h| - 1
    ensures LastWrite(s, h[..|h| - 1], id, k)
  {
    var front := h[..|h| - 1];
    WritesAtPrefix(s, h, id, k);
    forall i: nat | k < i < |front| ensures !WritesAt(s, front, id, i) && !(front[i].Other? && ActsOn(front[i], id)) {
      WritesAtPrefix(s, h, id, i);
    }
  }

  lemma QuietStep(s: State, step: Step, id: Id)
    requires Named(step) && !(step.Other? && ActsOn(step, id))
    requires !(step.Apply? && step.t.id == id && Writes(s, step.m, step.t, step.ns, step.fault))
    ensures id in After(s, step).objects ==>
      id in s.objects && After(s, step).objects[id].(deleting := s.objects[id].deleting) == s.objects[id]
  {
    match step
    case Apply(m, t, ns, fault) => ApplyExactly(s, m, t, ns, fault);
    case Erase(m, target, fault) => EraseExactly(s, m, target, fault);
    case Other(f) => OnlyItsOwn(s, step, id);
  }

  /** Over any run, an object carries the template of the last call that wrote it, for as long as
      it exists and nobody else acts on it. */
  lemma {:induction false} LastWriteDecides(s: State, h: seq<Step>, id: Id, k: nat)
    requires AllNamed(h) && LastWrite(s, h, id, k) && id in Run(s, h).objects
    ensures Carries(Run(s, h).objects[id], h[k].m, h[k].t)
    decreases |h|
  {
    var n := |h| - 1;
    var before := Run(s, h[..n]);
    assert Named(h[k]);
    if k == n {
      ApplyExactly(before, h[n].m, h[n].t, h[n].ns, h[n].fault);
    } else {
      LastWritePrefix(s, h, id, k);
      assert !WritesAt(s, h, id, n) && !(h[n].Other? && ActsOn(h[n], id));
      QuietStep(before, h[n], id);
      LastWriteDecides(s, h[..n], id, k);
    }
  }

  /** Applying a template again changes nothing. */
  lemma ApplyIsIdempotent(s: State, m: Mce, t: Template, ns: NamespaceAnswer)
    ensures var once := AfterApply(s, m, t, ns, NoFault); AfterApply(once, m, t, ns, NoFault) == once
  {
    var once := AfterApply(s, m, t, ns, NoFault);
    var r := Rendered(m, t);
    if Reaches(m, r, ns, NoFault) && t.id in s.objects {
      var o := s.objects[t.id];
      assert (o.labels + r.labels) + r.labels == o.labels + r.labels;
      assert Patched(Patched(o, r), r) == Patched(o, r);
    } else if Reaches(m, r, ns, NoFault) {
      assert r.labels + r.labels == r.labels;
    }
  }

  lemma {:induction false} RunSplit(s: State, a: seq<Step>, b: seq<Step>)
    ensures Run(s, a + b) == Run(Run(s, a), b)
    decreases |b|
  {
    if b == [] {
      assert a + b == a;
    } else {
      assert (a + b)[..|a + b| - 1] == a + b[..|b| - 1];
      RunSplit(s, a, b[..|b| - 1]);
    }
  }

  /** Whatever other engines try in between, an engine can take back what it created: the object is
      gone, as it was before. */
  lemma EraseUndoesCreate(s: State, m: Mce, t: Template, h: seq<Step>)
    requires t.id !in s.objects && m.name != ""
    requires forall i | 0 <= i < |h| && ActsOn(h[i], t.id) :: !h[i].Other? && h[i].m.name != m.name
    ensures t.id !in Run(s, [Apply(m, t, NamespaceFound, NoFault)] + h + [Erase(m, t.id, NoFault)]).objects
  {
    var apply, erase := [Apply(m, t, NamespaceFound, NoFault)], [Erase(m, t.id, NoFault)];
    var s1 := AfterApply(s, m, t, NamespaceFound, NoFault);
    assert apply[..0] == [] && erase[..0] == [];
    assert Run(s, apply) == s1;
    assert s1.objects[t.id] == Created(Rendered(m, t), s.nextUid);
    assert Rendered(m, t).labels[OWNER] == m.name;
    StrangersLeaveItAlone(s1, h, t.id);
    RunSplit(s, apply, h);
    RunSplit(s, apply + h, erase);
    assert Run(Run(s1, h), erase) == After(Run(s1, h), erase[0]);
  }
}
