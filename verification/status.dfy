/** The status tracker (pkg/status/status.go): what one reconcile collects and reports. */
module StatusReport {
  import opened Conditions
  import opened Tracking

  const AVAILABLE := "Available"
  const PROGRESSING := "Progressing"
  const COMPONENT_FAILURE := "ComponentFailure"
  const EXTERNALLY_MANAGED := "ComponentsExternallyManaged"
  const PAUSED_REASON := "Paused"

  datatype Phase = PhaseProgressing | PhasePaused | PhaseAvailable | PhaseUninstalling | PhaseError

  datatype ComponentCondition = ComponentCondition(name: string, kind: string, available: bool, detail: string)

  /** What the Status call of each reporter returns at report time. */
  type Health = Reporter -> ComponentCondition

  /** The two clock readings of a new condition. */
  datatype Times = Times(updated: int, transitioned: int)

  datatype Status = Status(
    components: seq<ComponentCondition>, conditions: seq<Condition>, phase: Phase,
    desiredVersion: string, currentVersion: string)

  function NewCondition(kind: string, status: CondStatus, reason: string, message: string, at: Times): Condition {
    Condition(kind, status, reason, message, at.updated, at.transitioned)
  }

  // ------------------------------------------------------------------ specification

  predicate AllReady(components: seq<ComponentCondition>) {
    |components| > 0 && forall i | 0 <= i < |components| :: components[i].available
  }

  predicate AnyPaused(t: Table) {
    exists k :: k in t && t[k].reason == PAUSED_REASON
  }

  predicate AnyMatching(t: Table, sub: string) {
    exists k :: k in t && Contains(k, sub)
  }

  predicate Stalled(t: Table) {
    PROGRESSING in t && t[PROGRESSING].status == StatusFalse
  }

  function PhaseOf(t: Table, components: seq<ComponentCondition>, deleting: bool): Phase {
    if AnyPaused(t) then PhasePaused
    else if Stalled(t) then PhaseError
    else if deleting then PhaseUninstalling
    else if |components| == 0 then PhaseProgressing
    else if AnyMatching(t, COMPONENT_FAILURE) then PhaseError
    else if AllReady(components) then PhaseAvailable else PhaseProgressing
  }

  function AvailableCondition(ready: bool, at: Times): Condition {
    if ready then NewCondition(AVAILABLE, StatusTrue, "ComponentsAvailable", "All components available", at)
    else NewCondition(AVAILABLE, StatusFalse, "ComponentsUnavailable", "Not all components available", at)
  }

  function Reported(rs: seq<Reporter>, health: Health): seq<ComponentCondition> {
    seq(|rs|, i requires 0 <= i < |rs| => health(rs[i]))
  }

  /** Availability last seen for each name. */
  function LastSeen(prev: map<string, bool>, components: seq<ComponentCondition>): map<string, bool> {
    if components == [] then prev
    else
      var last := components[|components| - 1];
      LastSeen(prev, components[..|components| - 1])[last.name := last.available]
  }

  /** Position i holds the last report under its name. */
  predicate LastNamed(components: seq<ComponentCondition>, i: nat) {
    i < |components| && forall j | i < j < |components| :: components[j].name != components[i].name
  }

  /** The memory holds the last report per name. */
  lemma {:induction false} LastSeenSays(prev: map<string, bool>, components: seq<ComponentCondition>, i: nat)
    requires LastNamed(components, i)
    ensures var r := LastSeen(prev, components); components[i].name in r && r[components[i].name] == components[i].available
    decreases |components|
  {
    var m := |components| - 1;
    if i < m {
      assert LastNamed(components[..m], i);
      LastSeenSays(prev, components[..m], i);
    }
  }

  /** Names not reported are remembered as before. */
  lemma {:induction false} LastSeenKeeps(prev: map<string, bool>, components: seq<ComponentCondition>, n: string)
    requires forall i | 0 <= i < |components| :: components[i].name != n
    ensures var r := LastSeen(prev, components); (n in r <==> n in prev) && (n in prev ==> r[n] == prev[n])
    decreases |components|
  {
    if components != [] { LastSeenKeeps(prev, components[..|components| - 1], n); }
  }

  // -------------------------------------------------------------------- the tracker

  /** The package variable prevAvailability, shared by every report. */
  class AvailabilityMemory {
    var prev: map<string, bool>

    constructor ()
      ensures prev == map[]
    {
      prev := map[];
    }

    /** The answer does not depend on what the memory holds. */
    method AllComponentsReady(components: seq<ComponentCondition>) returns (ready: bool)
      modifies this
      ensures ready == AllReady(components)
      ensures prev == LastSeen(old(prev), components)
    {
      if |components| == 0 { return false; }
      ready := true;
      for i := 0 to |components|
        invariant ready <==> forall j | 0 <= j < i :: components[j].available
        invariant prev == LastSeen(old(prev), components[..i])
      {
        assert components[..i + 1][..i] == components[..i];
        if !components[i].available { ready := false; }
        prev := prev[components[i].name := components[i].available];
      }
      assert components[..|components|] == components;
    }
  }

  method ConditionPresentWithSubstring(cs: seq<Condition>, sub: string) returns (present: bool)
    requires Distinct(cs)
    ensures present == AnyMatching(TableOf(cs), sub)
  {
    TableKeys(cs);
    for i := 0 to |cs|
      invariant forall j | 0 <= j < i :: !Contains(cs[j].kind, sub)
    {
      if Contains(cs[i].kind, sub) {
        TableMember(cs, cs[i]);
        return true;
      }
    }
    return false;
  }

  method PausedPresent(cs: seq<Condition>) returns (present: bool)
    requires Distinct(cs)
    ensures present == AnyPaused(TableOf(cs))
  {
    TableKeys(cs);
    for i := 0 to |cs|
      invariant forall j | 0 <= j < i :: cs[j].reason != PAUSED_REASON
    {
      if cs[i].reason == PAUSED_REASON {
        TableMember(cs, cs[i]);
        return true;
      }
    }
    return false;
  }

  class StatusTracker {
    var uid: string
    var components: seq<Reporter>
    var conditions: seq<Condition>

    ghost predicate Valid()
      reads this
    {
      DistinctKeys(components) && Distinct(conditions) && Sorted(conditions)
    }

    constructor ()
      ensures Valid() && components == [] && conditions == []
    {
      uid, components, conditions := "", [], [];
    }

    method Reset(id: string)
      modifies this
      ensures Valid() && uid == id && components == [] && conditions == []
    {
      uid, components, conditions := id, [], [];
    }

    method AddComponent(sr: Reporter)
      requires Valid()
      modifies this`components
      ensures Valid()
      ensures components == if HasKey(old(components), sr.key) then old(components) else old(components) + [sr]
    {
      for i := 0 to |components|
        invariant components == old(components)
        invariant forall j | 0 <= j < i :: components[j].key != sr.key
      {
        if components[i].key == sr.key { return; }
      }
      components := components + [sr];
    }

    method RemoveComponent(sr: Reporter)
      requires Valid()
      modifies this`components
      ensures Valid()
      ensures components == Dropped(old(components), sr.key)
    {
      DroppedKeeps(components, sr.key);
      for i := 0 to |components|
        invariant components == old(components)
        invariant forall j | 0 <= j < i :: components[j].key != sr.key
      {
        if components[i].key == sr.key {
          DroppedByCut(components, i);
          components := components[..i] + components[i + 1..];
          return;
        }
      }
      DroppedAbsent(components, sr.key);
    }

    method AddCondition(c: Condition)
      requires Valid()
      modifies this`conditions
      ensures Valid() && TableOf(conditions) == Put(old(TableOf(conditions)), c)
    {
      conditions := SetCondition(conditions, c);
    }

    method DropConditions(sub: string)
      requires Valid()
      modifies this`conditions
      ensures Valid() && TableOf(conditions) == DropMatching(old(TableOf(conditions)), sub)
    {
      conditions := FilterOutWithSubstring(conditions, sub);
    }

    /** One component condition per tracked key, in tracking order. */
    method ReportComponents(health: Health) returns (r: seq<ComponentCondition>)
      ensures r == Reported(components, health)
    {
      r := [];
      for i := 0 to |components|
        invariant r == Reported(components[..i], health)
      {
        r := r + [health(components[i])];
      }
      assert components[..|components|] == components;
    }

    method ReportPhase(memory: AvailabilityMemory, deleting: bool, comps: seq<ComponentCondition>) returns (p: Phase)
      requires Valid()
      modifies memory
      ensures p == PhaseOf(TableOf(conditions), comps, deleting)
    {
      var progress := GetCondition(conditions, PROGRESSING);
      var paused := PausedPresent(conditions);
      if paused { return PhasePaused; }
      if progress.Some? && progress.value.status == StatusFalse { return PhaseError; }
      if deleting { return PhaseUninstalling; }
      if |comps| == 0 { return PhaseProgressing; }
      var failing := ConditionPresentWithSubstring(conditions, COMPONENT_FAILURE);
      if failing { return PhaseError; }
      var ready := memory.AllComponentsReady(comps);
      return if ready then PhaseAvailable else PhaseProgressing;
    }

    method ReportStatus(
      memory: AvailabilityMemory, health: Health, deleting: bool, current: string, version: string, at: Times)
      returns (s: Status)
      requires Valid()
      modifies this`conditions, memory
      ensures Valid() && s.conditions == conditions
      ensures s.components == Reported(components, health)
      ensures TableOf(conditions) == Put(old(TableOf(conditions)), AvailableCondition(AllReady(s.components), at))
      ensures s.phase == PhaseOf(TableOf(s.conditions), s.components, deleting)
      ensures s.desiredVersion == version
      ensures s.currentVersion == if s.phase == PhaseAvailable then version else current
    {
      var comps := ReportComponents(health);
      var ready := memory.AllComponentsReady(comps);
      AddCondition(AvailableCondition(ready, at));
      var phase := ReportPhase(memory, deleting, comps);
      s := Status(comps, conditions, phase, version, if phase == PhaseAvailable then version else current);
    }
  }
}
