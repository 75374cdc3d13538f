/** What the stored status says after any sequence of reconciles, in terms of the runs alone. */
module StatusTheorems {
  import opened Names
  import opened Conditions
  import opened StatusReport
  import opened StatusRuns

  // ------------------------------------------------------------------ condition types

  /** The fixed condition types are not failure types, and Progressing survives both filters. */
  lemma FixedTypes()
    ensures !Contains(PROGRESSING, COMPONENT_FAILURE) && !Contains(AVAILABLE, COMPONENT_FAILURE)
    ensures !Contains(EXTERNALLY_MANAGED, COMPONENT_FAILURE)
    ensures !Contains(AVAILABLE, EXTERNALLY_MANAGED)
  {
    forall i | 0 <= i <= |EXTERNALLY_MANAGED| ensures !MatchesAt(EXTERNALLY_MANAGED, COMPONENT_FAILURE, i) {
      if i + |COMPONENT_FAILURE| <= |EXTERNALLY_MANAGED| {
        var window := EXTERNALLY_MANAGED[i..i + |COMPONENT_FAILURE|];
        assert window[0] == EXTERNALLY_MANAGED[i] && window[9] == EXTERNALLY_MANAGED[i + 9];
        assert COMPONENT_FAILURE[0] == 'C' && COMPONENT_FAILURE[9] == 'F';
      }
    }
  }

  lemma FailureTypeMatches(name: string, kind: string)
    ensures Contains(FailureType(name, kind), COMPONENT_FAILURE)
  {
    var t := FailureType(name, kind);
    assert t == COMPONENT_FAILURE + (": " + name + " (Kind:" + kind + ")");
    assert MatchesAt(t, COMPONENT_FAILURE, 0);
  }

  lemma FailureTypeInjective(n1: string, k1: string, n2: string, k2: string)
    requires FailureType(n1, k1) == FailureType(n2, k2) && ' ' !in n1 && ' ' !in n2
    ensures n1 == n2 && k1 == k2
  {
    var p := COMPONENT_FAILURE + ": ";
    var r1, r2 := " (Kind:" + k1 + ")", " (Kind:" + k2 + ")";
    assert FailureType(n1, k1) == p + (n1 + r1) && FailureType(n2, k2) == p + (n2 + r2);
    assert n1 + r1 == FailureType(n1, k1)[|p|..] == n2 + r2;
    SpaceSplits(n1, r1, n2, r2);
    assert k1 == r1[7..|r1| - 1] && k2 == r2[7..|r2| - 1];
  }

  lemma SpaceSplits(n1: string, r1: string, n2: string, r2: string)
    requires n1 + r1 == n2 + r2 && ' ' !in n1 && ' ' !in n2
    requires |r1| > 0 && |r2| > 0 && r1[0] == ' ' && r2[0] == ' '
    ensures n1 == n2 && r1 == r2
  {
    var s := n1 + r1;
    assert s[|n1|] == ' ' && s[|n2|] == ' ';
    assert forall i | 0 <= i < |n1| :: s[i] == n1[i];
    assert forall i | 0 <= i < |n2| :: s[i] == n2[i];
    assert |n1| == |n2|;
    assert n1 == s[..|n1|] && n2 == s[..|n2|];
    assert r1 == s[|n1|..] && r2 == s[|n2|..];
  }

  // ------------------------------------------------------------ what the acts establish

  predicate Raises(a: Act, k: string) {
    a.Fail? && FailureType(a.name, a.kind) == k
  }

  predicate Raised(acts: seq<Act>, k: string) {
    exists i :: 0 <= i < |acts| && Raises(acts[i], k)
  }

  /** Act i is the last one about Progressing, and it says False. */
  predicate StallsAt(acts: seq<Act>, i: nat) {
    && i < |acts| && acts[i].Progress? && acts[i].status == StatusFalse
    && forall j | i < j < |acts| :: !acts[j].Progress?
  }

  predicate EndsStalled(acts: seq<Act>) {
    exists i :: 0 <= i < |acts| && StallsAt(acts, i)
  }

  lemma RaisedStep(acts: seq<Act>, k: string)
    requires acts != []
    ensures Raised(acts, k) <==> Raised(acts[..|acts| - 1], k) || Raises(acts[|acts| - 1], k)
  {
    var n := |acts| - 1;
    if i :| 0 <= i < n && Raises(acts[..n][i], k) { assert Raises(acts[i], k); }
    if i :| 0 <= i < n && Raises(acts[i], k) { assert Raises(acts[..n][i], k); }
  }

  lemma {:induction false} ActFailures(t: Table, acts: seq<Act>, k: string)
    requires Contains(k, COMPONENT_FAILURE)
    ensures k in ActTable(t, acts) <==> k in t || Raised(acts, k)
    decreases |acts|
  {
    if acts != [] {
      var n := |acts| - 1;
      ActFailures(t, acts[..n], k);
      FixedTypes();
      RaisedStep(acts, k);
    }
  }

  lemma EndsStalledStep(acts: seq<Act>)
    requires acts != []
    ensures var n := |acts| - 1; EndsStalled(acts) <==>
              if acts[n].Progress? then acts[n].status == StatusFalse else EndsStalled(acts[..n])
  {
    var n := |acts| - 1;
    if acts[n].Progress? {
      if acts[n].status == StatusFalse { assert StallsAt(acts, n); }
    } else {
      if i :| 0 <= i < n && StallsAt(acts[..n], i) { assert StallsAt(acts, i); }
      if i :| 0 <= i < |acts| && StallsAt(acts, i) { assert StallsAt(acts[..n], i); }
    }
  }

  lemma {:induction false} ActStalls(t: Table, acts: seq<Act>)
    requires PROGRESSING in t && t[PROGRESSING].status != StatusFalse
    ensures PROGRESSING in ActTable(t, acts)
    ensures Stalled(ActTable(t, acts)) <==> EndsStalled(acts)
    decreases |acts|
  {
    if acts != [] {
      var n := |acts| - 1;
      ActStalls(t, acts[..n]);
      EndsStalledStep(acts);
      if acts[n].Fail? { FixedTypes(); FailureTypeMatches(acts[n].name, acts[n].kind); }
    }
  }

  lemma PutNoPause(t: Table, c: Condition)
    requires forall k | k in t :: t[k].reason == PAUSED_REASON ==> k == c.kind
    requires c.reason != PAUSED_REASON
    ensures !AnyPaused(Put(t, c))
  {}

  lemma {:induction false} ActNoPause(t: Table, acts: seq<Act>)
    requires !AnyPaused(t)
    ensures !AnyPaused(ActTable(t, acts))
    decreases |acts|
  {
    if acts != [] {
      var n := |acts| - 1;
      ActNoPause(t, acts[..n]);
      if !acts[n].Watch? { ActPutsNoPause(ActTable(t, acts[..n]), acts[n]); }
    }
  }

  lemma ActPutsNoPause(t: Table, a: Act)
    requires !AnyPaused(t) && !a.Watch?
    ensures !AnyPaused(Put(t, ActCondition(a)))
  {
    assert ActCondition(a).reason != PAUSED_REASON;
    PutNoPause(t, ActCondition(a));
  }

  // --------------------------------------------------------------------- one run

  /** Only the Progressing condition ever carries the reason Paused. */
  predicate Clean(t: Table) {
    forall k | k in t && t[k].reason == PAUSED_REASON :: k == PROGRESSING
  }

  lemma OpeningFacts(t: Table, run: Run)
    requires Clean(t)
    ensures !AnyPaused(Opening(t, run))
    ensures PROGRESSING in Opening(t, run) && Opening(t, run)[PROGRESSING].status == StatusTrue
  {
    var kept := DropMatching(t, COMPONENT_FAILURE);
    var marked :=
      if run.managed.Some? then Put(kept, ManagedCondition(run.managed.value))
      else DropMatching(kept, EXTERNALLY_MANAGED);
    assert Clean(marked);
    PutNoPause(marked, StartCondition(run.startedAt));
  }

  /** The failure types stored after a run are exactly those the run raised. */
  lemma FailuresAreThisRuns(t: Table, run: Run, k: string)
    requires Contains(k, COMPONENT_FAILURE)
    ensures k in RunTable(t, run) <==> Raised(run.acts, k)
  {
    FixedTypes();
    assert k !in Opening(t, run);
    ActFailures(Opening(t, run), run.acts, k);
  }

  /** Two failures of a run, for names as Kubernetes allows them, never share a condition. */
  lemma FailurePairsAreThisRuns(t: Table, run: Run, name: string, kind: string)
    requires ' ' !in name && forall i | 0 <= i < |run.acts| && run.acts[i].Fail? :: ' ' !in run.acts[i].name
    ensures FailureType(name, kind) in RunTable(t, run) <==>
            exists i :: 0 <= i < |run.acts| && run.acts[i].Fail? && run.acts[i].name == name && run.acts[i].kind == kind
  {
    var k := FailureType(name, kind);
    FailureTypeMatches(name, kind);
    FailuresAreThisRuns(t, run, k);
    if i :| 0 <= i < |run.acts| && Raises(run.acts[i], k) {
      FailureTypeInjective(run.acts[i].name, run.acts[i].kind, name, kind);
    }
    if i :| 0 <= i < |run.acts| && run.acts[i].Fail? && run.acts[i].name == name && run.acts[i].kind == kind {
      assert Raises(run.acts[i], k);
    }
  }

  lemma CollectedFacts(t: Table, run: Run)
    requires Clean(t)
    ensures AnyPaused(Collected(t, run)) <==> run.paused.Some?
    ensures Clean(Collected(t, run)) && PROGRESSING in Collected(t, run)
    ensures run.paused.None? ==> (Stalled(Collected(t, run)) <==> EndsStalled(run.acts))
  {
    var start := Opening(t, run);
    OpeningFacts(t, run);
    ActNoPause(start, run.acts);
    ActStalls(start, run.acts);
    if run.paused.Some? { assert Collected(t, run)[PROGRESSING].reason == PAUSED_REASON; }
  }

  lemma ReportFacts(t: Table, c: Condition)
    requires c.kind == AVAILABLE && c.reason != PAUSED_REASON && Clean(t)
    ensures Clean(Put(t, c)) && (AnyPaused(Put(t, c)) <==> AnyPaused(t)) && (Stalled(Put(t, c)) <==> Stalled(t))
  {
    if AnyPaused(t) {
      assert t[PROGRESSING].reason == PAUSED_REASON;
      assert Put(t, c)[PROGRESSING] == t[PROGRESSING];
    }
  }

  /** Phase Paused is reported exactly by the runs that end in the pause branch. */
  lemma PausedIff(t: Table, run: Run)
    requires Clean(t)
    ensures RunPhase(t, run) == PhasePaused <==> run.paused.Some?
    ensures Clean(RunTable(t, run))
  {
    CollectedFacts(t, run);
    ReportFacts(Collected(t, run), AvailableCondition(AllReady(RunComponents(run)), run.reportedAt));
  }

  /** What a run must have done to report Available; nothing stored enters. */
  predicate AvailableRun(run: Run) {
    && run.paused.None?
    && !EndsStalled(run.acts)
    && !run.deleting
    && !Fails(run)
    && RunComponents(run) != [] && AllAvailable(run)
  }

  predicate Fails(run: Run) {
    exists i :: 0 <= i < |run.acts| && run.acts[i].Fail?
  }

  predicate AllAvailable(run: Run) {
    forall i | 0 <= i < |RunComponents(run)| :: RunComponents(run)[i].available
  }

  lemma FailedIff(t: Table, run: Run)
    ensures AnyMatching(RunTable(t, run), COMPONENT_FAILURE) <==> Fails(run)
  {
    if k :| k in RunTable(t, run) && Contains(k, COMPONENT_FAILURE) {
      FailuresAreThisRuns(t, run, k);
      var i :| 0 <= i < |run.acts| && Raises(run.acts[i], k);
      assert run.acts[i].Fail?;
    }
    if i :| 0 <= i < |run.acts| && run.acts[i].Fail? {
      var k := FailureType(run.acts[i].name, run.acts[i].kind);
      FailureTypeMatches(run.acts[i].name, run.acts[i].kind);
      assert Raises(run.acts[i], k);
      FailuresAreThisRuns(t, run, k);
    }
  }

  /** The three facts about the reported table that the phase depends on. */
  lemma ReportedFacts(t: Table, run: Run)
    requires Clean(t)
    ensures AnyPaused(RunTable(t, run)) <==> run.paused.Some?
    ensures run.paused.None? ==> (Stalled(RunTable(t, run)) <==> EndsStalled(run.acts))
    ensures AnyMatching(RunTable(t, run), COMPONENT_FAILURE) <==> Fails(run)
  {
    CollectedFacts(t, run);
    ReportFacts(Collected(t, run), AvailableCondition(AllReady(RunComponents(run)), run.reportedAt));
    FailedIff(t, run);
  }

  lemma AvailableIff(t: Table, run: Run)
    requires Clean(t)
    ensures RunPhase(t, run) == PhaseAvailable <==> AvailableRun(run)
  {
    ReportedFacts(t, run);
  }

  /** Error: Progressing was left False, or a failure was raised while components are tracked and
      nothing is being deleted. */
  lemma ErrorIff(t: Table, run: Run)
    requires Clean(t)
    ensures RunPhase(t, run) == PhaseError <==>
      && run.paused.None?
      && (EndsStalled(run.acts) || (!run.deleting && RunComponents(run) != [] && Fails(run)))
  {
    ReportedFacts(t, run);
  }

  lemma UninstallingIff(t: Table, run: Run)
    requires Clean(t)
    ensures RunPhase(t, run) == PhaseUninstalling <==> run.paused.None? && !EndsStalled(run.acts) && run.deleting
  {
    ReportedFacts(t, run);
  }

  /** Progressing: nothing is tracked, or something tracked is unavailable and nothing failed. */
  lemma ProgressingIff(t: Table, run: Run)
    requires Clean(t)
    ensures RunPhase(t, run) == PhaseProgressing <==>
      && run.paused.None? && !EndsStalled(run.acts) && !run.deleting
      && (RunComponents(run) == [] || (!Fails(run) && !AllAvailable(run)))
  {
    ReportedFacts(t, run);
  }

  // ----------------------------------------------------------------- reported content

  /** Condition c says this. */
  predicate Says(c: Condition, status: CondStatus, reason: string, message: string) {
    c.status == status && c.reason == reason && c.message == message
  }

  lemma PutSays(t: Table, c: Condition, k: string)
    ensures k == c.kind ==> k in Put(t, c) && SameContent(Put(t, c)[k], c)
    ensures k != c.kind ==> (k in Put(t, c) <==> k in t) && (k in t ==> Put(t, c)[k] == t[k])
  {
  }

  /** Act i is the last about condition type k. */
  predicate LastAbout(acts: seq<Act>, k: string, i: nat) {
    && i < |acts| && !acts[i].Watch? && ActCondition(acts[i]).kind == k
    && forall j | i < j < |acts| && !acts[j].Watch? :: ActCondition(acts[j]).kind != k
  }

  predicate NoneAbout(acts: seq<Act>, k: string) {
    forall j | 0 <= j < |acts| && !acts[j].Watch? :: ActCondition(acts[j]).kind != k
  }

  lemma {:induction false} LastActSays(t: Table, acts: seq<Act>, k: string, i: nat)
    requires LastAbout(acts, k, i)
    ensures k in ActTable(t, acts) && SameContent(ActTable(t, acts)[k], ActCondition(acts[i]))
    decreases |acts|
  {
    var n := |acts| - 1;
    if i < n {
      LastAboutPrefix(acts, k, i);
      LastActSays(t, acts[..n], k, i);
      OtherActKeeps(ActTable(t, acts[..n]), acts[n], k);
    } else {
      PutSays(ActTable(t, acts[..n]), ActCondition(acts[n]), k);
    }
  }

  lemma OtherActKeeps(t: Table, a: Act, k: string)
    requires k in t && (!a.Watch? ==> ActCondition(a).kind != k)
    ensures var r := if a.Watch? then t else Put(t, ActCondition(a)); k in r && r[k] == t[k]
  {
    if !a.Watch? { PutSays(t, ActCondition(a), k); }
  }

  lemma LastAboutPrefix(acts: seq<Act>, k: string, i: nat)
    requires LastAbout(acts, k, i) && i < |acts| - 1
    ensures var n := |acts| - 1;
      LastAbout(acts[..n], k, i) && (!acts[n].Watch? ==> ActCondition(acts[n]).kind != k)
  {
    var front := acts[..|acts| - 1];
    assert forall j | 0 <= j < |front| :: front[j] == acts[j];
  }

  lemma {:induction false} NoActSays(t: Table, acts: seq<Act>, k: string)
    requires NoneAbout(acts, k)
    ensures k in ActTable(t, acts) <==> k in t
    ensures k in t ==> ActTable(t, acts)[k] == t[k]
    decreases |acts|
  {
    if acts != [] {
      var n := |acts| - 1;
      NoActSays(t, acts[..n], k);
      if !acts[n].Watch? { PutSays(ActTable(t, acts[..n]), ActCondition(acts[n]), k); }
    }
  }

  /** The stored failure condition carries the last failure raised for that name and kind. */
  lemma FailureSays(t: Table, run: Run, i: nat)
    requires i < |run.acts| && run.acts[i].Fail?
    requires LastAbout(run.acts, FailureType(run.acts[i].name, run.acts[i].kind), i)
    ensures var k := FailureType(run.acts[i].name, run.acts[i].kind);
      k in RunTable(t, run) && Says(RunTable(t, run)[k], StatusTrue, "FailedApplyingComponent", run.acts[i].message)
  {
    var k := FailureType(run.acts[i].name, run.acts[i].kind);
    FixedTypes();
    FailureTypeMatches(run.acts[i].name, run.acts[i].kind);
    LastActSays(Opening(t, run), run.acts, k, i);
    ReportingKeeps(t, run, k);
  }

  /** After the acts, only Progressing, by a pause, and Available are set. */
  lemma ReportingKeeps(t: Table, run: Run, k: string)
    requires k != AVAILABLE && (k == PROGRESSING ==> run.paused.None?)
    ensures var acted := ActTable(Opening(t, run), run.acts);
      (k in RunTable(t, run) <==> k in acted) && (k in acted ==> RunTable(t, run)[k] == acted[k])
  {
    PutSays(Collected(t, run), AvailableCondition(AllReady(RunComponents(run)), run.reportedAt), k);
    if run.paused.Some? { PutSays(ActTable(Opening(t, run), run.acts), PausedCondition(run.paused.value), k); }
  }

  /** Progressing says what the pause, or else the last act about it, or else the start said. */
  lemma ProgressingSays(t: Table, run: Run)
    ensures PROGRESSING in RunTable(t, run)
    ensures var c := RunTable(t, run)[PROGRESSING];
      && (run.paused.Some? ==> Says(c, StatusUnknown, "Paused", "Multiclusterengine is paused"))
      && (run.paused.None? && NoneAbout(run.acts, PROGRESSING) ==>
            Says(c, StatusTrue, "WaitingForResource", "Setting the operator"))
      && (run.paused.None? ==> forall i: nat | LastAbout(run.acts, PROGRESSING, i) ::
            SameContent(c, ActCondition(run.acts[i])))
  {
    var start := Opening(t, run);
    if run.paused.Some? {
      PutSays(ActTable(start, run.acts), PausedCondition(run.paused.value), PROGRESSING);
      PutSays(Collected(t, run), AvailableCondition(AllReady(RunComponents(run)), run.reportedAt), PROGRESSING);
    } else {
      ReportingKeeps(t, run, PROGRESSING);
      ProgressingThere(t, run);
      if NoneAbout(run.acts, PROGRESSING) { NoActSays(start, run.acts, PROGRESSING); }
      forall i: nat | LastAbout(run.acts, PROGRESSING, i)
        ensures SameContent(RunTable(t, run)[PROGRESSING], ActCondition(run.acts[i]))
      {
        LastActSays(start, run.acts, PROGRESSING, i);
      }
    }
  }

  lemma ProgressingThere(t: Table, run: Run)
    ensures PROGRESSING in Opening(t, run)
    ensures Says(Opening(t, run)[PROGRESSING], StatusTrue, "WaitingForResource", "Setting the operator")
    ensures PROGRESSING in ActTable(Opening(t, run), run.acts)
  {
    ActsAdd(Opening(t, run), run.acts, PROGRESSING);
  }

  lemma {:induction false} ActsAdd(t: Table, acts: seq<Act>, k: string)
    requires k in t
    ensures k in ActTable(t, acts)
    decreases |acts|
  {
    if acts != [] { ActsAdd(t, acts[..|acts| - 1], k); }
  }

  /** The ComponentsExternallyManaged condition is stored exactly by runs that find managed
      components, and says what the run found. */
  lemma ManagedIff(t: Table, run: Run)
    ensures EXTERNALLY_MANAGED in RunTable(t, run) <==> run.managed.Some?
    ensures run.managed.Some? ==>
      Says(RunTable(t, run)[EXTERNALLY_MANAGED], StatusTrue, "ExternalManagement", run.managed.value.message)
  {
    FixedTypes();
    assert NoneAbout(run.acts, EXTERNALLY_MANAGED) by {
      forall j | 0 <= j < |run.acts| && !run.acts[j].Watch? ensures ActCondition(run.acts[j]).kind != EXTERNALLY_MANAGED {
        if run.acts[j].Fail? { FailureTypeMatches(run.acts[j].name, run.acts[j].kind); }
      }
    }
    NoActSays(Opening(t, run), run.acts, EXTERNALLY_MANAGED);
    ReportingKeeps(t, run, EXTERNALLY_MANAGED);
    OpeningManaged(t, run);
  }

  lemma OpeningManaged(t: Table, run: Run)
    ensures EXTERNALLY_MANAGED in Opening(t, run) <==> run.managed.Some?
    ensures run.managed.Some? ==>
      SameContent(Opening(t, run)[EXTERNALLY_MANAGED], ManagedCondition(run.managed.value))
  {
    assert MatchesAt(EXTERNALLY_MANAGED, EXTERNALLY_MANAGED, 0);
  }

  /** Some act of this run reports Progressing at the given transition time. */
  predicate TimedByAct(acts: seq<Act>, time: int) {
    exists i :: 0 <= i < |acts| && acts[i].Progress? && acts[i].at.transitioned == time
  }

  lemma TimedLater(acts: seq<Act>, time: int)
    requires acts != []
    ensures TimedByAct(acts[..|acts| - 1], time) ==> TimedByAct(acts, time)
  {
    var front := acts[..|acts| - 1];
    assert forall i | 0 <= i < |front| :: front[i] == acts[i];
  }

  lemma {:induction false} ActTimes(t: Table, acts: seq<Act>)
    requires PROGRESSING in t && t[PROGRESSING].status == StatusTrue
    ensures PROGRESSING in ActTable(t, acts)
    ensures ActTable(t, acts)[PROGRESSING].status != StatusTrue ==>
              TimedByAct(acts, ActTable(t, acts)[PROGRESSING].transitioned)
    decreases |acts|
  {
    if acts != [] {
      var n := |acts| - 1;
      var before := ActTable(t, acts[..n]);
      ActTimes(t, acts[..n]);
      if acts[n].Fail? { FixedTypes(); FailureTypeMatches(acts[n].name, acts[n].kind); }
      TimedLater(acts, before[PROGRESSING].transitioned);
      if acts[n].Progress? { assert TimedByAct(acts, acts[n].at.transitioned); }
    }
  }

  /** A stalled Progressing condition is always timed by the run that reports it, however long it
      has been stalled: every run first sets it to True. */
  lemma StalledIsTimedByThisRun(t: Table, run: Run)
    requires Clean(t) && run.paused.None? && EndsStalled(run.acts)
    ensures PROGRESSING in RunTable(t, run) && Stalled(RunTable(t, run))
    ensures TimedByAct(run.acts, RunTable(t, run)[PROGRESSING].transitioned)
  {
    OpeningFacts(t, run);
    CollectedFacts(t, run);
    ActTimes(Opening(t, run), run.acts);
    ReportFacts(Collected(t, run), AvailableCondition(AllReady(RunComponents(run)), run.reportedAt));
  }

  // -------------------------------------------------------------------- many runs

  datatype Stored = Stored(table: Table, version: string)

  function Persist(s: Stored, run: Run): Stored {
    if run.persisted
    then Stored(RunTable(s.table, run), if RunPhase(s.table, run) == PhaseAvailable then run.version else s.version)
    else s
  }

  function PersistAll(s: Stored, runs: seq<Run>): Stored {
    if runs == [] then s else Persist(PersistAll(s, runs[..|runs| - 1]), runs[|runs| - 1])
  }

  /** The operator's loop: each run starts from the status stored last. */
  method ReconcileAll(tracker: StatusTracker, memory: AvailabilityMemory, initial: Status, runs: seq<Run>)
    returns (s: Status)
    requires Distinct(initial.conditions)
    modifies tracker, memory
    ensures Distinct(s.conditions) && (Sorted(initial.conditions) ==> Sorted(s.conditions))
    ensures Stored(TableOf(s.conditions), s.currentVersion)
         == PersistAll(Stored(TableOf(initial.conditions), initial.currentVersion), runs)
  {
    s := initial;
    for i := 0 to |runs|
      invariant Distinct(s.conditions) && (Sorted(initial.conditions) ==> Sorted(s.conditions))
      invariant Stored(TableOf(s.conditions), s.currentVersion)
             == PersistAll(Stored(TableOf(initial.conditions), initial.currentVersion), runs[..i])
    {
      assert runs[..i + 1][..i] == runs[..i];
      var report := Reconcile(tracker, memory, s, runs[i]);
      if runs[i].persisted { s := report; }
    }
    assert runs[..|runs|] == runs;
  }

  lemma {:induction false} StaysClean(s: Stored, runs: seq<Run>)
    requires Clean(s.table)
    ensures Clean(PersistAll(s, runs).table)
    decreases |runs|
  {
    if runs != [] {
      StaysClean(s, runs[..|runs| - 1]);
      PausedIff(PersistAll(s, runs[..|runs| - 1]).table, runs[|runs| - 1]);
    }
  }

  predicate Installs(run: Run) {
    run.persisted && AvailableRun(run)
  }

  lemma PersistVersion(s: Stored, run: Run)
    requires Clean(s.table)
    ensures Persist(s, run).version == if Installs(run) then run.version else s.version
  {
    AvailableIff(s.table, run);
  }

  /** Run i is the latest stored run that reported Available. */
  predicate LatestInstall(runs: seq<Run>, i: nat) {
    i < |runs| && Installs(runs[i]) && forall j | i < j < |runs| :: !Installs(runs[j])
  }

  lemma {:induction false} VersionOfLatest(s: Stored, runs: seq<Run>, i: nat)
    requires Clean(s.table) && LatestInstall(runs, i)
    ensures PersistAll(s, runs).version == runs[i].version
    decreases |runs|
  {
    var n := |runs| - 1;
    StaysClean(s, runs[..n]);
    PersistVersion(PersistAll(s, runs[..n]), runs[n]);
    if i < n {
      assert LatestInstall(runs[..n], i);
      VersionOfLatest(s, runs[..n], i);
    }
  }

  lemma {:induction false} VersionUnchanged(s: Stored, runs: seq<Run>)
    requires Clean(s.table) && forall i | 0 <= i < |runs| :: !Installs(runs[i])
    ensures PersistAll(s, runs).version == s.version
    decreases |runs|
  {
    if runs != [] {
      var n := |runs| - 1;
      StaysClean(s, runs[..n]);
      PersistVersion(PersistAll(s, runs[..n]), runs[n]);
      VersionUnchanged(s, runs[..n]);
    }
  }

  /** The stored version is the initial one, or that of the latest run that reported Available. */
  lemma VersionHistory(s: Stored, runs: seq<Run>)
    requires Clean(s.table)
    ensures forall i: nat | LatestInstall(runs, i) :: PersistAll(s, runs).version == runs[i].version
    ensures (forall i | 0 <= i < |runs| :: !Installs(runs[i])) ==> PersistAll(s, runs).version == s.version
  {
    forall i: nat | LatestInstall(runs, i) ensures PersistAll(s, runs).version == runs[i].version {
      VersionOfLatest(s, runs, i);
    }
    if forall i | 0 <= i < |runs| :: !Installs(runs[i]) { VersionUnchanged(s, runs); }
  }

  // ---------------------------------------------------- the Available condition over runs

  predicate Ready(run: Run) {
    AllReady(RunComponents(run))
  }

  lemma ReadyIff(run: Run)
    ensures Ready(run) <==> RunComponents(run) != [] && AllAvailable(run)
  {
  }

  lemma {:induction false} ActKeepsAvailable(t: Table, acts: seq<Act>)
    ensures (AVAILABLE in ActTable(t, acts) <==> AVAILABLE in t)
    ensures AVAILABLE in t ==> ActTable(t, acts)[AVAILABLE] == t[AVAILABLE]
    decreases |acts|
  {
    if acts != [] {
      var n := |acts| - 1;
      ActKeepsAvailable(t, acts[..n]);
      if acts[n].Fail? { FixedTypes(); FailureTypeMatches(acts[n].name, acts[n].kind); }
    }
  }

  lemma OpeningKeepsAvailable(t: Table, run: Run)
    ensures AVAILABLE in Opening(t, run) <==> AVAILABLE in t
    ensures AVAILABLE in t ==> Opening(t, run)[AVAILABLE] == t[AVAILABLE]
  {
    FixedTypes();
  }

  lemma CollectedKeepsAvailable(t: Table, run: Run)
    ensures AVAILABLE in Collected(t, run) <==> AVAILABLE in t
    ensures AVAILABLE in t ==> Collected(t, run)[AVAILABLE] == t[AVAILABLE]
  {
    OpeningKeepsAvailable(t, run);
    ActKeepsAvailable(Opening(t, run), run.acts);
  }

  lemma PutAvailable(t: Table, ready: bool, at: Times)
    ensures var c := AvailableCondition(ready, at); var r := Put(t, c);
      && AVAILABLE in r && SameContent(r[AVAILABLE], c)
      && r[AVAILABLE].transitioned ==
         if AVAILABLE in t && t[AVAILABLE].status == c.status then t[AVAILABLE].transitioned else at.transitioned
  {
  }

  /** Between reports the Available condition moves exactly when readiness flips. */
  lemma AvailableMoves(t: Table, run: Run)
    ensures AVAILABLE in RunTable(t, run)
    ensures RunTable(t, run)[AVAILABLE].status == ReadyStatus(run)
    ensures RunTable(t, run)[AVAILABLE].transitioned ==
            if AVAILABLE in t && t[AVAILABLE].status == ReadyStatus(run)
            then t[AVAILABLE].transitioned else run.reportedAt.transitioned
  {
    CollectedKeepsAvailable(t, run);
    PutAvailable(Collected(t, run), Ready(run), run.reportedAt);
  }

  /** The Available condition always says what the run found. */
  lemma AvailableSays(t: Table, run: Run)
    ensures AVAILABLE in RunTable(t, run)
    ensures var c := RunTable(t, run)[AVAILABLE];
      if RunComponents(run) != [] && AllAvailable(run)
      then Says(c, StatusTrue, "ComponentsAvailable", "All components available")
      else Says(c, StatusFalse, "ComponentsUnavailable", "Not all components available")
  {
    ReadyIff(run);
    PutAvailable(Collected(t, run), Ready(run), run.reportedAt);
  }

  /** What each run stores in the Available condition; None for a run that stores nothing. */
  function Outcomes(runs: seq<Run>): seq<Option<CondStatus>> {
    seq(|runs|, i requires 0 <= i < |runs| => Outcome(runs[i]))
  }

  function ReadyStatus(run: Run): CondStatus {
    if Ready(run) then StatusTrue else StatusFalse
  }

  /** Position j holds the last outcome before position i. */
  predicate LastOutcome(os: seq<Option<CondStatus>>, j: nat, i: nat) {
    j < i <= |os| && os[j].Some? && forall m | j < m < i :: os[m].None?
  }

  /** Position i starts the trailing stretch of equal outcomes. */
  predicate StreakStart(os: seq<Option<CondStatus>>, i: nat) {
    && i < |os| && os[i].Some?
    && (forall j | i < j < |os| && os[j].Some? :: os[j] == os[i])
    && (forall j | 0 <= j < i && LastOutcome(os, j, i) :: os[j] != os[i])
  }

  lemma StreakPrefix(os: seq<Option<CondStatus>>, i: nat)
    requires StreakStart(os, i) && i < |os| - 1
    ensures StreakStart(os[..|os| - 1], i)
  {
    var n := |os| - 1;
    forall j: nat | LastOutcome(os[..n], j, i) ensures os[j] != os[i] { assert LastOutcome(os, j, i); }
  }

  /** The Available condition, if there is one, carries the last outcome. */
  ghost predicate Follows(t: Table, os: seq<Option<CondStatus>>) {
    AVAILABLE in t ==> exists j: nat :: LastOutcome(os, j, |os|) && os[j] == Some(t[AVAILABLE].status)
  }

  lemma FollowsOn(t: Table, os: seq<Option<CondStatus>>)
    requires Follows(t, os)
    ensures Follows(t, os + [None])
  {
    if AVAILABLE in t {
      var j: nat :| LastOutcome(os, j, |os|) && os[j] == Some(t[AVAILABLE].status);
      assert LastOutcome(os + [None], j, |os| + 1) && (os + [None])[j] == os[j];
    }
  }

  lemma FollowsNew(t: Table, os: seq<Option<CondStatus>>)
    requires AVAILABLE in t
    ensures Follows(t, os + [Some(t[AVAILABLE].status)])
  {
    assert LastOutcome(os + [Some(t[AVAILABLE].status)], |os|, |os| + 1);
  }

  function Outcome(run: Run): Option<CondStatus> {
    if run.persisted then Some(ReadyStatus(run)) else None
  }

  lemma OutcomesAppend(runs: seq<Run>)
    requires runs != []
    ensures Outcomes(runs) == Outcomes(runs[..|runs| - 1]) + [Outcome(runs[|runs| - 1])]
  {
  }

  lemma PersistFollows(s: Stored, run: Run, os: seq<Option<CondStatus>>)
    requires Follows(s.table, os)
    ensures Follows(Persist(s, run).table, os + [Outcome(run)])
  {
    if run.persisted {
      AvailableMoves(s.table, run);
      FollowsNew(RunTable(s.table, run), os);
    } else {
      FollowsOn(s.table, os);
    }
  }

  /** What the initial status and each run leave in the Available condition. */
  function Stages(t: Table, runs: seq<Run>): seq<Option<CondStatus>> {
    [if AVAILABLE in t then Some(t[AVAILABLE].status) else None] + Outcomes(runs)
  }

  lemma StagesAppend(t: Table, runs: seq<Run>)
    requires runs != []
    ensures Stages(t, runs) == Stages(t, runs[..|runs| - 1]) + [Outcome(runs[|runs| - 1])]
  {
    OutcomesAppend(runs);
  }

  /** The stored Available condition follows the last stage. */
  lemma {:induction false} AvailableOfLast(s: Stored, runs: seq<Run>)
    ensures Follows(PersistAll(s, runs).table, Stages(s.table, runs))
    decreases |runs|
  {
    if runs == [] {
      if AVAILABLE in s.table { assert LastOutcome(Stages(s.table, runs), 0, 1); }
    } else {
      var n := |runs| - 1;
      AvailableOfLast(s, runs[..n]);
      StagesAppend(s.table, runs);
      PersistFollows(PersistAll(s, runs[..n]), runs[n], Stages(s.table, runs[..n]));
    }
  }

  /** When stage i was reached. */
  function StageTime(t: Table, runs: seq<Run>, i: nat): int
    requires i <= |runs| && (i == 0 ==> AVAILABLE in t)
  {
    if i == 0 then t[AVAILABLE].transitioned else runs[i - 1].reportedAt.transitioned
  }

  /** The Available condition has the status and the time of the start of the trailing streak. */
  predicate Streaks(t: Table, initial: Table, runs: seq<Run>, i: nat)
    requires i <= |runs| && (i == 0 ==> AVAILABLE in initial)
  {
    && AVAILABLE in t
    && Some(t[AVAILABLE].status) == Stages(initial, runs)[i]
    && t[AVAILABLE].transitioned == StageTime(initial, runs, i)
  }

  /** Over any runs from any status, the stored Available condition has the status and the time of
      the start of the trailing streak of equal readiness; while every stored run agrees with the
      initial status that is the initial time. */
  lemma {:induction false} AvailableStreak(s: Stored, runs: seq<Run>, i: nat)
    requires StreakStart(Stages(s.table, runs), i)
    ensures Streaks(PersistAll(s, runs).table, s.table, runs, i)
    decreases |runs|
  {
    if runs != [] {
      var n := |runs| - 1;
      StagesAppend(s.table, runs);
      if i <= n {
        StreakPrefix(Stages(s.table, runs), i);
        AvailableStreak(s, runs[..n], i);
        StreakGoesOn(PersistAll(s, runs[..n]), s.table, runs, i);
      } else {
        AvailableOfLast(s, runs[..n]);
        StreakFlips(PersistAll(s, runs[..n]).table, Stages(s.table, runs[..n]), Outcome(runs[n]));
        StreakBegins(PersistAll(s, runs[..n]), runs[n]);
      }
    }
  }

  /** A run that agrees with the streak, or stores nothing, leaves the condition as it is. */
  lemma StreakGoesOn(before: Stored, initial: Table, runs: seq<Run>, i: nat)
    requires runs != [] && i < |runs| && StreakStart(Stages(initial, runs), i)
    requires Streaks(before.table, initial, runs[..|runs| - 1], i)
    ensures Streaks(Persist(before, runs[|runs| - 1]).table, initial, runs, i)
  {
    StagesAppend(initial, runs);
    var n := |runs| - 1;
    if runs[n].persisted {
      AvailableMoves(before.table, runs[n]);
      assert Stages(initial, runs)[n + 1] == Stages(initial, runs)[i];
    }
  }

  /** A run that disagrees with what is stored starts a streak. */
  lemma StreakBegins(before: Stored, run: Run)
    requires run.persisted
    requires AVAILABLE in before.table ==> Outcome(run) != Some(before.table[AVAILABLE].status)
    ensures var t := Persist(before, run).table;
      AVAILABLE in t && t[AVAILABLE].status == ReadyStatus(run) && t[AVAILABLE].transitioned == run.reportedAt.transitioned
  {
    AvailableMoves(before.table, run);
  }

  lemma StreakFlips(t: Table, front: seq<Option<CondStatus>>, last: Option<CondStatus>)
    requires StreakStart(front + [last], |front|) && Follows(t, front)
    ensures AVAILABLE in t ==> last != Some(t[AVAILABLE].status)
  {
    if AVAILABLE in t {
      var j: nat :| LastOutcome(front, j, |front|) && front[j] == Some(t[AVAILABLE].status);
      assert LastOutcome(front + [last], j, |front|);
    }
  }

  /** Every stored Available condition is described by such a streak. */
  lemma AvailableHasStreak(s: Stored, runs: seq<Run>)
    requires AVAILABLE in PersistAll(s, runs).table
    ensures exists i: nat :: StreakStart(Stages(s.table, runs), i)
  {
    AvailableOfLast(s, runs);
    var os := Stages(s.table, runs);
    var j: nat :| LastOutcome(os, j, |os|);
    var i := StreakOf(os, j);
  }

  lemma {:induction false} StreakOf(os: seq<Option<CondStatus>>, j: nat) returns (i: nat)
    requires j < |os| && os[j].Some? && forall k | j < k < |os| && os[k].Some? :: os[k] == os[j]
    ensures StreakStart(os, i)
    decreases j
  {
    if e :| 0 <= e < j && LastOutcome(os, e, j) && os[e] == os[j] {
      i := StreakOf(os, e);
    } else {
      i := j;
    }
  }
}
