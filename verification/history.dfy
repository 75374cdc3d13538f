/** The condition table after any history of AddCondition and substring filters, described by
    the calls alone. */
module History {
  import opened Names
  import opened Conditions

  datatype Op = Add(c: Condition) | Drop(sub: string)

  function Step(t: Table, op: Op): Table {
    match op
    case Add(c) => Put(t, c)
    case Drop(sub) => DropMatching(t, sub)
  }

  function Replay(h: seq<Op>): Table {
    if h == [] then map[] else Step(Replay(h[..|h| - 1]), h[|h| - 1])
  }

  /** The list operations of the status package, applied call by call. */
  method Perform(h: seq<Op>) returns (cs: seq<Condition>)
    ensures Distinct(cs) && Sorted(cs) && TableOf(cs) == Replay(h)
  {
    cs := [];
    for i := 0 to |h|
      invariant Distinct(cs) && Sorted(cs) && TableOf(cs) == Replay(h[..i])
    {
      assert h[..i + 1][..i] == h[..i];
      match h[i] {
        case Add(c) => cs := SetCondition(cs, c);
        case Drop(sub) => cs := FilterOutWithSubstring(cs, sub);
      }
    }
    assert h[..|h|] == h;
  }

  // --------------------------------------------------------------- runs of one type

  predicate Adds(op: Op, t: string) {
    op.Add? && op.c.kind == t
  }

  predicate Drops(op: Op, t: string) {
    op.Drop? && Contains(t, op.sub)
  }

  predicate Concerns(op: Op, t: string) {
    Adds(op, t) || Drops(op, t)
  }

  /** Same status; with `exact`, also same reason and message. */
  predicate Same(exact: bool, a: Condition, b: Condition) {
    if exact then SameContent(a, b) else a.status == b.status
  }

  /** Call i is the last one that concerns t before call s. */
  predicate JustBefore(h: seq<Op>, t: string, i: nat, s: nat) {
    i < s <= |h| && Concerns(h[i], t) && forall j | i < j < s :: !Concerns(h[j], t)
  }

  /** Call s starts the trailing run of calls for type t that agree: it adds t, t is not dropped
      afterwards, later additions agree with it, and the addition just before it does not. */
  predicate RunStart(h: seq<Op>, t: string, exact: bool, s: nat) {
    && s < |h|
    && Adds(h[s], t)
    && (forall i | s < i < |h| :: !Drops(h[i], t))
    && (forall i | s < i < |h| && Adds(h[i], t) :: Same(exact, h[s].c, h[i].c))
    && (forall i | 0 <= i < s && JustBefore(h, t, i, s) && h[i].Add? :: !Same(exact, h[i].c, h[s].c))
  }

  /** Where the trailing run starts, computed call by call. */
  function StartOf(h: seq<Op>, t: string, exact: bool): (r: Option<nat>)
    ensures r.Some? ==> r.value < |h| && Adds(h[r.value], t)
  {
    if h == [] then None
    else
      var n := |h| - 1;
      var before := StartOf(h[..n], t, exact);
      if Drops(h[n], t) then None
      else if !Adds(h[n], t) then before
      else if before.Some? && Same(exact, h[before.value].c, h[n].c) then before
      else Some(n)
  }

  lemma {:induction false} LastConcern(h: seq<Op>, t: string, s: nat) returns (i: nat)
    requires s < |h| && Concerns(h[s], t)
    ensures s <= i && JustBefore(h, t, i, |h|)
    decreases |h|
  {
    var n := |h| - 1;
    if Concerns(h[n], t) {
      i := n;
    } else {
      i := LastConcern(h[..n], t, s);
    }
  }

  lemma {:induction false} StartIsRunStart(h: seq<Op>, t: string, exact: bool)
    requires StartOf(h, t, exact).Some?
    ensures RunStart(h, t, exact, StartOf(h, t, exact).value)
    decreases |h|
  {
    var n := |h| - 1;
    var before := StartOf(h[..n], t, exact);
    var s := StartOf(h, t, exact).value;
    if before.Some? { StartIsRunStart(h[..n], t, exact); }
    if s == n {
      forall i | 0 <= i < n && JustBefore(h, t, i, n) && h[i].Add? ensures !Same(exact, h[i].c, h[n].c) {
        assert JustBefore(h[..n], t, i, n);
        if before.None? { DroppedSince(h[..n], t, exact, i); }
      }
    } else {
      forall i | 0 <= i < s && JustBefore(h, t, i, s) && h[i].Add? ensures !Same(exact, h[i].c, h[s].c) {
        assert JustBefore(h[..n], t, i, s);
      }
    }
  }

  /** Without a start, the last call concerning t is not an addition. */
  lemma {:induction false} DroppedSince(h: seq<Op>, t: string, exact: bool, i: nat)
    requires StartOf(h, t, exact).None? && JustBefore(h, t, i, |h|)
    ensures !Adds(h[i], t)
    decreases |h|
  {
    var n := |h| - 1;
    if i < n {
      assert JustBefore(h[..n], t, i, n);
      DroppedSince(h[..n], t, exact, i);
    }
  }

  lemma {:induction false} RunStartIsStart(h: seq<Op>, t: string, exact: bool, s: nat)
    requires RunStart(h, t, exact, s)
    ensures StartOf(h, t, exact) == Some(s)
    decreases |h|
  {
    var n := |h| - 1;
    var before := StartOf(h[..n], t, exact);
    if s < n {
      forall i | 0 <= i < s && JustBefore(h[..n], t, i, s) && h[i].Add? ensures !Same(exact, h[i].c, h[s].c) {
        assert JustBefore(h, t, i, s);
      }
      RunStartIsStart(h[..n], t, exact, s);
    } else if before.Some? {
      RunBreaks(h, t, exact);
    }
  }

  /** A run that starts at the last call differs from the run before it. */
  lemma RunBreaks(h: seq<Op>, t: string, exact: bool)
    requires h != [] && RunStart(h, t, exact, |h| - 1) && StartOf(h[..|h| - 1], t, exact).Some?
    ensures !Same(exact, h[StartOf(h[..|h| - 1], t, exact).value].c, h[|h| - 1].c)
  {
    var g, n := h[..|h| - 1], |h| - 1;
    var s := StartOf(g, t, exact).value;
    StartIsRunStart(g, t, exact);
    var i := LastConcern(g, t, s);
    LastAgrees(g, t, exact, s, i);
    assert JustBefore(h, t, i, n);
    RunDiffers(h, t, exact, n, i);
    SameTransitive(exact, h[s].c, h[i].c, h[n].c);
  }

  lemma RunDiffers(h: seq<Op>, t: string, exact: bool, s: nat, i: nat)
    requires RunStart(h, t, exact, s) && i < s && JustBefore(h, t, i, s) && h[i].Add?
    ensures !Same(exact, h[i].c, h[s].c)
  {
  }

  lemma SameTransitive(exact: bool, a: Condition, b: Condition, c: Condition)
    requires Same(exact, a, b)
    ensures Same(exact, a, c) <==> Same(exact, b, c)
  {
  }

  // ------------------------------------------------------------------- the theorem

  /** The replayed table agrees with the starts of the trailing runs. */
  lemma {:induction false} ReplayByStarts(h: seq<Op>, t: string)
    ensures t in Replay(h) <==> StartOf(h, t, false).Some?
    ensures t in Replay(h) <==> StartOf(h, t, true).Some?
    ensures t in Replay(h) ==>
      && Replay(h)[t].kind == t
      && Replay(h)[t].status == h[StartOf(h, t, false).value].c.status
      && Replay(h)[t].transitioned == h[StartOf(h, t, false).value].c.transitioned
      && SameContent(Replay(h)[t], h[StartOf(h, t, true).value].c)
      && Replay(h)[t].updated == h[StartOf(h, t, true).value].c.updated
    decreases |h|
  {
    if h != [] {
      ReplayByStarts(h[..|h| - 1], t);
    }
  }

  /** The last addition agrees with the start of its run. */
  lemma LastAgrees(h: seq<Op>, t: string, exact: bool, s: nat, i: nat)
    requires RunStart(h, t, exact, s) && JustBefore(h, t, i, |h|)
    ensures Adds(h[i], t) && Same(exact, h[s].c, h[i].c)
  {
    assert Concerns(h[s], t);
    assert i == s || Adds(h[i], t);
  }

  /** After any history, the entry of a live type carries the content of the last addition, the
      transition time of the first addition of the trailing run with that status, and the update
      time of the first addition of the trailing run with that content. */
  lemma ConditionHistory(h: seq<Op>, t: string, s: nat, u: nat, last: nat)
    requires RunStart(h, t, false, s) && RunStart(h, t, true, u) && JustBefore(h, t, last, |h|)
    ensures t in Replay(h) && Adds(h[last], t)
    ensures Replay(h)[t] == h[last].c.(updated := h[u].c.updated, transitioned := h[s].c.transitioned)
  {
    RunStartIsStart(h, t, false, s);
    RunStartIsStart(h, t, true, u);
    ReplayByStarts(h, t);
    LastAgrees(h, t, true, u, last);
  }

  /** Every live type has such runs, so the theorem above describes every entry. */
  lemma ConditionLives(h: seq<Op>, t: string)
    requires t in Replay(h)
    ensures exists s, u, i ::
      RunStart(h, t, false, s) && RunStart(h, t, true, u) && JustBefore(h, t, i, |h|)
  {
    ReplayByStarts(h, t);
    StartIsRunStart(h, t, false);
    StartIsRunStart(h, t, true);
    var i := LastConcern(h, t, StartOf(h, t, false).value);
  }
}
