/** Components under watch (pkg/status/status.go): a slice edited in place that represents an
    insertion-ordered map keyed by name, namespace and kind. */
module Tracking {
  datatype Key = Key(name: string, namespace: string, kind: string)

  /** A status reporter: its key, and whatever else its Status call consults. */
  datatype Reporter = Reporter(key: Key, detail: string)

  datatype TrackOp = Track(sr: Reporter) | Untrack(sr: Reporter)

  predicate DistinctKeys(rs: seq<Reporter>) {
    forall i, j | 0 <= i < j < |rs| :: rs[i].key != rs[j].key
  }

  predicate HasKey(rs: seq<Reporter>, k: Key) {
    exists i :: 0 <= i < |rs| && rs[i].key == k
  }

  /** The list without the entries under key k. */
  function Dropped(rs: seq<Reporter>, k: Key): seq<Reporter> {
    if rs == [] then []
    else Dropped(rs[..|rs| - 1], k) + if rs[|rs| - 1].key == k then [] else [rs[|rs| - 1]]
  }

  /** Insert if absent, delete if present. */
  function Tracked(h: seq<TrackOp>): seq<Reporter> {
    if h == [] then []
    else
      var rs := Tracked(h[..|h| - 1]);
      match h[|h| - 1]
      case Track(sr) => if HasKey(rs, sr.key) then rs else rs + [sr]
      case Untrack(sr) => Dropped(rs, sr.key)
  }

  // -------------------------------------------------- what the in-place loops compute

  lemma {:induction false} DroppedAbsent(rs: seq<Reporter>, k: Key)
    requires !HasKey(rs, k)
    ensures Dropped(rs, k) == rs
    decreases |rs|
  {
    if rs != [] {
      var front := rs[..|rs| - 1];
      assert forall i | 0 <= i < |front| :: front[i] == rs[i];
      DroppedAbsent(front, k);
      assert rs == front + [rs[|rs| - 1]];
    }
  }

  lemma {:induction false} DroppedJoin(a: seq<Reporter>, b: seq<Reporter>, k: Key)
    ensures Dropped(a + b, k) == Dropped(a, k) + Dropped(b, k)
    decreases |b|
  {
    if b == [] {
      assert a + b == a;
    } else {
      var n := |b| - 1;
      assert (a + b)[..|a + b| - 1] == a + b[..n];
      DroppedJoin(a, b[..n], k);
    }
  }

  /** Cutting the only entry under k out of the slice drops the key. */
  lemma DroppedByCut(rs: seq<Reporter>, i: nat)
    requires DistinctKeys(rs) && i < |rs|
    ensures Dropped(rs, rs[i].key) == rs[..i] + rs[i + 1..]
  {
    var k, low, high := rs[i].key, rs[..i], rs[i + 1..];
    assert rs == (low + [rs[i]]) + high;
    assert !HasKey(low, k) && !HasKey(high, k);
    DroppedMiddle(low, rs[i], high);
  }

  lemma DroppedMiddle(low: seq<Reporter>, r: Reporter, high: seq<Reporter>)
    requires !HasKey(low, r.key) && !HasKey(high, r.key)
    ensures Dropped((low + [r]) + high, r.key) == low + high
  {
    DroppedJoin(low + [r], high, r.key);
    DroppedJoin(low, [r], r.key);
    DroppedAbsent(low, r.key);
    DroppedAbsent(high, r.key);
    assert Dropped([r], r.key) == [];
    assert Dropped(low + [r], r.key) == low;
  }

  lemma {:induction false} DroppedKeeps(rs: seq<Reporter>, k: Key)
    requires DistinctKeys(rs)
    ensures DistinctKeys(Dropped(rs, k)) && !HasKey(Dropped(rs, k), k)
    ensures forall r <- Dropped(rs, k) :: r in rs
    decreases |rs|
  {
    if rs != [] {
      DroppedKeeps(rs[..|rs| - 1], k);
      var d := Dropped(rs[..|rs| - 1], k);
      forall i | 0 <= i < |d| ensures d[i].key != rs[|rs| - 1].key { assert d[i] in rs[..|rs| - 1]; }
    }
  }

  lemma {:induction false} TrackedDistinct(h: seq<TrackOp>)
    ensures DistinctKeys(Tracked(h))
    decreases |h|
  {
    if h != [] {
      TrackedDistinct(h[..|h| - 1]);
      if h[|h| - 1].Untrack? { DroppedKeeps(Tracked(h[..|h| - 1]), h[|h| - 1].sr.key); }
    }
  }

  // ------------------------------------------------------------ what the calls alone say

  /** Call i put its reporter in the list to stay: it is not untracked afterwards, and every
      earlier call tracking the same key was untracked before it. */
  predicate Founding(h: seq<TrackOp>, i: nat) {
    && i < |h|
    && h[i].Track?
    && (forall j | i < j < |h| && h[j].Untrack? :: h[j].sr.key != h[i].sr.key)
    && (forall j | 0 <= j < i && h[j].Track? && h[j].sr.key == h[i].sr.key :: RemovedBetween(h, h[i].sr.key, j, i))
  }

  predicate RemovedBetween(h: seq<TrackOp>, k: Key, j: nat, i: nat) {
    exists m :: j < m < i && m < |h| && h[m].Untrack? && h[m].sr.key == k
  }

  /** The reporter of call i, if the call is founding. */
  function Founded(h: seq<TrackOp>, i: nat): seq<Reporter>
    requires i < |h|
  {
    if Founding(h, i) then [h[i].sr] else []
  }

  function Flat(ms: seq<seq<Reporter>>): seq<Reporter> {
    if ms == [] then [] else Flat(ms[..|ms| - 1]) + ms[|ms| - 1]
  }

  function Marks(h: seq<TrackOp>): seq<seq<Reporter>> {
    seq(|h|, i requires 0 <= i < |h| => Founded(h, i))
  }

  /** Reporters of the founding calls, in call order. */
  function Survivors(h: seq<TrackOp>): seq<Reporter> {
    Flat(Marks(h))
  }

  lemma FoundingExtend(h: seq<TrackOp>, op: TrackOp, i: nat)
    requires i < |h|
    ensures Founding(h + [op], i) <==> Founding(h, i) && !(op.Untrack? && op.sr.key == h[i].sr.key)
  {
    var g := h + [op];
    assert forall j | 0 <= j < |h| :: g[j] == h[j];
    forall j | 0 <= j < i && g[j].Track? && g[j].sr.key == g[i].sr.key
      ensures RemovedBetween(g, g[i].sr.key, j, i) <==> RemovedBetween(h, h[i].sr.key, j, i)
    {
      if m :| j < m < i && g[m].Untrack? && g[m].sr.key == g[i].sr.key { assert h[m] == g[m]; }
      if m :| j < m < i && h[m].Untrack? && h[m].sr.key == g[i].sr.key { assert h[m] == g[m]; }
    }
    if op.Untrack? && op.sr.key == h[i].sr.key { assert g[|h|] == op; }
  }

  /** What a later call makes of the reporters a call put in the list. */
  function Survive(rs: seq<Reporter>, op: TrackOp): seq<Reporter> {
    if op.Track? then rs else Dropped(rs, op.sr.key)
  }

  function SurviveEach(ms: seq<seq<Reporter>>, op: TrackOp): seq<seq<Reporter>> {
    seq(|ms|, i requires 0 <= i < |ms| => Survive(ms[i], op))
  }

  lemma {:induction false} FlatSurvive(ms: seq<seq<Reporter>>, op: TrackOp)
    ensures Flat(SurviveEach(ms, op)) == Survive(Flat(ms), op)
    decreases |ms|
  {
    if ms != [] {
      var n := |ms| - 1;
      assert SurviveEach(ms, op)[..n] == SurviveEach(ms[..n], op);
      FlatSurvive(ms[..n], op);
      DroppedJoin(Flat(ms[..n]), ms[n], op.sr.key);
    }
  }

  lemma FoundedExtend(h: seq<TrackOp>, op: TrackOp, i: nat)
    requires i < |h|
    ensures Founded(h + [op], i) == Survive(Founded(h, i), op)
  {
    FoundingExtend(h, op, i);
    assert (h + [op])[i] == h[i];
    var r := h[i].sr;
    assert Dropped([r], op.sr.key) == if r.key == op.sr.key then [] else [r];
  }

  lemma SurvivorsExtend(h: seq<TrackOp>, op: TrackOp)
    ensures Survivors(h + [op]) == Survive(Survivors(h), op) + Founded(h + [op], |h|)
  {
    var ms := Marks(h + [op]);
    assert ms[..|h|] == SurviveEach(Marks(h), op) by {
      forall i | 0 <= i < |h| ensures ms[i] == Survive(Marks(h)[i], op) { FoundedExtend(h, op, i); }
    }
    FlatSurvive(Marks(h), op);
  }

  lemma {:induction false} FlatHasKey(ms: seq<seq<Reporter>>, k: Key)
    ensures HasKey(Flat(ms), k) <==> AnyHas(ms, k)
    decreases |ms|
  {
    if ms != [] {
      var n := |ms| - 1;
      FlatHasKey(ms[..n], k);
      HasKeyJoin(Flat(ms[..n]), ms[n], k);
      AnyHasStep(ms, k);
    }
  }

  predicate AnyHas(ms: seq<seq<Reporter>>, k: Key) {
    exists i :: 0 <= i < |ms| && HasKey(ms[i], k)
  }

  lemma AnyHasStep(ms: seq<seq<Reporter>>, k: Key)
    requires ms != []
    ensures AnyHas(ms, k) <==> AnyHas(ms[..|ms| - 1], k) || HasKey(ms[|ms| - 1], k)
  {
    var front := ms[..|ms| - 1];
    assert forall i | 0 <= i < |front| :: front[i] == ms[i];
    if i :| 0 <= i < |front| && HasKey(front[i], k) { assert HasKey(ms[i], k); }
    if i :| 0 <= i < |front| && HasKey(ms[i], k) { assert HasKey(front[i], k); }
  }

  lemma HasKeyJoin(a: seq<Reporter>, b: seq<Reporter>, k: Key)
    ensures HasKey(a + b, k) <==> HasKey(a, k) || HasKey(b, k)
  {
    if i :| 0 <= i < |a| && a[i].key == k { assert (a + b)[i].key == k; }
    if i :| 0 <= i < |b| && b[i].key == k { assert (a + b)[|a| + i].key == k; }
  }

  lemma SurvivorIsFounding(h: seq<TrackOp>, k: Key)
    ensures HasKey(Survivors(h), k) <==> exists i :: 0 <= i < |h| && Founding(h, i) && h[i].sr.key == k
  {
    FlatHasKey(Marks(h), k);
    if i :| 0 <= i < |h| && HasKey(Marks(h)[i], k) { assert Marks(h)[i] == Founded(h, i); }
    if i :| 0 <= i < |h| && Founding(h, i) && h[i].sr.key == k {
      assert Marks(h)[i] == [h[i].sr];
      assert Marks(h)[i][0].key == k;
    }
  }

  /** A call that tracks a key is founding exactly when the key has no founding call yet. */
  lemma FoundingOrTracked(h: seq<TrackOp>, sr: Reporter)
    ensures Founding(h + [Track(sr)], |h|) <==> !HasKey(Survivors(h), sr.key)
  {
    var g := h + [Track(sr)];
    assert forall j | 0 <= j < |h| :: g[j] == h[j];
    SurvivorIsFounding(h, sr.key);
    if i :| 0 <= i < |h| && Founding(h, i) && h[i].sr.key == sr.key {
      assert !RemovedBetween(g, sr.key, i, |h|);
      assert !Founding(g, |h|);
    } else {
      forall j | 0 <= j < |h| && g[j].Track? && g[j].sr.key == sr.key ensures RemovedBetween(g, sr.key, j, |h|) {
        LiveHasFounding(h, j);
        if m :| j < m < |h| && h[m].Untrack? && h[m].sr.key == sr.key { assert g[m] == h[m]; }
      }
    }
  }

  /** A key tracked at j and not untracked since has a founding call. */
  lemma {:induction false} LiveHasFounding(h: seq<TrackOp>, j: nat)
    requires j < |h| && h[j].Track?
    ensures RemovedBetween(h, h[j].sr.key, j, |h|) || exists i :: 0 <= i < |h| && Founding(h, i) && h[i].sr.key == h[j].sr.key
    decreases j
  {
    var k := h[j].sr.key;
    if !RemovedBetween(h, k, j, |h|) && !Founding(h, j) {
      var e :| 0 <= e < j && h[e].Track? && h[e].sr.key == k && !RemovedBetween(h, k, e, j);
      LiveHasFounding(h, e);
      RemovedJoin(h, k, e, j);
    }
  }

  lemma RemovedJoin(h: seq<TrackOp>, k: Key, e: nat, j: nat)
    requires e < j < |h| && h[j].Track?
    ensures RemovedBetween(h, k, e, |h|) ==> RemovedBetween(h, k, e, j) || RemovedBetween(h, k, j, |h|)
  {
    if m :| e < m < |h| && h[m].Untrack? && h[m].sr.key == k {
      assert m < j || m > j;
    }
  }

  /** After any history of calls the list holds the reporters of the founding calls, in order. */
  lemma {:induction false} TrackedAreSurvivors(h: seq<TrackOp>)
    ensures Tracked(h) == Survivors(h)
    decreases |h|
  {
    if h != [] {
      var g, op := h[..|h| - 1], h[|h| - 1];
      assert h == g + [op];
      TrackedAreSurvivors(g);
      SurvivorsExtend(g, op);
      if op.Track? { FoundingOrTracked(g, op.sr); }
    }
  }
}
