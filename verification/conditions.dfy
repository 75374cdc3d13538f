/** Status conditions (pkg/status/condition.go): a list kept sorted by transition time that
    represents a table with one condition per type. */
module Conditions {
  import opened Names

  datatype CondStatus = StatusTrue | StatusFalse | StatusUnknown

  datatype Condition = Condition(
    kind: string, status: CondStatus, reason: string, message: string, updated: int, transitioned: int)

  type Table = map<string, Condition>

  predicate MatchesAt(s: string, sub: string, i: nat) {
    i + |sub| <= |s| && s[i..i + |sub|] == sub
  }

  predicate Contains(s: string, sub: string) {
    exists i :: 0 <= i <= |s| && MatchesAt(s, sub, i)
  }

  /** A text contains another exactly when the other stands between two pieces of it. */
  lemma ContainsSplits(s: string, sub: string) returns (a: string, b: string)
    requires Contains(s, sub)
    ensures s == a + sub + b
  {
    var i :| 0 <= i <= |s| && MatchesAt(s, sub, i);
    a, b := s[..i], s[i + |sub|..];
  }

  lemma JoinContains(a: string, sub: string, b: string)
    ensures Contains(a + sub + b, sub)
  {
    assert MatchesAt(a + sub + b, sub, |a|);
  }

  // -------------------------------------------------------------- lists as tables

  predicate Distinct(cs: seq<Condition>) {
    forall i, j | 0 <= i < j < |cs| :: cs[i].kind != cs[j].kind
  }

  predicate Sorted(cs: seq<Condition>) {
    forall i, j | 0 <= i < j < |cs| :: cs[i].transitioned <= cs[j].transitioned
  }

  function TableOf(cs: seq<Condition>): Table {
    if cs == [] then map[] else TableOf(cs[1..])[cs[0].kind := cs[0]]
  }

  lemma {:induction false} TableEntries(cs: seq<Condition>, k: string)
    requires Distinct(cs)
    ensures k in TableOf(cs) <==> exists i :: 0 <= i < |cs| && cs[i].kind == k
    ensures forall i | 0 <= i < |cs| && cs[i].kind == k :: TableOf(cs)[k] == cs[i]
    decreases |cs|
  {
    if cs != [] {
      TableEntries(cs[1..], k);
      if i :| 0 <= i < |cs[1..]| && cs[1..][i].kind == k { assert cs[i + 1].kind == k; }
      forall i | 0 < i < |cs| && cs[i].kind == k ensures TableOf(cs)[k] == cs[i] { assert cs[1..][i - 1].kind == k; }
    }
  }

  /** Every entry of the table sits in the list under its own type, and conversely. */
  lemma TableMember(cs: seq<Condition>, c: Condition)
    requires Distinct(cs)
    ensures c in cs <==> c.kind in TableOf(cs) && TableOf(cs)[c.kind] == c
  {
    TableEntries(cs, c.kind);
  }

  lemma TableKeys(cs: seq<Condition>)
    requires Distinct(cs)
    ensures forall k <- TableOf(cs) :: TableOf(cs)[k].kind == k && TableOf(cs)[k] in cs
  {
    forall k <- TableOf(cs) ensures TableOf(cs)[k].kind == k && TableOf(cs)[k] in cs { TableEntries(cs, k); }
  }

  /** Two lists with the same members represent the same table. */
  lemma SameMembersSameTable(a: seq<Condition>, b: seq<Condition>)
    requires Distinct(a) && Distinct(b) && forall c :: c in a <==> c in b
    ensures TableOf(a) == TableOf(b)
  {
    TableKeys(a);
    TableKeys(b);
    forall k ensures k in TableOf(a) <==> k in TableOf(b) {
      if k in TableOf(a) { TableMember(b, TableOf(a)[k]); }
      if k in TableOf(b) { TableMember(a, TableOf(b)[k]); }
    }
    forall k <- TableOf(a) ensures TableOf(a)[k] == TableOf(b)[k] { TableMember(b, TableOf(a)[k]); }
  }

  lemma {:induction false} OccursOnce(cs: seq<Condition>, c: Condition)
    requires Distinct(cs)
    ensures multiset(cs)[c] <= 1
    decreases |cs|
  {
    if cs != [] {
      OccursOnce(cs[1..], c);
      assert cs == [cs[0]] + cs[1..];
    }
  }

  lemma {:induction false} OccursTwice(cs: seq<Condition>, i: nat, j: nat)
    requires i < j < |cs| && cs[i] == cs[j]
    ensures multiset(cs)[cs[i]] >= 2
  {
    assert cs == cs[..j] + [cs[j]] + cs[j + 1..];
    assert cs[..j][i] == cs[i];
    assert cs[i] in multiset(cs[..j]);
  }

  /** A permutation represents the same table. */
  lemma PermutationSameTable(a: seq<Condition>, b: seq<Condition>)
    requires Distinct(a) && multiset(a) == multiset(b)
    ensures Distinct(b) && TableOf(b) == TableOf(a)
  {
    assert forall c :: c in a <==> c in multiset(a);
    assert forall c :: c in b <==> c in multiset(b);
    forall i, j | 0 <= i < j < |b| ensures b[i].kind != b[j].kind {
      if b[i] == b[j] {
        OccursTwice(b, i, j);
        OccursOnce(a, b[i]);
      } else if b[i].kind == b[j].kind {
        assert b[i] in a && b[j] in a;
        TableMember(a, b[i]);
        TableMember(a, b[j]);
      }
    }
    SameMembersSameTable(a, b);
  }

  // ---------------------------------------------------------------- the operations

  predicate SameContent(a: Condition, b: Condition) {
    a.status == b.status && a.reason == b.reason && a.message == b.message
  }

  /** Effect of setCondition on the table. */
  function Put(t: Table, c: Condition): Table {
    if c.kind in t && SameContent(t[c.kind], c) then t
    else if c.kind in t && t[c.kind].status == c.status then t[c.kind := c.(transitioned := t[c.kind].transitioned)]
    else t[c.kind := c]
  }

  function DropMatching(t: Table, sub: string): Table {
    map k | k in t && !Contains(k, sub) :: t[k]
  }

  method GetCondition(cs: seq<Condition>, kind: string) returns (r: Option<Condition>)
    requires Distinct(cs)
    ensures r == if kind in TableOf(cs) then Some(TableOf(cs)[kind]) else None
  {
    TableEntries(cs, kind);
    for i := 0 to |cs|
      invariant forall j | 0 <= j < i :: cs[j].kind != kind
    {
      if cs[i].kind == kind { return Some(cs[i]); }
    }
    return None;
  }

  /** Keeps the conditions whose type is not dropped, in order. */
  ghost predicate Filtered(cs: seq<Condition>, r: seq<Condition>, dropped: string -> bool) {
    && (forall c :: c in r <==> c in cs && !dropped(c.kind))
    && (Distinct(cs) ==> Distinct(r))
    && (Sorted(cs) ==> Sorted(r))
  }

  method FilterOut(cs: seq<Condition>, dropped: string -> bool) returns (r: seq<Condition>)
    ensures Filtered(cs, r, dropped)
  {
    r := [];
    for i := 0 to |cs|
      invariant forall c :: c in r <==> c in cs[..i] && !dropped(c.kind)
      invariant Distinct(cs) ==> Distinct(r)
      invariant Sorted(cs) ==> Sorted(r)
    {
      assert cs[..i + 1] == cs[..i] + [cs[i]];
      if !dropped(cs[i].kind) {
        forall k | 0 <= k < |r| ensures
          (Distinct(cs) ==> r[k].kind != cs[i].kind) && (Sorted(cs) ==> r[k].transitioned <= cs[i].transitioned)
        {
          assert r[k] in cs[..i];
          var j :| 0 <= j < i && cs[..i][j] == r[k];
        }
        r := r + [cs[i]];
      }
    }
    assert cs[..|cs|] == cs;
  }

  lemma FilteredTable(cs: seq<Condition>, r: seq<Condition>, dropped: string -> bool)
    requires Distinct(cs) && Filtered(cs, r, dropped)
    ensures TableOf(r) == map k | k in TableOf(cs) && !dropped(k) :: TableOf(cs)[k]
  {
    var t := map k | k in TableOf(cs) && !dropped(k) :: TableOf(cs)[k];
    TableKeys(cs);
    TableKeys(r);
    forall k ensures k in TableOf(r) <==> k in t {
      if k in TableOf(r) { TableMember(cs, TableOf(r)[k]); }
      if k in t { TableMember(r, t[k]); }
    }
    forall k <- t ensures TableOf(r)[k] == t[k] { TableMember(r, t[k]); }
  }

  method InsertByTransition(cs: seq<Condition>, c: Condition) returns (r: seq<Condition>)
    requires Sorted(cs)
    ensures Sorted(r) && multiset(r) == multiset(cs) + multiset{c}
  {
    var k := |cs|;
    while k > 0 && c.transitioned < cs[k - 1].transitioned
      invariant 0 <= k <= |cs|
      invariant forall j | k <= j < |cs| :: c.transitioned <= cs[j].transitioned
    {
      k := k - 1;
    }
    InsertSorted(cs, k, c);
    InsertMembers(cs, k, c);
    r := cs[..k] + [c] + cs[k..];
  }

  lemma InsertSorted(cs: seq<Condition>, k: nat, c: Condition)
    requires Sorted(cs) && k <= |cs|
    requires k > 0 ==> cs[k - 1].transitioned <= c.transitioned
    requires k < |cs| ==> c.transitioned <= cs[k].transitioned
    ensures Sorted(cs[..k] + [c] + cs[k..])
  {
    var low, high := cs[..k], cs[k..];
    assert forall i | 0 <= i < |low| :: low[i].transitioned <= c.transitioned;
    assert forall j | 0 <= j < |high| :: c.transitioned <= high[j].transitioned;
    assert Sorted(low) && Sorted(high);
    JoinSorted(low, c, high);
  }

  lemma JoinSorted(low: seq<Condition>, c: Condition, high: seq<Condition>)
    requires Sorted(low) && Sorted(high)
    requires forall i | 0 <= i < |low| :: low[i].transitioned <= c.transitioned
    requires forall j | 0 <= j < |high| :: c.transitioned <= high[j].transitioned
    ensures Sorted(low + [c] + high)
  {}

  lemma InsertMembers(cs: seq<Condition>, k: nat, c: Condition)
    requires k <= |cs|
    ensures multiset(cs[..k] + [c] + cs[k..]) == multiset(cs) + multiset{c}
  {
    assert cs == cs[..k] + cs[k..];
  }

  /** Any sort will do: callers only learn that the result is a sorted permutation. */
  method SortByTransition(cs: seq<Condition>) returns (r: seq<Condition>)
    ensures Sorted(r) && multiset(r) == multiset(cs)
  {
    r := [];
    for i := 0 to |cs|
      invariant Sorted(r) && multiset(r) == multiset(cs[..i])
    {
      assert cs[..i + 1] == cs[..i] + [cs[i]];
      r := InsertByTransition(r, cs[i]);
    }
    assert cs[..|cs|] == cs;
  }

  method SetCondition(cs: seq<Condition>, c: Condition) returns (r: seq<Condition>)
    requires Distinct(cs)
    ensures Distinct(r) && TableOf(r) == Put(TableOf(cs), c)
    ensures Sorted(cs) ==> Sorted(r)
  {
    var current := GetCondition(cs, c.kind);
    if current.Some? && SameContent(current.value, c) {
      return cs;
    }
    var d := c;
    if current.Some? && current.value.status == c.status {
      d := c.(transitioned := current.value.transitioned);
    }
    var others := FilterOut(cs, k => k == c.kind);
    FilteredTable(cs, others, k => k == c.kind);
    var unsorted := others + [d];
    assert Distinct(unsorted);
    AppendTable(others, d);
    r := SortByTransition(unsorted);
    PermutationSameTable(unsorted, r);
  }

  lemma AppendTable(cs: seq<Condition>, c: Condition)
    requires Distinct(cs + [c])
    ensures TableOf(cs + [c]) == TableOf(cs)[c.kind := c]
  {
    assert Distinct(cs) by { assert forall i | 0 <= i < |cs| :: (cs + [c])[i] == cs[i]; }
    TableKeys(cs);
    TableKeys(cs + [c]);
    var t := TableOf(cs)[c.kind := c];
    forall k ensures k in TableOf(cs + [c]) <==> k in t {
      if k in TableOf(cs + [c]) { TableMember(cs, TableOf(cs + [c])[k]); }
      if k in TableOf(cs) { TableMember(cs + [c], TableOf(cs)[k]); }
      TableMember(cs + [c], c);
    }
    forall k <- t ensures TableOf(cs + [c])[k] == t[k] {
      if k == c.kind { TableMember(cs + [c], c); } else { TableMember(cs + [c], t[k]); }
    }
  }

  method FilterOutWithSubstring(cs: seq<Condition>, sub: string) returns (r: seq<Condition>)
    requires Distinct(cs)
    ensures Distinct(r) && TableOf(r) == DropMatching(TableOf(cs), sub)
    ensures Sorted(cs) ==> Sorted(r)
  {
    r := FilterOut(cs, k => Contains(k, sub));
    FilteredTable(cs, r, k => Contains(k, sub));
  }
}
