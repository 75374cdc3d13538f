/** The component list of a MultiClusterEngine and its operations
    (api/v1/multiclusterengine_methods.go). */
module Components {
  import opened Names

  datatype EnvConfig = EnvConfig(name: string, value: string)
  datatype ContainerConfig = ContainerConfig(name: string, env: seq<EnvConfig>)
  datatype DeploymentConfig = DeploymentConfig(name: string, containers: seq<ContainerConfig>)

  /** One entry of the list; the list operations only compare names. */
  datatype Entry<N> = Entry(name: N, enabled: bool, deployments: seq<DeploymentConfig>)

  type ComponentList = seq<Entry<Component>>

  predicate Present<N(==)>(cs: seq<Entry<N>>, n: N) {
    if cs == [] then false else if cs[0].name == n then true else Present(cs[1..], n)
  }

  /** The flag of the first entry for the component. */
  predicate Enabled<N(==)>(cs: seq<Entry<N>>, n: N) {
    cs != [] && if cs[0].name == n then cs[0].enabled else Enabled(cs[1..], n)
  }

  /** Sets the flag of the first entry, appending an entry if there is none. */
  function Toggled<N(==)>(cs: seq<Entry<N>>, n: N, on: bool): seq<Entry<N>> {
    if cs == [] then [Entry(n, on, [])]
    else if cs[0].name == n then [cs[0].(enabled := on)] + cs[1..]
    else [cs[0]] + Toggled(cs[1..], n, on)
  }

  function Without<N(==)>(cs: seq<Entry<N>>, n: N): seq<Entry<N>> {
    if cs == [] then []
    else if cs[0].name == n then Without(cs[1..], n)
    else [cs[0]] + Without(cs[1..], n)
  }

  lemma {:induction false} ToggledPresent<N>(cs: seq<Entry<N>>, n: N, on: bool, m: N)
    ensures Present(Toggled(cs, n, on), m) == (Present(cs, m) || m == n)
    decreases |cs|
  {
    if cs != [] && cs[0].name != n { ToggledPresent(cs[1..], n, on, m); }
  }

  lemma {:induction false} ToggledEnabled<N>(cs: seq<Entry<N>>, n: N, on: bool, m: N)
    ensures Enabled(Toggled(cs, n, on), m) <==> if m == n then on else Enabled(cs, m)
    decreases |cs|
  {
    if cs != [] { ToggledEnabled(cs[1..], n, on, m); }
  }

  lemma {:induction false} ToggledMeaning<N>(cs: seq<Entry<N>>, n: N, on: bool, m: N)
    ensures Present(Toggled(cs, n, on), m) <==> Present(cs, m) || m == n
    ensures Enabled(Toggled(cs, n, on), m) <==> if m == n then on else Enabled(cs, m)
  {
    ToggledPresent(cs, n, on, m);
    ToggledEnabled(cs, n, on, m);
  }

  lemma {:induction false} WithoutMeaning<N>(cs: seq<Entry<N>>, n: N, m: N)
    ensures Present(Without(cs, n), m) <==> Present(cs, m) && m != n
    ensures Enabled(Without(cs, n), m) <==> Enabled(cs, m) && m != n
    decreases |cs|
  {
    if cs != [] { WithoutMeaning(cs[1..], n, m); }
  }

  lemma {:induction false} EnabledIsPresent<N>(cs: seq<Entry<N>>, n: N)
    requires Enabled(cs, n)
    ensures Present(cs, n)
    decreases |cs|
  {
    if cs[0].name != n { EnabledIsPresent(cs[1..], n); }
  }

  lemma {:induction false} WithoutAbsent<N>(cs: seq<Entry<N>>, n: N)
    requires !Present(cs, n)
    ensures Without(cs, n) == cs
    decreases |cs|
  {
    if cs != [] { WithoutAbsent(cs[1..], n); }
  }

  /** Toggling to the value it already has changes nothing. */
  lemma {:induction false} ToggledSame<N>(cs: seq<Entry<N>>, n: N)
    requires Present(cs, n)
    ensures Toggled(cs, n, Enabled(cs, n)) == cs
    decreases |cs|
  {
    if cs[0].name != n { ToggledSame(cs[1..], n); }
  }

  // ----------------------------------------------------------------------- frames

  predicate Unique<N(==)>(cs: seq<Entry<N>>) {
    cs != [] ==> !Present(cs[1..], cs[0].name) && Unique(cs[1..])
  }

  lemma {:induction false} ToggledUnique<N>(cs: seq<Entry<N>>, n: N, on: bool)
    requires Unique(cs)
    ensures Unique(Toggled(cs, n, on))
    decreases |cs|
  {
    if cs != [] {
      ToggledUnique(cs[1..], n, on);
      ToggledMeaning(cs[1..], n, on, cs[0].name);
    }
  }

  lemma {:induction false} WithoutUnique<N>(cs: seq<Entry<N>>, n: N)
    requires Unique(cs)
    ensures Unique(Without(cs, n))
    decreases |cs|
  {
    if cs != [] {
      WithoutUnique(cs[1..], n);
      WithoutMeaning(cs[1..], n, cs[0].name);
    }
  }

  /** The entry keeps its name and overrides, and its flag unless the name is in `free`. */
  predicate SameEntry<N(==)>(a: Entry<N>, b: Entry<N>, free: set<N>) {
    b.name == a.name && b.deployments == a.deployments && (b.enabled == a.enabled || a.name in free)
  }

  /** The entries of `before`, in order and up to SameEntry, followed by entries without overrides. */
  predicate Extends<N(==)>(before: seq<Entry<N>>, after: seq<Entry<N>>, free: set<N>) {
    if before == [] then forall c <- after :: c.deployments == []
    else after != [] && SameEntry(before[0], after[0], free) && Extends(before[1..], after[1..], free)
  }

  lemma {:induction false} ExtendsSelf<N>(cs: seq<Entry<N>>, free: set<N>)
    ensures Extends(cs, cs, free)
    decreases |cs|
  {
    if cs != [] { ExtendsSelf(cs[1..], free); }
  }

  lemma {:induction false} ExtendsToggled<N>(before: seq<Entry<N>>, cs: seq<Entry<N>>, n: N, on: bool, free: set<N>)
    requires Extends(before, cs, free)
    requires n in free || !Present(cs, n)
    ensures Extends(before, Toggled(cs, n, on), free)
    decreases |cs|
  {
    if cs != [] {
      if before == [] {
        assert forall c <- cs[1..] :: c in cs;
        ExtendsToggled([], cs[1..], n, on, free);
      } else if cs[0].name != n {
        ExtendsToggled(before[1..], cs[1..], n, on, free);
      }
    }
  }

  lemma {:induction false} ExtendsWithout<N>(before: seq<Entry<N>>, cs: seq<Entry<N>>, n: N, free: set<N>)
    requires Extends(before, cs, free)
    ensures Extends(Without(before, n), Without(cs, n), free)
    decreases |cs|
  {
    if cs != [] {
      assert forall c <- cs[1..] :: c in cs;
      ExtendsWithout(if before == [] then [] else before[1..], cs[1..], n, free);
    }
  }

  // ------------------------------------------------------------------ enabled entries

  /** Some entry for the component, not necessarily the first, is enabled. */
  predicate AnyOn<N(==)>(cs: seq<Entry<N>>, n: N) {
    cs != [] && ((cs[0].name == n && cs[0].enabled) || AnyOn(cs[1..], n))
  }

  lemma {:induction false} AnyOnIff<N>(cs: seq<Entry<N>>, n: N)
    ensures AnyOn(cs, n) <==> exists i :: 0 <= i < |cs| && cs[i].name == n && cs[i].enabled
    decreases |cs|
  {
    if cs != [] {
      AnyOnIff(cs[1..], n);
      if i :| 0 <= i < |cs[1..]| && cs[1..][i].name == n && cs[1..][i].enabled { assert cs[i + 1].name == n; }
      if i :| 0 < i < |cs| && cs[i].name == n && cs[i].enabled { assert cs[1..][i - 1].name == n; }
    }
  }

  lemma {:induction false} AnyOnIsPresent<N>(cs: seq<Entry<N>>, n: N)
    requires AnyOn(cs, n)
    ensures Present(cs, n)
    decreases |cs|
  {
    if cs[0].name != n { AnyOnIsPresent(cs[1..], n); }
  }

  lemma {:induction false} ToggledAnyOn<N>(cs: seq<Entry<N>>, n: N, on: bool, m: N)
    ensures m != n ==> (AnyOn(Toggled(cs, n, on), m) <==> AnyOn(cs, m))
    ensures !Present(cs, n) && !on ==> (AnyOn(Toggled(cs, n, on), m) <==> AnyOn(cs, m))
    decreases |cs|
  {
    if cs == [] {
      assert [Entry(n, on, [])][1..] == [];
    } else if cs[0].name == n {
      assert ([cs[0].(enabled := on)] + cs[1..])[1..] == cs[1..];
    } else {
      ToggledAnyOn(cs[1..], n, on, m);
      assert ([cs[0]] + Toggled(cs[1..], n, on))[1..] == Toggled(cs[1..], n, on);
    }
  }

  lemma {:induction false} WithoutAnyOn<N>(cs: seq<Entry<N>>, n: N, m: N)
    requires m != n
    ensures AnyOn(Without(cs, n), m) <==> AnyOn(cs, m)
    decreases |cs|
  {
    if cs != [] {
      WithoutAnyOn(cs[1..], n, m);
      assert ([cs[0]] + Without(cs[1..], n))[1..] == Without(cs[1..], n);
    }
  }
}
