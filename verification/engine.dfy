/** The MultiClusterEngine object: component toggles and setDefaults. */
module Engine {
  import opened Names
  import opened Components
  import opened Defaulting
  import opened DefaultingTheorems

  const HA_BASIC := "Basic"
  const HA_HIGH := "High"
  const DEFAULT_NAMESPACE := "multicluster-engine"
  const ADOPTION_POLICY := "installer.multicluster.openshift.io/resource-adoption-policy"
  const STRICT := "Strict"

  datatype Overrides = Overrides(imagePullPolicy: string, components: ComponentList, infraNamespace: string)

  datatype Spec = Spec(
    availability: string,
    targetNamespace: string,
    localClusterName: string,
    networkPolicies: Option<bool>,
    overrides: Option<Overrides>)

  function ComponentsOf(s: Spec): ComponentList {
    if s.overrides.Some? then s.overrides.value.components else []
  }

  function OverridesOf(s: Spec): Overrides {
    if s.overrides.Some? then s.overrides.value else Overrides("", [], "")
  }

  function WithComponents(s: Spec, cs: ComponentList): Spec {
    s.(overrides := Some(OverridesOf(s).(components := cs)))
  }

  predicate ValidAvailability(a: string) {
    a == HA_HIGH || a == HA_BASIC
  }

  function DefaultedSpec(s: Spec, p: Platform): Spec {
    WithComponents(
      s.(availability := if ValidAvailability(s.availability) then s.availability else HA_HIGH,
         targetNamespace := if s.targetNamespace == "" then DEFAULT_NAMESPACE else s.targetNamespace,
         networkPolicies := if s.networkPolicies.None? then Some(true) else s.networkPolicies),
      Defaulted(ComponentsOf(s), p))
  }

  function DefaultedAnnotations(a: map<string, string>): map<string, string> {
    if ADOPTION_POLICY in a then a else a[ADOPTION_POLICY := STRICT]
  }

  // ------------------------------------------------------ lemmas for the list loops

  lemma {:induction false} SkipPrefix<N>(cs: seq<Entry<N>>, n: N, on: bool, i: nat)
    requires i <= |cs| && forall j | 0 <= j < i :: cs[j].name != n
    ensures Present(cs, n) == Present(cs[i..], n)
    ensures Enabled(cs, n) == Enabled(cs[i..], n)
    ensures Toggled(cs, n, on) == cs[..i] + Toggled(cs[i..], n, on)
    decreases i
  {
    if i == 0 {
      assert cs[0..] == cs && cs[..0] == [];
    } else {
      SkipPrefix(cs[1..], n, on, i - 1);
      assert cs[1..][i - 1..] == cs[i..];
      assert [cs[0]] + cs[1..][..i - 1] == cs[..i];
    }
  }

  lemma ToggledAt<N>(cs: seq<Entry<N>>, n: N, on: bool, i: nat)
    requires i <= |cs| && (forall j | 0 <= j < i :: cs[j].name != n) && (i < |cs| ==> cs[i].name == n)
    ensures Toggled(cs, n, on) == if i < |cs| then cs[i := cs[i].(enabled := on)] else cs + [Entry(n, on, [])]
  {
    SkipPrefix(cs, n, on, i);
    if i < |cs| {
      assert cs[i..][0] == cs[i] && cs[i..][1..] == cs[i + 1..];
      assert Toggled(cs[i..], n, on) == [cs[i].(enabled := on)] + cs[i + 1..];
      assert cs[..i] + ([cs[i].(enabled := on)] + cs[i + 1..]) == cs[i := cs[i].(enabled := on)];
    } else {
      assert cs[i..] == [] && cs[..i] == cs;
    }
  }

  lemma {:induction false} WithoutAppend<N>(cs: seq<Entry<N>>, c: Entry<N>, n: N)
    ensures Without(cs + [c], n) == Without(cs, n) + if c.name == n then [] else [c]
    ensures Present(cs + [c], n) == (Present(cs, n) || c.name == n)
    decreases |cs|
  {
    if cs == [] {
      assert [] + [c] == [c] && [c][1..] == [];
    } else {
      WithoutAppend(cs[1..], c, n);
      assert (cs + [c])[1..] == cs[1..] + [c];
    }
  }

  lemma FillStep<N>(cs: seq<Entry<N>>, names: seq<N>, on: bool, i: nat)
    requires i < |names|
    ensures Fill(cs, names[i..], on) ==
            Fill(if Present(cs, names[i]) then cs else Toggled(cs, names[i], on), names[i + 1..], on)
  {
    assert names[i..][1..] == names[i + 1..];
  }

  lemma MigrateStep<N>(cs: seq<Entry<N>>, previews: seq<N>, stableOf: map<N, N>, i: nat)
    requires i < |previews|
    ensures Migrate(cs, previews[i..], stableOf) ==
            Migrate(MigrateOne(cs, previews[i], stableOf), previews[i + 1..], stableOf)
  {
    assert previews[i..][1..] == previews[i + 1..];
  }

  /** Which previews are present after the first i have been migrated. */
  ghost predicate PrunedUpTo<N>(start: seq<Entry<N>>, cs: seq<Entry<N>>, previews: seq<N>, i: nat)
    requires i <= |previews|
  {
    forall p <- previews :: Present(cs, p) <==> Present(start, p) && p !in previews[..i]
  }

  lemma MigratePresence<N>(start: seq<Entry<N>>, cs: seq<Entry<N>>, previews: seq<N>, stableOf: map<N, N>, i: nat)
    requires i < |previews| && StableNames(previews, stableOf) && PrunedUpTo(start, cs, previews, i)
    ensures PrunedUpTo(start, MigrateOne(cs, previews[i], stableOf), previews, i + 1)
  {
    assert previews[..i + 1] == previews[..i] + [previews[i]];
    forall p <- previews
      ensures Present(MigrateOne(cs, previews[i], stableOf), p) <==> Present(start, p) && p !in previews[..i + 1]
    {
      MigrateOneMeaning(cs, previews[i], stableOf, p);
    }
  }

  ghost predicate Unfilled(cs: ComponentList) {
    exists n :: (IsOn(n) || IsOff(n)) && !Present(cs, n)
  }

  ghost predicate HasPreview(cs: ComponentList) {
    exists q :: IsPreview(q) && Present(cs, q)
  }

  predicate ConsoleUnsettled(cs: ComponentList, p: Platform) {
    (p == OCP(true) && !Present(cs, ConsoleMCE)) || (p == OCP(false) && Enabled(cs, ConsoleMCE))
  }

  /** The three flags of setDefaults together say whether the component list changes. */
  lemma UpdateIffUnsettled(cs: ComponentList, p: Platform)
    ensures Unfilled(cs) || HasPreview(Filled(cs)) || ConsoleUnsettled(Migrated(Filled(cs)), p) <==>
            Defaulted(cs, p) != cs
  {
    DefaultingConverges(cs, p);
    if Settled(cs, p) {
      SettledIsFixed(cs, p);
    } else if !Unfilled(cs) && !HasPreview(Filled(cs)) {
      forall n ensures IsPreview(n) ==> !Present(cs, n) { FilledMeaning(cs, n); }
      BeforeConsoleMeaning(cs, ConsoleMCE);
      KindsAreApart(ConsoleMCE);
      EnabledOnlyIfPresent(cs, ConsoleMCE);
    }
  }

  /** Without overrides nothing is present, so defaulting always creates them. */
  lemma EmptyIsUnsettled(cs: ComponentList, p: Platform)
    requires cs == []
    ensures Defaulted(cs, p) != cs
  {
    DefaultingConverges(cs, p);
    assert IsOn(Hive) && !Present(cs, Hive);
  }

  // ---------------------------------------------------------------------- the object

  class MultiClusterEngine {
    const name: string
    var annotations: map<string, string>
    var spec: Spec

    constructor (name: string, annotations: map<string, string>, spec: Spec)
      ensures this.name == name && this.annotations == annotations && this.spec == spec
    {
      this.name, this.annotations, this.spec := name, annotations, spec;
    }

    method ComponentPresent(s: Component) returns (b: bool)
      ensures b == Present(ComponentsOf(spec), s)
    {
      var cs := ComponentsOf(spec);
      for i := 0 to |cs|
        invariant forall j | 0 <= j < i :: cs[j].name != s
      {
        SkipPrefix(cs, s, true, i);
        if cs[i].name == s { return true; }
      }
      SkipPrefix(cs, s, true, |cs|);
      return false;
    }

    method IsEnabled(s: Component) returns (b: bool)
      ensures b == Enabled(ComponentsOf(spec), s)
    {
      var cs := ComponentsOf(spec);
      for i := 0 to |cs|
        invariant forall j | 0 <= j < i :: cs[j].name != s
      {
        SkipPrefix(cs, s, true, i);
        if cs[i].name == s { return cs[i].enabled; }
      }
      SkipPrefix(cs, s, true, |cs|);
      return false;
    }

    /** Enable (on) and Disable (off): update the first entry in place or append one. */
    method SetEnabled(s: Component, on: bool)
      modifies this`spec
      ensures spec == WithComponents(old(spec), Toggled(ComponentsOf(old(spec)), s, on))
    {
      if spec.overrides.None? {
        spec := spec.(overrides := Some(Overrides("", [], "")));
      }
      var cs := ComponentsOf(spec);
      for i := 0 to |cs|
        invariant spec == old(spec).(overrides := Some(OverridesOf(old(spec)))) && cs == ComponentsOf(spec)
        invariant forall j | 0 <= j < i :: cs[j].name != s
      {
        if cs[i].name == s {
          ToggledAt(cs, s, on, i);
          spec := WithComponents(spec, cs[i := cs[i].(enabled := on)]);
          return;
        }
      }
      ToggledAt(cs, s, on, |cs|);
      spec := WithComponents(spec, cs + [Entry(s, on, [])]);
    }

    method Prune(s: Component) returns (pruned: bool)
      modifies this`spec
      ensures pruned == Present(ComponentsOf(old(spec)), s)
      ensures spec == if pruned then WithComponents(old(spec), Without(ComponentsOf(old(spec)), s)) else old(spec)
    {
      if spec.overrides.None? { return false; }
      var cs := ComponentsOf(spec);
      pruned := false;
      var kept: ComponentList := [];
      for i := 0 to |cs|
        invariant spec == old(spec)
        invariant kept == Without(cs[..i], s) && pruned == Present(cs[..i], s)
      {
        WithoutAppend(cs[..i], cs[i], s);
        assert cs[..i + 1] == cs[..i] + [cs[i]];
        if cs[i].name == s { pruned := true; } else { kept := kept + [cs[i]]; }
      }
      assert cs[..|cs|] == cs;
      if pruned { spec := WithComponents(spec, kept); }
    }

    method FillMissing(names: seq<Component>, on: bool) returns (updated: bool)
      modifies this`spec
      ensures ComponentsOf(spec) == Fill(ComponentsOf(old(spec)), names, on)
      ensures spec == old(spec) || spec == WithComponents(old(spec), ComponentsOf(spec))
      ensures updated <==> exists n :: n in names && !Present(ComponentsOf(old(spec)), n)
    {
      updated := false;
      ghost var start := ComponentsOf(spec);
      for i := 0 to |names|
        invariant spec == old(spec) || spec == WithComponents(old(spec), ComponentsOf(spec))
        invariant Fill(ComponentsOf(spec), names[i..], on) == Fill(start, names, on)
        invariant forall n :: Present(ComponentsOf(spec), n) <==> Present(start, n) || n in names[..i]
        invariant updated <==> exists n :: n in names[..i] && !Present(start, n)
      {
        FillStep(ComponentsOf(spec), names, on, i);
        ghost var cs := ComponentsOf(spec);
        var present := ComponentPresent(names[i]);
        assert names[..i + 1] == names[..i] + [names[i]];
        if !present {
          SetEnabled(names[i], on);
          updated := true;
          forall n ensures Present(ComponentsOf(spec), n) <==> Present(start, n) || n in names[..i + 1] {
            ToggledMeaning(cs, names[i], on, n);
          }
          assert names[i] in names[..i + 1];
        }
      }
      assert names[|names|..] == [] && names[..|names|] == names;
    }

    /** Enables the stable counterpart of an enabled preview and prunes the preview. */
    method MigratePreview(preview: Component, stableOf: map<Component, Component>) returns (pruned: bool)
      modifies this`spec
      requires preview in stableOf ==> stableOf[preview] != preview
      ensures ComponentsOf(spec) == MigrateOne(ComponentsOf(old(spec)), preview, stableOf)
      ensures spec == old(spec) || spec == WithComponents(old(spec), ComponentsOf(spec))
      ensures pruned <==> Present(ComponentsOf(old(spec)), preview)
    {
      ghost var cs := ComponentsOf(spec);
      var on := IsEnabled(preview);
      if on { EnabledIsPresent(cs, preview); }
      if on && preview in stableOf {
        SetEnabled(stableOf[preview], true);
        ToggledMeaning(cs, stableOf[preview], true, preview);
      }
      if !Present(ComponentsOf(spec), preview) { WithoutAbsent(ComponentsOf(spec), preview); }
      pruned := Prune(preview);
    }

    method MigratePreviews(previews: seq<Component>, stableOf: map<Component, Component>) returns (updated: bool)
      modifies this`spec
      requires StableNames(previews, stableOf)
      ensures ComponentsOf(spec) == Migrate(ComponentsOf(old(spec)), previews, stableOf)
      ensures spec == old(spec) || spec == WithComponents(old(spec), ComponentsOf(spec))
      ensures updated <==> exists p :: p in previews && Present(ComponentsOf(old(spec)), p)
    {
      updated := false;
      ghost var start := ComponentsOf(spec);
      for i := 0 to |previews|
        invariant spec == old(spec) || spec == WithComponents(old(spec), ComponentsOf(spec))
        invariant Migrate(ComponentsOf(spec), previews[i..], stableOf) == Migrate(start, previews, stableOf)
        invariant PrunedUpTo(start, ComponentsOf(spec), previews, i)
        invariant updated <==> exists p :: p in previews[..i] && Present(start, p)
      {
        ghost var cs := ComponentsOf(spec);
        MigrateStep(cs, previews, stableOf, i);
        MigratePresence(start, cs, previews, stableOf, i);
        assert previews[..i + 1] == previews[..i] + [previews[i]];
        var pruned := MigratePreview(previews[i], stableOf);
        if pruned { updated := true; }
      }
      assert previews[|previews|..] == [] && previews[..|previews|] == previews;
    }

    method SetDefaultComponents() returns (updated: bool)
      modifies this`spec
      ensures ComponentsOf(spec) == Filled(ComponentsOf(old(spec)))
      ensures spec == old(spec) || spec == WithComponents(old(spec), ComponentsOf(spec))
      ensures updated <==> Unfilled(ComponentsOf(old(spec)))
    {
      ghost var cs := ComponentsOf(spec);
      var on := FillMissing(ON_COMPONENTS, true);
      ghost var filled := ComponentsOf(spec);
      forall n ensures Present(filled, n) <==> Present(cs, n) || IsOn(n) {
        FillMeaning(cs, ON_COMPONENTS, true, n);
        OnListed(n);
      }
      assert on <==> exists n :: IsOn(n) && !Present(cs, n) by {
        forall n ensures n in ON_COMPONENTS <==> IsOn(n) { OnListed(n); }
      }
      var off := FillMissing(OFF_COMPONENTS, false);
      assert off <==> exists n :: IsOff(n) && !Present(cs, n) by {
        forall n ensures n in OFF_COMPONENTS <==> IsOff(n) { OffListed(n); KindsAreApart(n); }
        forall n ensures !(IsOn(n) && IsOff(n)) { KindsAreApart(n); }
      }
      updated := on || off;
    }

    method ReplacePreviews() returns (updated: bool)
      modifies this`spec
      ensures ComponentsOf(spec) == Migrated(ComponentsOf(old(spec)))
      ensures spec == old(spec) || spec == WithComponents(old(spec), ComponentsOf(spec))
      ensures updated <==> HasPreview(ComponentsOf(old(spec)))
    {
      StableNamesHold();
      updated := MigratePreviews(PREVIEW_COMPONENTS, PREVIEW_TO_STABLE);
      forall q ensures q in PREVIEW_COMPONENTS <==> IsPreview(q) { PreviewListed(q); }
    }

    method SettleConsoleComponent(p: Platform) returns (updated: bool)
      modifies this`spec
      ensures ComponentsOf(spec) == SettleConsole(ComponentsOf(old(spec)), p)
      ensures spec == old(spec) || spec == WithComponents(old(spec), ComponentsOf(spec))
      ensures updated <==> ConsoleUnsettled(ComponentsOf(old(spec)), p)
    {
      updated := false;
      if p == OCP(true) {
        var present := ComponentPresent(ConsoleMCE);
        if !present {
          SetEnabled(ConsoleMCE, true);
          updated := true;
        }
      } else if p == OCP(false) {
        var on := IsEnabled(ConsoleMCE);
        if on {
          SetEnabled(ConsoleMCE, false);
          updated := true;
        }
      }
    }

    method SetDefaultAnnotations() returns (updated: bool)
      modifies this`annotations
      ensures annotations == DefaultedAnnotations(old(annotations))
      ensures updated <==> annotations != old(annotations)
    {
      updated := ADOPTION_POLICY !in annotations;
      if updated {
        annotations := annotations[ADOPTION_POLICY := STRICT];
      }
    }

    /** The component part of setDefaults. */
    method DefaultComponents(p: Platform) returns (updated: bool)
      modifies this`spec
      ensures spec == WithComponents(old(spec), Defaulted(ComponentsOf(old(spec)), p))
      ensures updated <==> spec != old(spec)
    {
      ghost var cs := ComponentsOf(spec);
      var filled := SetDefaultComponents();
      var migrated := ReplacePreviews();
      var settled := SettleConsoleComponent(p);
      UpdateIffUnsettled(cs, p);
      if cs == [] { EmptyIsUnsettled(cs, p); }
      updated := filled || migrated || settled;
    }

    /** setDefaults up to the client update: `err` means the platform could not be determined. */
    method SetDefaults(p: Platform) returns (updated: bool, err: bool)
      modifies this`spec, this`annotations
      ensures err <==> p.OCPFailure?
      ensures spec == DefaultedSpec(old(spec), p) && annotations == DefaultedAnnotations(old(annotations))
      ensures updated <==> spec != old(spec) || annotations != old(annotations)
    {
      updated := false;
      if !ValidAvailability(spec.availability) {
        spec := spec.(availability := HA_HIGH);
        updated := true;
      }
      if spec.targetNamespace == "" {
        spec := spec.(targetNamespace := DEFAULT_NAMESPACE);
        updated := true;
      }
      if spec.networkPolicies.None? {
        spec := spec.(networkPolicies := Some(true));
        updated := true;
      }
      var defaulted := DefaultComponents(p);
      var annotated := SetDefaultAnnotations();
      updated := updated || defaulted || annotated;
      err := p.OCPFailure?;
    }
  }

  /** The update-and-requeue loop of setDefaults ends after one update: defaulting its own result
      asks for no further update. */
  lemma SetDefaultsConverges(s: Spec, a: map<string, string>, p: Platform)
    ensures DefaultedSpec(DefaultedSpec(s, p), p) == DefaultedSpec(s, p)
    ensures DefaultedAnnotations(DefaultedAnnotations(a)) == DefaultedAnnotations(a)
  {
    DefaultingConverges(ComponentsOf(s), p);
  }

  /** The values setDefaults leaves, field by field. */
  lemma DefaultValues(s: Spec, a: map<string, string>, p: Platform)
    ensures var d := DefaultedSpec(s, p);
      && d.availability == (if s.availability == "High" || s.availability == "Basic" then s.availability else "High")
      && d.targetNamespace == (if s.targetNamespace == "" then "multicluster-engine" else s.targetNamespace)
      && d.networkPolicies == Some(s.networkPolicies.None? || s.networkPolicies.value)
      && d.localClusterName == s.localClusterName
      && d.overrides.Some? && d.overrides.value.components == Defaulted(ComponentsOf(s), p)
      && (s.overrides.Some? ==>
            && d.overrides.value.imagePullPolicy == s.overrides.value.imagePullPolicy
            && d.overrides.value.infraNamespace == s.overrides.value.infraNamespace)
      && (s.overrides.None? ==> d.overrides.value.imagePullPolicy == "" && d.overrides.value.infraNamespace == "")
    ensures var key := "installer.multicluster.openshift.io/resource-adoption-policy";
      var d := DefaultedAnnotations(a);
      && key in d && d[key] == (if key in a then a[key] else "Strict")
      && forall k | k != key :: (k in d <==> k in a) && (k in a ==> d[k] == a[k])
  {
  }
}
