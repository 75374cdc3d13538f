/** Admission of MultiClusterEngines (api/v1/multiclusterengine_webhook.go): the validators as
    decisions over the listed objects, and what they keep over any run of requests. */
module Admission {
  import opened Names
  import opened Components
  import opened Defaulting
  import opened DefaultingTheorems
  import opened Engine

  const MAX_LOCAL_NAME := 35

  datatype Mce = Mce(name: string, annotations: map<string, string>, spec: Spec)

  datatype Rejection =
    | InvalidAvailability | UnknownComponent | MaestroDeprecated | Exclusivity
    | NamespaceTaken | StandaloneTaken | NamespaceChanged | ModeChanged | InfraNamespaceChanged
    | NameTooLong | DiscoveryInUse | LocalClusterInUse

  datatype Decision = Admitted | Rejected(why: Rejection)

  /** A ManagedCluster as the webhook sees it: its name and its local-cluster label. */
  datatype ManagedCluster = ManagedCluster(name: string, isLocal: bool)

  /** What the update validator looks up. */
  datatype Surroundings = Surroundings(discoveryConfigs: bool, managedClusters: seq<ManagedCluster>)

  predicate Hosted(m: Mce) {
    "deploymentmode" in m.annotations && m.annotations["deploymentmode"] == "Hosted"
  }

  function Effective(namespace: string): string {
    if namespace == "" then DEFAULT_NAMESPACE else namespace
  }

  /** AllComponents: every known name except cluster-api-provider-azure. */
  predicate Known(n: Component) {
    !n.Unknown? && !n.ClusterAPIProviderAzure?
  }

  predicate HyperShiftOn(cs: ComponentList) {
    Enabled(cs, HyperShift) || Enabled(cs, HyperShiftPreview) || Enabled(cs, HypershiftLocalHosting)
  }

  predicate ClusterAPIOn(cs: ComponentList) {
    || Enabled(cs, ClusterAPI) || Enabled(cs, ClusterAPIPreview)
    || Enabled(cs, ClusterAPIProviderAWS) || Enabled(cs, ClusterAPIProviderAWSPreview)
    || Enabled(cs, ClusterAPIProviderAzurePreview)
    || Enabled(cs, ClusterAPIProviderMetal) || Enabled(cs, ClusterAPIProviderMetalPreview)
    || Enabled(cs, ClusterAPIProviderOA) || Enabled(cs, ClusterAPIProviderOAPreview)
  }

  predicate Exclusive(cs: ComponentList) {
    !(HyperShiftOn(cs) && ClusterAPIOn(cs))
  }

  /** The two searches of validateComponentExclusivity. */
  method ValidateComponentExclusivity(mce: MultiClusterEngine) returns (ok: bool)
    ensures ok <==> Exclusive(ComponentsOf(mce.spec))
  {
    var hs := [HyperShift, HyperShiftPreview, HypershiftLocalHosting];
    var capi := [
      ClusterAPI, ClusterAPIPreview, ClusterAPIProviderAWS, ClusterAPIProviderAWSPreview,
      ClusterAPIProviderAzurePreview, ClusterAPIProviderMetal, ClusterAPIProviderMetalPreview,
      ClusterAPIProviderOA, ClusterAPIProviderOAPreview];
    var hypershift := AnyEnabled(mce, hs);
    var clusterAPI := AnyEnabled(mce, capi);
    assert hs[0] == HyperShift && hs[1] == HyperShiftPreview && hs[2] == HypershiftLocalHosting;
    assert capi[0] == ClusterAPI && capi[1] == ClusterAPIPreview && capi[2] == ClusterAPIProviderAWS;
    assert capi[3] == ClusterAPIProviderAWSPreview && capi[4] == ClusterAPIProviderAzurePreview;
    assert capi[5] == ClusterAPIProviderMetal && capi[6] == ClusterAPIProviderMetalPreview;
    assert capi[7] == ClusterAPIProviderOA && capi[8] == ClusterAPIProviderOAPreview;
    ok := !(hypershift && clusterAPI);
  }

  method AnyEnabled(mce: MultiClusterEngine, names: seq<Component>) returns (found: bool)
    ensures found <==> exists i :: 0 <= i < |names| && Enabled(ComponentsOf(mce.spec), names[i])
  {
    for i := 0 to |names|
      invariant forall j | 0 <= j < i :: !Enabled(ComponentsOf(mce.spec), names[j])
    {
      var on := mce.IsEnabled(names[i]);
      if on { return true; }
    }
    return false;
  }

  /** The first objection to an entry, in list order. */
  function CheckComponents(cs: ComponentList, maestroWasOn: bool): Option<Rejection> {
    if cs == [] then None
    else if !Known(cs[0].name) then Some(UnknownComponent)
    else if cs[0].name == MaestroPreview && cs[0].enabled && !maestroWasOn then Some(MaestroDeprecated)
    else CheckComponents(cs[1..], maestroWasOn)
  }

  predicate AllowedAvailability(a: string) {
    ValidAvailability(a) || a == ""
  }

  /** The first conflict with an existing object, in list order. */
  function CheckOthers(obj: Mce, existing: seq<Mce>): Option<Rejection> {
    if existing == [] then None
    else
      var target := Effective(obj.spec.targetNamespace);
      var other := existing[0].spec.targetNamespace;
      if other == target || (target == DEFAULT_NAMESPACE && other == "") then Some(NamespaceTaken)
      else if !Hosted(obj) && !Hosted(existing[0]) then Some(StandaloneTaken)
      else CheckOthers(obj, existing[1..])
  }

  function ValidateCreate(obj: Mce, existing: seq<Mce>): Decision {
    var cs := ComponentsOf(obj.spec);
    if !AllowedAvailability(obj.spec.availability) then Rejected(InvalidAvailability)
    else if CheckComponents(cs, false).Some? then Rejected(CheckComponents(cs, false).value)
    else if !Exclusive(cs) then Rejected(Exclusivity)
    else if |obj.spec.localClusterName| >= MAX_LOCAL_NAME then Rejected(NameTooLong)
    else if CheckOthers(obj, existing).Some? then Rejected(CheckOthers(obj, existing).value)
    else Admitted
  }

  predicate LocalClusterExists(name: string, clusters: seq<ManagedCluster>) {
    exists i :: 0 <= i < |clusters| && (clusters[i].name == name || clusters[i].isLocal)
  }

  function ValidateUpdate(before: Mce, after: Mce, around: Surroundings): Decision {
    var cs := ComponentsOf(after.spec);
    var check := CheckComponents(cs, Enabled(ComponentsOf(before.spec), MaestroPreview));
    if after.spec.targetNamespace != before.spec.targetNamespace && before.spec.targetNamespace != "" then
      Rejected(NamespaceChanged)
    else if Hosted(after) != Hosted(before) then Rejected(ModeChanged)
    else if OverridesOf(before.spec).infraNamespace != OverridesOf(after.spec).infraNamespace then
      Rejected(InfraNamespaceChanged)
    else if !AllowedAvailability(after.spec.availability) then Rejected(InvalidAvailability)
    else if check.Some? then Rejected(check.value)
    else if !Exclusive(cs) then Rejected(Exclusivity)
    else if Present(cs, Discovery) && !Enabled(cs, Discovery) && around.discoveryConfigs then Rejected(DiscoveryInUse)
    else if before.spec.localClusterName == after.spec.localClusterName then Admitted
    else if |after.spec.localClusterName| >= MAX_LOCAL_NAME then Rejected(NameTooLong)
    else if LocalClusterExists(before.spec.localClusterName, around.managedClusters) then Rejected(LocalClusterInUse)
    else Admitted
  }

  // ---------------------------------------------------- defaulting meets admission

  /** Preview migration keeps whether each family has an enabled member. */
  lemma MigrationKeepsFamilies(cs: ComponentList)
    ensures HyperShiftOn(Migrated(cs)) == HyperShiftOn(cs)
    ensures ClusterAPIOn(Migrated(cs)) == ClusterAPIOn(cs)
  {
    MigratedMeaning(cs, HyperShift);
    MigratedMeaning(cs, HyperShiftPreview);
    MigratedMeaning(cs, HypershiftLocalHosting);
    MigrationKeepsClusterAPI(cs);
  }

  lemma MigrationKeepsClusterAPI(cs: ComponentList)
    ensures ClusterAPIOn(Migrated(cs)) == ClusterAPIOn(cs)
  {
    MigratedMeaning(cs, ClusterAPI);
    MigratedMeaning(cs, ClusterAPIPreview);
    MigratedMeaning(cs, ClusterAPIProviderAWS);
    MigratedMeaning(cs, ClusterAPIProviderAWSPreview);
    MigratedMeaning(cs, ClusterAPIProviderAzurePreview);
    MigratedMeaning(cs, ClusterAPIProviderMetal);
    MigratedMeaning(cs, ClusterAPIProviderMetalPreview);
    MigratedMeaning(cs, ClusterAPIProviderOA);
    MigratedMeaning(cs, ClusterAPIProviderOAPreview);
  }

  /** For a component that is off by default, defaulting keeps whether it or its preview is on. */
  lemma DefaultingKeepsPair(cs: ComponentList, p: Platform, stable: Component, preview: Component)
    requires IsOff(stable) && PreviewOf(stable) == Some(preview) && preview != ConsoleMCE
    ensures Enabled(Defaulted(cs, p), stable) || Enabled(Defaulted(cs, p), preview) <==>
            Enabled(cs, stable) || Enabled(cs, preview)
  {
    DefaultedMeaning(cs, p, stable);
    DefaultedMeaning(cs, p, preview);
    PreviewsHaveStables(stable);
    EnabledOnlyIfPresent(cs, stable);
  }

  lemma DefaultingKeepsAzure(cs: ComponentList, p: Platform)
    ensures Enabled(Defaulted(cs, p), ClusterAPIProviderAzurePreview) == Enabled(cs, ClusterAPIProviderAzurePreview)
  {
    DefaultedMeaning(cs, p, ClusterAPIProviderAzurePreview);
    EnabledOnlyIfPresent(cs, ClusterAPIProviderAzurePreview);
  }

  lemma DefaultingKeepsClusterAPI(cs: ComponentList, p: Platform)
    ensures ClusterAPIOn(Defaulted(cs, p)) == ClusterAPIOn(cs)
  {
    DefaultingKeepsPair(cs, p, ClusterAPI, ClusterAPIPreview);
    DefaultingKeepsPair(cs, p, ClusterAPIProviderAWS, ClusterAPIProviderAWSPreview);
    DefaultingKeepsAzure(cs, p);
    DefaultingKeepsPair(cs, p, ClusterAPIProviderMetal, ClusterAPIProviderMetalPreview);
    DefaultingKeepsPair(cs, p, ClusterAPIProviderOA, ClusterAPIProviderOAPreview);
  }

  /** A component that is on by default ends up on unless it was there and neither it nor its
      preview was on; previews end up off. */
  lemma DefaultedOn(cs: ComponentList, p: Platform, n: Component)
    requires IsOn(n) && n != ConsoleMCE
    ensures Enabled(Defaulted(cs, p), n) <==>
            !Present(cs, n) || Enabled(cs, n) || (PreviewOf(n).Some? && Enabled(cs, PreviewOf(n).value))
    ensures PreviewOf(n).Some? ==> !Enabled(Defaulted(cs, p), PreviewOf(n).value)
  {
    DefaultedMeaning(cs, p, n);
    if PreviewOf(n).Some? {
      PreviewsHaveStables(n);
      DefaultedMeaning(cs, p, PreviewOf(n).value);
    }
  }

  lemma DefaultingTurnsHyperShiftOn(cs: ComponentList, p: Platform)
    ensures HyperShiftOn(Defaulted(cs, p)) <==>
            HyperShiftOn(cs) || !Present(cs, HyperShift) || !Present(cs, HypershiftLocalHosting)
  {
    DefaultedOn(cs, p, HyperShift);
    DefaultedOn(cs, p, HypershiftLocalHosting);
  }

  /** When defaulting breaks exclusivity: a condition the author of the spec can check. */
  predicate DefaultsClash(cs: ComponentList) {
    ClusterAPIOn(cs) &&
    (HyperShiftOn(cs) || !Present(cs, HyperShift) || !Present(cs, HypershiftLocalHosting))
  }

  lemma DefaultedExclusiveIff(cs: ComponentList, p: Platform)
    ensures Exclusive(Defaulted(cs, p)) <==> !DefaultsClash(cs)
  {
    DefaultingKeepsClusterAPI(cs, p);
    DefaultingTurnsHyperShiftOn(cs, p);
  }

  lemma {:induction false} CheckComponentsIff(cs: ComponentList, maestroWasOn: bool)
    ensures CheckComponents(cs, maestroWasOn).None? <==>
            forall c <- cs :: Known(c.name) && (c.name == MaestroPreview && c.enabled ==> maestroWasOn)
    decreases |cs|
  {
    if cs != [] {
      CheckComponentsIff(cs[1..], maestroWasOn);
      assert forall c :: c in cs <==> c == cs[0] || c in cs[1..];
    }
  }

  predicate KnownOnly(cs: ComponentList) {
    forall c <- cs :: Known(c.name)
  }

  lemma {:induction false} PresentIff<N>(cs: seq<Entry<N>>, n: N)
    ensures Present(cs, n) <==> exists c :: c in cs && c.name == n
    decreases |cs|
  {
    if cs != [] {
      PresentIff(cs[1..], n);
      assert forall c :: c in cs <==> c == cs[0] || c in cs[1..];
    }
  }

  lemma ListedAreKnown(n: Component)
    requires IsOn(n) || IsOff(n) || n == ConsoleMCE || IsPreview(n)
    ensures Known(n)
  {}

  /** The validator's loop objects to an unknown name, and to any enabled maestro-preview entry unless
      maestro-preview, that is its first entry, was on. */
  lemma {:induction false} CheckedIff(cs: ComponentList, maestroWasOn: bool)
    ensures CheckComponents(cs, maestroWasOn).None? <==>
            KnownOnly(cs) && (AnyOn(cs, MaestroPreview) ==> maestroWasOn)
    decreases |cs|
  {
    if cs != [] {
      CheckedIff(cs[1..], maestroWasOn);
      assert forall c :: c in cs <==> c == cs[0] || c in cs[1..];
    }
  }

  lemma KnownIff(cs: ComponentList)
    ensures KnownOnly(cs) <==> forall n :: Present(cs, n) ==> Known(n)
  {
    forall n | Present(cs, n) ensures exists c :: c in cs && c.name == n { PresentIff(cs, n); }
    forall c | c in cs ensures Present(cs, c.name) { PresentIff(cs, c.name); }
  }

  lemma DefaultingKeepsKnown(cs: ComponentList, p: Platform)
    ensures KnownOnly(Defaulted(cs, p)) <==> KnownOnly(cs)
  {
    KnownIff(cs);
    KnownIff(Defaulted(cs, p));
    forall n | !Known(n) ensures Present(Defaulted(cs, p), n) <==> Present(cs, n) {
      DefaultedMeaning(cs, p, n);
      if IsOn(n) || IsOff(n) || n == ConsoleMCE || IsPreview(n) { ListedAreKnown(n); }
    }
  }

  /** Defaulting neither adds nor removes an enabled maestro-preview entry. */
  lemma DefaultingKeepsMaestro(cs: ComponentList, p: Platform)
    ensures AnyOn(Defaulted(cs, p), MaestroPreview) <==> AnyOn(cs, MaestroPreview)
  {
    DefaultedAnyOn(cs, p, MaestroPreview);
  }

  /** The object setDefaults writes back. */
  function DefaultedMce(m: Mce, p: Platform): Mce {
    m.(annotations := DefaultedAnnotations(m.annotations), spec := DefaultedSpec(m.spec, p))
  }

  lemma DefaultingKeepsMode(m: Mce, p: Platform)
    ensures Hosted(DefaultedMce(m, p)) == Hosted(m)
  {
    assert |ADOPTION_POLICY| != |"deploymentmode"|;
  }

  predicate DiscoveryOff(cs: ComponentList) {
    Present(cs, Discovery) && !Enabled(cs, Discovery)
  }

  lemma DefaultingKeepsDiscovery(cs: ComponentList, p: Platform)
    ensures DiscoveryOff(Defaulted(cs, p)) == DiscoveryOff(cs)
  {
    DefaultedMeaning(cs, p, Discovery);
  }

  /** Only four checks of the update validator can object to a defaulted object. */
  lemma DefaultedUpdateChecks(m: Mce, p: Platform, around: Surroundings)
    ensures
      var cs := ComponentsOf(m.spec);
      var ds := Defaulted(cs, p);
      ValidateUpdate(m, DefaultedMce(m, p), around) == Admitted <==>
      && CheckComponents(ds, Enabled(cs, MaestroPreview)).None?
      && Exclusive(ds) && !(DiscoveryOff(ds) && around.discoveryConfigs)
  {
    DefaultingKeepsMode(m, p);
  }

  /** An enabled maestro-preview entry hides behind a disabled one. */
  predicate HiddenMaestro(cs: ComponentList) {
    AnyOn(cs, MaestroPreview) && !Enabled(cs, MaestroPreview)
  }

  /** For every object, the update that setDefaults sends is admitted exactly when all names are
      known, no enabled maestro-preview entry hides behind a disabled one, the defaults do not clash,
      and discovery is not disabled while DiscoveryConfigs exist. */
  lemma DefaultingUpdateAdmittedIff(m: Mce, p: Platform, around: Surroundings)
    ensures
      var cs := ComponentsOf(m.spec);
      ValidateUpdate(m, DefaultedMce(m, p), around) == Admitted <==>
      && KnownOnly(cs) && !HiddenMaestro(cs)
      && !DefaultsClash(cs) && !(DiscoveryOff(cs) && around.discoveryConfigs)
  {
    var cs := ComponentsOf(m.spec);
    DefaultedUpdateChecks(m, p, around);
    CheckedIff(Defaulted(cs, p), Enabled(cs, MaestroPreview));
    DefaultingKeepsKnown(cs, p);
    DefaultingKeepsMaestro(cs, p);
    DefaultedExclusiveIff(cs, p);
    DefaultingKeepsDiscovery(cs, p);
  }

  /** An engine whose list only enables cluster-api. */
  function ClusterAPIOnly(): Mce {
    Mce("engine", map[], Spec("", "", "local-cluster", None, Some(Overrides("", [Entry(ClusterAPI, true, [])], ""))))
  }

  lemma ClusterAPIOnlyMeaning()
    ensures var cs := ComponentsOf(ClusterAPIOnly().spec);
      && KnownOnly(cs) && !HiddenMaestro(cs) && !HyperShiftOn(cs) && DefaultsClash(cs)
      && CheckComponents(cs, false).None?
  {
    var cs: ComponentList := [Entry(ClusterAPI, true, [])];
    assert cs[1..] == [];
    CheckComponentsIff(cs, false);
  }

  /** A spec that only enables cluster-api is admitted, and its defaulted form is not. */
  lemma AdmittedSpecCanBeStuck(p: Platform, around: Surroundings) returns (m: Mce)
    ensures ValidateCreate(m, []) == Admitted
    ensures ValidateUpdate(m, DefaultedMce(m, p), around) != Admitted
  {
    m := ClusterAPIOnly();
    ClusterAPIOnlyMeaning();
    DefaultingUpdateAdmittedIff(m, p, around);
  }

  function MaestroList(flags: seq<bool>): ComponentList {
    seq(|flags|, i requires 0 <= i < |flags| => Entry(MaestroPreview, flags[i], []))
  }

  function WithMaestro(flags: seq<bool>): Mce {
    Mce("engine", map[], Spec("", "", "local-cluster", None, Some(Overrides("", MaestroList(flags), ""))))
  }

  lemma {:induction false} MaestroListMeaning(flags: seq<bool>, n: Component)
    ensures Enabled(MaestroList(flags), n) <==> n == MaestroPreview && flags != [] && flags[0]
    ensures AnyOn(MaestroList(flags), n) <==> n == MaestroPreview && true in flags
    ensures Present(MaestroList(flags), n) <==> n == MaestroPreview && flags != []
    ensures KnownOnly(MaestroList(flags))
    decreases |flags|
  {
    if flags != [] {
      assert MaestroList(flags)[1..] == MaestroList(flags[1..]);
      MaestroListMeaning(flags[1..], n);
      assert forall b :: b in flags <==> b == flags[0] || b in flags[1..];
    }
  }

  lemma NoFamilies(cs: ComponentList)
    requires forall n :: Enabled(cs, n) ==> n == MaestroPreview
    ensures !HyperShiftOn(cs) && !ClusterAPIOn(cs)
  {
  }

  lemma HiddenMaestroMeaning()
    ensures
      var cs := MaestroList([false, true]);
      KnownOnly(cs) && HiddenMaestro(cs) && !HyperShiftOn(cs) && !ClusterAPIOn(cs) && !Present(cs, Discovery)
  {
    var flags := [false, true];
    var cs := MaestroList(flags);
    forall n ensures Enabled(cs, n) ==> n == MaestroPreview { MaestroListMeaning(flags, n); }
    NoFamilies(cs);
    assert flags[1] in flags;
    MaestroListMeaning(flags, MaestroPreview);
    MaestroListMeaning(flags, Discovery);
  }

  /** An engine with maestro-preview on may be updated to list it off first and on second. */
  lemma MaestroCanHide(around: Surroundings)
    ensures ValidateUpdate(WithMaestro([true]), WithMaestro([false, true]), around) == Admitted
  {
    HiddenMaestroMeaning();
    MaestroListMeaning([true], MaestroPreview);
    CheckedIff(MaestroList([false, true]), Enabled(MaestroList([true]), MaestroPreview));
  }

  /** No default clashes then, and yet every later update of setDefaults is rejected. */
  lemma RepeatedMaestroIsStuck(p: Platform, around: Surroundings)
    ensures
      var m := WithMaestro([false, true]);
      && ValidateUpdate(WithMaestro([true]), m, around) == Admitted
      && !DefaultsClash(ComponentsOf(m.spec)) && !DiscoveryOff(ComponentsOf(m.spec))
      && ValidateUpdate(m, DefaultedMce(m, p), around) != Admitted
  {
    MaestroCanHide(around);
    HiddenMaestroMeaning();
    DefaultingUpdateAdmittedIff(WithMaestro([false, true]), p, around);
  }
}
