/** The validators, rule by rule (api/v1/multiclusterengine_webhook.go): what each rejection means and
    which one comes first. */
module AdmissionRules {
  import opened Names
  import opened Components
  import opened Engine
  import opened Admission

  // ------------------------------------------------------------------------ the rules

  predicate HyperShiftName(n: Component) {
    n == HyperShift || n == HyperShiftPreview || n == HypershiftLocalHosting
  }

  predicate ClusterAPIName(n: Component) {
    || n == ClusterAPI || n == ClusterAPIPreview
    || n == ClusterAPIProviderAWS || n == ClusterAPIProviderAWSPreview || n == ClusterAPIProviderAzurePreview
    || n == ClusterAPIProviderMetal || n == ClusterAPIProviderMetalPreview
    || n == ClusterAPIProviderOA || n == ClusterAPIProviderOAPreview
  }

  /** A component of each family is enabled. */
  ghost predicate Clash(cs: ComponentList) {
    exists h, c :: HyperShiftName(h) && ClusterAPIName(c) && Enabled(cs, h) && Enabled(cs, c)
  }

  lemma ExclusiveIff(cs: ComponentList)
    ensures Exclusive(cs) <==> !Clash(cs)
  {
    HyperShiftOnIff(cs);
    ClusterAPIOnIff(cs);
    if HyperShiftOn(cs) && ClusterAPIOn(cs) {
      var h :| HyperShiftName(h) && Enabled(cs, h);
      var c :| ClusterAPIName(c) && Enabled(cs, c);
      assert Clash(cs);
    }
  }

  lemma HyperShiftOnIff(cs: ComponentList)
    ensures HyperShiftOn(cs) <==> exists h :: HyperShiftName(h) && Enabled(cs, h)
  {
    assert HyperShiftName(HyperShift) && HyperShiftName(HyperShiftPreview) && HyperShiftName(HypershiftLocalHosting);
  }

  lemma ClusterAPIOnIff(cs: ComponentList)
    ensures ClusterAPIOn(cs) <==> exists c :: ClusterAPIName(c) && Enabled(cs, c)
  {
    assert ClusterAPIName(ClusterAPI) && ClusterAPIName(ClusterAPIPreview);
    assert ClusterAPIName(ClusterAPIProviderAWS) && ClusterAPIName(ClusterAPIProviderAWSPreview);
    assert ClusterAPIName(ClusterAPIProviderAzurePreview);
    assert ClusterAPIName(ClusterAPIProviderMetal) && ClusterAPIName(ClusterAPIProviderMetalPreview);
    assert ClusterAPIName(ClusterAPIProviderOA) && ClusterAPIName(ClusterAPIProviderOAPreview);
  }

  predicate BadAvailability(a: string) {
    a != "" && a != "High" && a != "Basic"
  }

  /** Entry i is objectionable. */
  predicate Offends(cs: ComponentList, maestroWasOn: bool, i: nat) {
    i < |cs| && (!Known(cs[i].name) || (cs[i].name == MaestroPreview && cs[i].enabled && !maestroWasOn))
  }

  /** The first objectionable entry, and the objection to it. */
  predicate FirstOffence(cs: ComponentList, maestroWasOn: bool, i: nat, why: Rejection) {
    && Offends(cs, maestroWasOn, i)
    && (forall j | 0 <= j < i :: !Offends(cs, maestroWasOn, j))
    && why == if Known(cs[i].name) then MaestroDeprecated else UnknownComponent
  }

  lemma {:induction false} FirstOffenceIsReported(cs: ComponentList, maestroWasOn: bool)
    ensures CheckComponents(cs, maestroWasOn).None? <==> forall i | 0 <= i < |cs| :: !Offends(cs, maestroWasOn, i)
    ensures CheckComponents(cs, maestroWasOn).Some? ==>
              exists i: nat :: FirstOffence(cs, maestroWasOn, i, CheckComponents(cs, maestroWasOn).value)
    decreases |cs|
  {
    if cs != [] && !Offends(cs, maestroWasOn, 0) {
      FirstOffenceIsReported(cs[1..], maestroWasOn);
      forall i | 0 < i < |cs| ensures Offends(cs, maestroWasOn, i) == Offends(cs[1..], maestroWasOn, i - 1) {}
      var rest := CheckComponents(cs[1..], maestroWasOn);
      if rest.Some? {
        var tail := cs[1..];
        var i: nat :| FirstOffence(tail, maestroWasOn, i, rest.value);
        assert FirstOffence(cs, maestroWasOn, i + 1, rest.value);
      }
    } else if cs != [] {
      var first: nat := 0;
      assert Offends(cs, maestroWasOn, first);
      assert FirstOffence(cs, maestroWasOn, first, CheckComponents(cs, maestroWasOn).value);
    }
  }

  function NamespaceOf(m: Mce): string {
    if m.spec.targetNamespace == "" then "multicluster-engine" else m.spec.targetNamespace
  }

  predicate HostedMode(m: Mce) {
    "deploymentmode" in m.annotations && m.annotations["deploymentmode"] == "Hosted"
  }

  predicate SharesNamespace(a: Mce, b: Mce) {
    NamespaceOf(a) == NamespaceOf(b)
  }

  predicate BothStandalone(a: Mce, b: Mce) {
    !HostedMode(a) && !HostedMode(b)
  }

  /** The first existing engine in the way, and why. */
  predicate FirstConflict(obj: Mce, existing: seq<Mce>, i: nat, why: Rejection) {
    && i < |existing|
    && (SharesNamespace(obj, existing[i]) || BothStandalone(obj, existing[i]))
    && (forall j | 0 <= j < i :: !SharesNamespace(obj, existing[j]) && !BothStandalone(obj, existing[j]))
    && why == if SharesNamespace(obj, existing[i]) then NamespaceTaken else StandaloneTaken
  }

  predicate NoConflict(obj: Mce, existing: seq<Mce>) {
    forall i | 0 <= i < |existing| :: !SharesNamespace(obj, existing[i]) && !BothStandalone(obj, existing[i])
  }

  lemma {:induction false} FirstConflictIsReported(obj: Mce, existing: seq<Mce>)
    ensures CheckOthers(obj, existing).None? <==> NoConflict(obj, existing)
    ensures CheckOthers(obj, existing).Some? ==>
              exists i: nat :: FirstConflict(obj, existing, i, CheckOthers(obj, existing).value)
    decreases |existing|
  {
    if existing != [] {
      var tail := existing[1..];
      FirstConflictIsReported(obj, tail);
      if SharesNamespace(obj, existing[0]) || BothStandalone(obj, existing[0]) {
        var first: nat := 0;
        assert FirstConflict(obj, existing, first, CheckOthers(obj, existing).value);
      } else if CheckOthers(obj, tail).Some? {
        var i: nat :| FirstConflict(obj, tail, i, CheckOthers(obj, tail).value);
        assert FirstConflict(obj, existing, i + 1, CheckOthers(obj, tail).value);
      }
    }
  }

  // --------------------------------------------------------------------------- creates

  /** Rule number n objects to the new engine. */
  ghost predicate CreateRule(obj: Mce, existing: seq<Mce>, n: nat) {
    var cs := ComponentsOf(obj.spec);
    match n
    case 0 => BadAvailability(obj.spec.availability)
    case 1 => exists i :: 0 <= i < |cs| && Offends(cs, false, i)
    case 2 => Clash(cs)
    case 3 => |obj.spec.localClusterName| >= 35
    case 4 => !NoConflict(obj, existing)
    case _ => false
  }

  /** The rejections rule n gives. */
  ghost predicate CreateObjection(obj: Mce, existing: seq<Mce>, n: nat, why: Rejection) {
    match n
    case 0 => why == InvalidAvailability
    case 1 => exists i: nat :: FirstOffence(ComponentsOf(obj.spec), false, i, why)
    case 2 => why == Exclusivity
    case 3 => why == NameTooLong
    case 4 => exists i: nat :: FirstConflict(obj, existing, i, why)
    case _ => false
  }

  ghost predicate FirstCreateRule(obj: Mce, existing: seq<Mce>, n: nat) {
    CreateRule(obj, existing, n) && forall m: nat | m < n :: !CreateRule(obj, existing, m)
  }

  lemma CreateFacts(obj: Mce, existing: seq<Mce>)
    ensures var cs := ComponentsOf(obj.spec);
      && (CreateRule(obj, existing, 0) <==> !AllowedAvailability(obj.spec.availability))
      && (CreateRule(obj, existing, 1) <==> CheckComponents(cs, false).Some?)
      && (CreateRule(obj, existing, 1) ==> CreateObjection(obj, existing, 1, CheckComponents(cs, false).value))
      && (CreateRule(obj, existing, 2) <==> !Exclusive(cs))
      && (CreateRule(obj, existing, 4) <==> CheckOthers(obj, existing).Some?)
      && (CreateRule(obj, existing, 4) ==> CreateObjection(obj, existing, 4, CheckOthers(obj, existing).value))
  {
    var cs := ComponentsOf(obj.spec);
    FirstOffenceIsReported(cs, false);
    if CheckComponents(cs, false).Some? {
      var i: nat :| FirstOffence(cs, false, i, CheckComponents(cs, false).value);
      assert Offends(cs, false, i);
    }
    ExclusiveIff(cs);
    FirstConflictIsReported(obj, existing);
    if CheckOthers(obj, existing).Some? {
      var i: nat :| FirstConflict(obj, existing, i, CheckOthers(obj, existing).value);
    }
  }

  /** A new engine is admitted exactly when no rule objects, and rejected for the first rule that
      does. */
  lemma CreateDecidedByFirstRule(obj: Mce, existing: seq<Mce>)
    ensures match ValidateCreate(obj, existing)
      case Admitted => forall n: nat :: !CreateRule(obj, existing, n)
      case Rejected(why) => exists n: nat :: FirstCreateRule(obj, existing, n) && CreateObjection(obj, existing, n, why)
  {
    CreateFacts(obj, existing);
    var cs := ComponentsOf(obj.spec);
    if ValidateCreate(obj, existing).Rejected? {
      var n: nat :=
        if CreateRule(obj, existing, 0) then 0 else if CreateRule(obj, existing, 1) then 1
        else if CreateRule(obj, existing, 2) then 2 else if CreateRule(obj, existing, 3) then 3 else 4;
      assert FirstCreateRule(obj, existing, n);
      assert CreateObjection(obj, existing, n, ValidateCreate(obj, existing).why);
    }
  }

  /** Creation is admitted if and only if: availability is empty or valid, every name is known and
      no maestro-preview entry is on, the two families are not both enabled, the local cluster's name
      is short, and no engine shares the namespace or is a second standalone one. */
  lemma CreateAdmittedIff(obj: Mce, existing: seq<Mce>)
    ensures ValidateCreate(obj, existing) == Admitted <==>
      var cs := ComponentsOf(obj.spec);
      && !BadAvailability(obj.spec.availability)
      && KnownOnly(cs) && !AnyOn(cs, MaestroPreview)
      && !Clash(cs)
      && |obj.spec.localClusterName| < 35
      && NoConflict(obj, existing)
  {
    var cs := ComponentsOf(obj.spec);
    CheckedIff(cs, false);
    ExclusiveIff(cs);
    FirstConflictIsReported(obj, existing);
    if CheckOthers(obj, existing).Some? {
      var i: nat :| FirstConflict(obj, existing, i, CheckOthers(obj, existing).value);
    }
  }

  // --------------------------------------------------------------------------- updates

  predicate ClusterInUse(name: string, clusters: seq<ManagedCluster>) {
    exists i :: 0 <= i < |clusters| && (clusters[i].name == name || clusters[i].isLocal)
  }

  function InfraNamespace(m: Mce): string {
    if m.spec.overrides.Some? then m.spec.overrides.value.infraNamespace else ""
  }

  predicate Renamed(before: Mce, after: Mce) {
    before.spec.localClusterName != after.spec.localClusterName
  }

  /** Rule number n objects to the update. */
  ghost predicate UpdateRule(before: Mce, after: Mce, around: Surroundings, n: nat) {
    var cs := ComponentsOf(after.spec);
    var was := Enabled(ComponentsOf(before.spec), MaestroPreview);
    match n
    case 0 => before.spec.targetNamespace != "" && after.spec.targetNamespace != before.spec.targetNamespace
    case 1 => HostedMode(before) != HostedMode(after)
    case 2 => InfraNamespace(before) != InfraNamespace(after)
    case 3 => BadAvailability(after.spec.availability)
    case 4 => exists i :: 0 <= i < |cs| && Offends(cs, was, i)
    case 5 => Clash(cs)
    case 6 => Present(cs, Discovery) && !Enabled(cs, Discovery) && around.discoveryConfigs
    case 7 => Renamed(before, after) && |after.spec.localClusterName| >= 35
    case 8 => Renamed(before, after) && ClusterInUse(before.spec.localClusterName, around.managedClusters)
    case _ => false
  }

  ghost predicate UpdateObjection(before: Mce, after: Mce, n: nat, why: Rejection) {
    match n
    case 0 => why == NamespaceChanged
    case 1 => why == ModeChanged
    case 2 => why == InfraNamespaceChanged
    case 3 => why == InvalidAvailability
    case 4 =>
      exists i: nat :: FirstOffence(ComponentsOf(after.spec), Enabled(ComponentsOf(before.spec), MaestroPreview), i, why)
    case 5 => why == Exclusivity
    case 6 => why == DiscoveryInUse
    case 7 => why == NameTooLong
    case 8 => why == LocalClusterInUse
    case _ => false
  }

  ghost predicate FirstUpdateRule(before: Mce, after: Mce, around: Surroundings, n: nat) {
    UpdateRule(before, after, around, n) && forall m: nat | m < n :: !UpdateRule(before, after, around, m)
  }

  lemma UpdateFacts(before: Mce, after: Mce, around: Surroundings)
    ensures
      var cs := ComponentsOf(after.spec);
      var check := CheckComponents(cs, Enabled(ComponentsOf(before.spec), MaestroPreview));
      && (UpdateRule(before, after, around, 3) <==> !AllowedAvailability(after.spec.availability))
      && (UpdateRule(before, after, around, 4) <==> check.Some?)
      && (UpdateRule(before, after, around, 4) ==> UpdateObjection(before, after, 4, check.value))
      && (UpdateRule(before, after, around, 5) <==> !Exclusive(cs))
  {
    var cs := ComponentsOf(after.spec);
    var was := Enabled(ComponentsOf(before.spec), MaestroPreview);
    FirstOffenceIsReported(cs, was);
    if CheckComponents(cs, was).Some? {
      var i: nat :| FirstOffence(cs, was, i, CheckComponents(cs, was).value);
      assert Offends(cs, was, i);
    }
    ExclusiveIff(cs);
  }

  /** An update is admitted exactly when no rule objects, and rejected for the first rule that does. */
  lemma UpdateDecidedByFirstRule(before: Mce, after: Mce, around: Surroundings)
    ensures match ValidateUpdate(before, after, around)
      case Admitted => forall n: nat :: !UpdateRule(before, after, around, n)
      case Rejected(why) =>
        exists n: nat :: FirstUpdateRule(before, after, around, n) && UpdateObjection(before, after, n, why)
  {
    UpdateFacts(before, after, around);
    if ValidateUpdate(before, after, around).Rejected? {
      var n: nat :=
        if UpdateRule(before, after, around, 0) then 0 else if UpdateRule(before, after, around, 1) then 1
        else if UpdateRule(before, after, around, 2) then 2 else if UpdateRule(before, after, around, 3) then 3
        else if UpdateRule(before, after, around, 4) then 4 else if UpdateRule(before, after, around, 5) then 5
        else if UpdateRule(before, after, around, 6) then 6 else if UpdateRule(before, after, around, 7) then 7 else 8;
      assert FirstUpdateRule(before, after, around, n);
      assert UpdateObjection(before, after, n, ValidateUpdate(before, after, around).why);
    }
  }

  /** An update, of any object to any other, is admitted if and only if no rule objects. */
  lemma UpdateAdmittedIff(before: Mce, after: Mce, around: Surroundings)
    ensures ValidateUpdate(before, after, around) == Admitted <==> forall n: nat :: !UpdateRule(before, after, around, n)
  {
    UpdateDecidedByFirstRule(before, after, around);
    if ValidateUpdate(before, after, around).Rejected? {
      var n: nat :| FirstUpdateRule(before, after, around, n);
    }
  }
}
