/** Defaulting as list transformations: fill in missing components, replace previews by their
    stable counterparts, settle the console (controllers/backplaneconfig_controller.go,
    pkg/utils/utils.go). Generic in the names until the concrete lists at the end. */
module Defaulting {
  import opened Names
  import opened Components

  /** Adds every missing name with the given flag. */
  function Fill<N(==)>(cs: seq<Entry<N>>, names: seq<N>, on: bool): seq<Entry<N>>
    decreases |names|, cs
  {
    if names == [] then cs
    else Fill(if Present(cs, names[0]) then cs else Toggled(cs, names[0], on), names[1..], on)
  }

  /** Enables the stable counterpart of an enabled preview and prunes the preview. */
  function MigrateOne<N(==)>(cs: seq<Entry<N>>, preview: N, stableOf: map<N, N>): seq<Entry<N>> {
    Without(if Enabled(cs, preview) && preview in stableOf then Toggled(cs, stableOf[preview], true) else cs, preview)
  }

  function Migrate<N(==)>(cs: seq<Entry<N>>, previews: seq<N>, stableOf: map<N, N>): seq<Entry<N>>
    decreases |previews|, cs
  {
    if previews == [] then cs else Migrate(MigrateOne(cs, previews[0], stableOf), previews[1..], stableOf)
  }

  function WithoutAll<N(==)>(cs: seq<Entry<N>>, names: seq<N>): seq<Entry<N>>
    decreases |names|, cs
  {
    if names == [] then cs else WithoutAll(Without(cs, names[0]), names[1..])
  }

  /** Some enabled preview in the list is replaced by m. */
  ghost predicate Promoted<N>(cs: seq<Entry<N>>, previews: seq<N>, stableOf: map<N, N>, m: N) {
    exists p :: p in previews && p in stableOf && stableOf[p] == m && Enabled(cs, p)
  }

  predicate StableNames<N(==)>(previews: seq<N>, stableOf: map<N, N>) {
    forall p <- stableOf :: stableOf[p] !in previews
  }

  lemma {:induction false} FillMeaning<N>(cs: seq<Entry<N>>, names: seq<N>, on: bool, m: N)
    ensures Present(Fill(cs, names, on), m) <==> Present(cs, m) || m in names
    ensures Enabled(Fill(cs, names, on), m) <==> if Present(cs, m) then Enabled(cs, m) else m in names && on
    decreases |names|
  {
    if names != [] {
      ToggledMeaning(cs, names[0], on, m);
      FillMeaning(if Present(cs, names[0]) then cs else Toggled(cs, names[0], on), names[1..], on, m);
      assert m in names <==> m == names[0] || m in names[1..];
    }
    if Enabled(cs, m) { EnabledIsPresent(cs, m); }
  }

  lemma {:induction false} FillSettled<N>(cs: seq<Entry<N>>, names: seq<N>, on: bool)
    requires forall n <- names :: Present(cs, n)
    ensures Fill(cs, names, on) == cs
    decreases |names|
  {
    if names != [] { FillSettled(cs, names[1..], on); }
  }

  lemma {:induction false} FillFrame<N>(before: seq<Entry<N>>, cs: seq<Entry<N>>, names: seq<N>, on: bool, free: set<N>)
    requires Extends(before, cs, free)
    ensures Extends(before, Fill(cs, names, on), free)
    ensures Unique(cs) ==> Unique(Fill(cs, names, on))
    decreases |names|
  {
    if names != [] {
      if !Present(cs, names[0]) { ExtendsToggled(before, cs, names[0], on, free); }
      if Unique(cs) { ToggledUnique(cs, names[0], on); }
      FillFrame(before, if Present(cs, names[0]) then cs else Toggled(cs, names[0], on), names[1..], on, free);
    }
  }

  lemma MigrateOneMeaning<N>(cs: seq<Entry<N>>, p: N, stableOf: map<N, N>, m: N)
    ensures Enabled(MigrateOne(cs, p, stableOf), m) <==>
            m != p && (Enabled(cs, m) || (p in stableOf && stableOf[p] == m && Enabled(cs, p)))
    ensures Present(MigrateOne(cs, p, stableOf), m) <==>
            m != p && (Present(cs, m) || (p in stableOf && stableOf[p] == m && Enabled(cs, p)))
  {
    if Enabled(cs, p) && p in stableOf {
      ToggledMeaning(cs, stableOf[p], true, m);
      WithoutMeaning(Toggled(cs, stableOf[p], true), p, m);
    } else {
      WithoutMeaning(cs, p, m);
    }
  }

  lemma {:induction false} MigrateMeaning<N>(cs: seq<Entry<N>>, previews: seq<N>, stableOf: map<N, N>, m: N)
    requires StableNames(previews, stableOf)
    ensures Enabled(Migrate(cs, previews, stableOf), m) <==>
            m !in previews && (Enabled(cs, m) || Promoted(cs, previews, stableOf, m))
    ensures Present(Migrate(cs, previews, stableOf), m) <==>
            m !in previews && (Present(cs, m) || Promoted(cs, previews, stableOf, m))
    decreases |previews|
  {
    if previews != [] {
      var p := previews[0];
      var next := MigrateOne(cs, p, stableOf);
      MigrateOneMeaning(cs, p, stableOf, m);
      MigrateMeaning(next, previews[1..], stableOf, m);
      assert m in previews <==> m == p || m in previews[1..];
      forall q | q in previews[1..] ensures Enabled(next, q) <==> Enabled(cs, q) && q != p {
        MigrateOneMeaning(cs, p, stableOf, q);
        assert q in previews;
      }
      if q :| q in previews[1..] && q in stableOf && stableOf[q] == m && Enabled(next, q) { assert q in previews; }
      if q :| q in previews && q in stableOf && stableOf[q] == m && Enabled(cs, q) && q != p {
        assert q in previews[1..] && Enabled(next, q);
      }
    }
  }

  lemma {:induction false} MigrateSettled<N>(cs: seq<Entry<N>>, previews: seq<N>, stableOf: map<N, N>)
    requires forall p <- previews :: !Present(cs, p)
    ensures Migrate(cs, previews, stableOf) == cs
    decreases |previews|
  {
    if previews != [] {
      if Enabled(cs, previews[0]) { EnabledIsPresent(cs, previews[0]); }
      WithoutAbsent(cs, previews[0]);
      MigrateSettled(cs, previews[1..], stableOf);
    }
  }

  lemma {:induction false} MigrateFrame<N>(before: seq<Entry<N>>, cs: seq<Entry<N>>, previews: seq<N>, stableOf: map<N, N>, free: set<N>)
    requires StableNames(previews, stableOf) && Extends(before, cs, free)
    requires forall p <- previews :: p in stableOf && Enabled(cs, p) ==> stableOf[p] in free
    ensures Extends(WithoutAll(before, previews), Migrate(cs, previews, stableOf), free)
    ensures Unique(cs) ==> Unique(Migrate(cs, previews, stableOf))
    decreases |previews|
  {
    if previews != [] {
      var p := previews[0];
      var toggled := if Enabled(cs, p) && p in stableOf then Toggled(cs, stableOf[p], true) else cs;
      if Enabled(cs, p) && p in stableOf { ExtendsToggled(before, cs, stableOf[p], true, free); }
      ExtendsWithout(before, toggled, p, free);
      if Unique(cs) {
        if p in stableOf { ToggledUnique(cs, stableOf[p], true); }
        WithoutUnique(toggled, p);
      }
      forall q <- previews[1..] ensures q in stableOf && Enabled(Without(toggled, p), q) ==> stableOf[q] in free {
        MigrateOneMeaning(cs, p, stableOf, q);
        assert q in previews;
      }
      MigrateFrame(Without(before, p), Without(toggled, p), previews[1..], stableOf, free);
    }
  }

  lemma {:induction false} FillAnyOn<N>(cs: seq<Entry<N>>, names: seq<N>, on: bool, m: N)
    requires m !in names || !on
    ensures AnyOn(Fill(cs, names, on), m) <==> AnyOn(cs, m)
    decreases |names|
  {
    if names != [] {
      ToggledAnyOn(cs, names[0], on, m);
      FillAnyOn(if Present(cs, names[0]) then cs else Toggled(cs, names[0], on), names[1..], on, m);
    }
  }

  lemma {:induction false} MigrateAnyOn<N>(cs: seq<Entry<N>>, previews: seq<N>, stableOf: map<N, N>, m: N)
    requires m !in previews && forall q <- stableOf :: stableOf[q] != m
    ensures AnyOn(Migrate(cs, previews, stableOf), m) <==> AnyOn(cs, m)
    decreases |previews|
  {
    if previews != [] {
      var q := previews[0];
      var cs' := if Enabled(cs, q) && q in stableOf then Toggled(cs, stableOf[q], true) else cs;
      if q in stableOf { ToggledAnyOn(cs, stableOf[q], true, m); }
      WithoutAnyOn(cs', q, m);
      MigrateAnyOn(MigrateOne(cs, q, stableOf), previews[1..], stableOf, m);
    }
  }

  // ------------------------------------------------------------- the concrete lists

  const ON_COMPONENTS: seq<Component> := [
    AssistedService, ClusterLifecycle, ClusterManager, ClusterPermission, Discovery, FleetNavigation,
    Hive, ServerFoundation, ClusterProxyAddon, LocalCluster, HypershiftLocalHosting, HyperShift,
    ManagedServiceAccount]

  const OFF_COMPONENTS: seq<Component> := [
    ClusterAPI, ClusterAPIProviderAWS, ClusterAPIProviderAzurePreview, ClusterAPIProviderMetal,
    ClusterAPIProviderOA, ImageBasedInstallOperator, MaestroPreview]

  const PREVIEW_COMPONENTS: seq<Component> := [
    ClusterAPIPreview, ClusterAPIProviderAWSPreview, ClusterAPIProviderMetalPreview,
    ClusterAPIProviderOAPreview, HyperShiftPreview, ImageBasedInstallOperatorPreview,
    ManagedServiceAccountPreview]

  const PREVIEW_TO_STABLE: map<Component, Component> := map[
    ClusterAPIPreview := ClusterAPI,
    ClusterAPIProviderAWSPreview := ClusterAPIProviderAWS,
    ClusterAPIProviderMetalPreview := ClusterAPIProviderMetal,
    ClusterAPIProviderOAPreview := ClusterAPIProviderOA,
    HyperShiftPreview := HyperShift,
    ImageBasedInstallOperatorPreview := ImageBasedInstallOperator,
    ManagedServiceAccountPreview := ManagedServiceAccount]

  /** What is known about the cluster: not OpenShift, OpenShift with or without dynamic plugin
      support (4.10), or a failure to find out. */
  datatype Platform = NotOCP | OCP(plugins: bool) | OCPFailure

  function SettleConsole(cs: ComponentList, p: Platform): ComponentList {
    if !p.OCP? then cs
    else if p.plugins then (if Present(cs, ConsoleMCE) then cs else Toggled(cs, ConsoleMCE, true))
    else if Enabled(cs, ConsoleMCE) then Toggled(cs, ConsoleMCE, false)
    else cs
  }

  function Filled(cs: ComponentList): ComponentList {
    Fill(Fill(cs, ON_COMPONENTS, true), OFF_COMPONENTS, false)
  }

  function Migrated(cs: ComponentList): ComponentList {
    Migrate(cs, PREVIEW_COMPONENTS, PREVIEW_TO_STABLE)
  }

  function Defaulted(cs: ComponentList, p: Platform): ComponentList {
    SettleConsole(Migrated(Filled(cs)), p)
  }

  predicate IsOn(n: Component) {
    match n
    case AssistedService | ClusterLifecycle | ClusterManager | ClusterPermission | Discovery
       | FleetNavigation | Hive | ServerFoundation | ClusterProxyAddon | LocalCluster
       | HypershiftLocalHosting | HyperShift | ManagedServiceAccount => true
    case _ => false
  }

  predicate IsOff(n: Component) {
    match n
    case ClusterAPI | ClusterAPIProviderAWS | ClusterAPIProviderAzurePreview | ClusterAPIProviderMetal
       | ClusterAPIProviderOA | ImageBasedInstallOperator | MaestroPreview => true
    case _ => false
  }

  /** The preview a stable component replaces. */
  function PreviewOf(n: Component): Option<Component> {
    match n
    case ClusterAPI => Some(ClusterAPIPreview)
    case ClusterAPIProviderAWS => Some(ClusterAPIProviderAWSPreview)
    case ClusterAPIProviderMetal => Some(ClusterAPIProviderMetalPreview)
    case ClusterAPIProviderOA => Some(ClusterAPIProviderOAPreview)
    case HyperShift => Some(HyperShiftPreview)
    case ImageBasedInstallOperator => Some(ImageBasedInstallOperatorPreview)
    case ManagedServiceAccount => Some(ManagedServiceAccountPreview)
    case _ => None
  }

  predicate IsPreview(n: Component) {
    match n
    case ClusterAPIPreview | ClusterAPIProviderAWSPreview | ClusterAPIProviderMetalPreview
       | ClusterAPIProviderOAPreview | HyperShiftPreview | ImageBasedInstallOperatorPreview
       | ManagedServiceAccountPreview => true
    case _ => false
  }

  lemma OnListed(n: Component)
    ensures n in ON_COMPONENTS <==> IsOn(n)
  {}

  lemma OffListed(n: Component)
    ensures n in OFF_COMPONENTS <==> IsOff(n)
  {}

  lemma PreviewListed(n: Component)
    ensures n in PREVIEW_COMPONENTS <==> IsPreview(n)
  {}

  lemma PreviewsHaveStables(n: Component)
    ensures n in PREVIEW_TO_STABLE <==> IsPreview(n)
    ensures n in PREVIEW_TO_STABLE ==> PreviewOf(PREVIEW_TO_STABLE[n]) == Some(n)
    ensures PreviewOf(n).Some? ==>
              PreviewOf(n).value in PREVIEW_TO_STABLE && PREVIEW_TO_STABLE[PreviewOf(n).value] == n
  {}

  lemma StableNamesHold()
    ensures StableNames(PREVIEW_COMPONENTS, PREVIEW_TO_STABLE)
  {
    forall p <- PREVIEW_TO_STABLE ensures PREVIEW_TO_STABLE[p] !in PREVIEW_COMPONENTS {
      PreviewsHaveStables(p);
      PreviewListed(PREVIEW_TO_STABLE[p]);
    }
  }
}
