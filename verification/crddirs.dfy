/** Which CRD directories a reconcile renders (controllers/backplaneconfig_controller.go,
    pkg/utils/utils.go, pkg/rendering/renderer.go). */
module CrdDirs {
  import opened Names
  import opened Components

  /** Cluster API parts that ship one directory per platform. */
  datatype Family = Core | Metal | OpenShiftAssisted | Azure

  datatype Platform = OpenShift | Kubernetes

  datatype Dir =
    | Variant(family: Family, platform: Platform)
    | AwsDir | AssistedServiceDir | ClusterLifecycleDir | ClusterManagerDir | ClusterPermissionDir
    | ClusterProxyAddonDir | DiscoveryDir | HiveDir | ImageBasedInstallDir | ServiceAccountDir
    | FoundationDir | OtherDir(text: string)

  function DirsOf(c: Component): seq<Dir> {
    match c
    case ClusterAPI | ClusterAPIPreview => [Variant(Core, OpenShift), Variant(Core, Kubernetes)]
    case ClusterAPIProviderMetal | ClusterAPIProviderMetalPreview =>
      [Variant(Metal, OpenShift), Variant(Metal, Kubernetes)]
    case ClusterAPIProviderOA | ClusterAPIProviderOAPreview =>
      [Variant(OpenShiftAssisted, OpenShift), Variant(OpenShiftAssisted, Kubernetes)]
    case ClusterAPIProviderAzure | ClusterAPIProviderAzurePreview =>
      [Variant(Azure, OpenShift), Variant(Azure, Kubernetes)]
    case AssistedService => [AssistedServiceDir]
    case ClusterAPIProviderAWS | ClusterAPIProviderAWSPreview => [AwsDir]
    case ClusterLifecycle => [ClusterLifecycleDir]
    case ClusterManager => [ClusterManagerDir]
    case ClusterPermission => [ClusterPermissionDir]
    case ClusterProxyAddon => [ClusterProxyAddonDir]
    case Discovery => [DiscoveryDir]
    case Hive => [HiveDir]
    case ImageBasedInstallOperator | ImageBasedInstallOperatorPreview => [ImageBasedInstallDir]
    case ManagedServiceAccount | ManagedServiceAccountPreview => [ServiceAccountDir]
    case ServerFoundation => [FoundationDir]
    case _ => []
  }

  const CLUSTER_API_COMPONENTS: seq<Component> :=
    [ClusterAPI, ClusterAPIProviderAWS, ClusterAPIProviderAzurePreview, ClusterAPIProviderMetal, ClusterAPIProviderOA]

  /** Some listed component that passes the test owns the directory. */
  ghost predicate Owned(cs: seq<Component>, test: Component -> bool, d: Dir) {
    exists i :: 0 <= i < |cs| && test(cs[i]) && d in DirsOf(cs[i])
  }

  predicate NoRepeats(ds: seq<Dir>) {
    forall i, j | 0 <= i < j < |ds| :: ds[i] != ds[j]
  }

  /** Appends the directories not yet in the list. */
  method AddNew(dirs: seq<Dir>, more: seq<Dir>) returns (r: seq<Dir>)
    requires NoRepeats(dirs)
    ensures NoRepeats(r) && forall d :: d in r <==> d in dirs || d in more
  {
    r := dirs;
    for i := 0 to |more|
      invariant NoRepeats(r) && forall d :: d in r <==> d in dirs || d in more[..i]
    {
      assert more[..i + 1] == more[..i] + [more[i]];
      if more[i] !in r { r := r + [more[i]]; }
    }
    assert more[..|more|] == more;
  }

  /** Directories of the listed components that pass the test, each once. */
  method CollectDirs(cs: seq<Component>, test: Component -> bool) returns (r: seq<Dir>)
    ensures NoRepeats(r) && forall d :: d in r <==> Owned(cs, test, d)
  {
    r := [];
    for i := 0 to |cs|
      invariant NoRepeats(r) && forall d :: d in r <==> Owned(cs[..i], test, d)
    {
      if test(cs[i]) { r := AddNew(r, DirsOf(cs[i])); }
      forall d ensures d in r <==> Owned(cs[..i + 1], test, d) { OwnedStep(cs, test, d, i); }
    }
    assert cs[..|cs|] == cs;
  }

  lemma OwnedStep(cs: seq<Component>, test: Component -> bool, d: Dir, i: nat)
    requires i < |cs|
    ensures Owned(cs[..i + 1], test, d) <==> Owned(cs[..i], test, d) || (test(cs[i]) && d in DirsOf(cs[i]))
  {
    if k :| 0 <= k < i && test(cs[..i][k]) && d in DirsOf(cs[..i][k]) { assert cs[..i + 1][k] == cs[k]; }
    var upto := cs[..i + 1];
    if k :| 0 <= k < |upto| && test(upto[k]) && d in DirsOf(upto[k]) {
      if k < i { assert cs[..i][k] == cs[k]; }
    }
    if test(cs[i]) && d in DirsOf(cs[i]) { assert cs[..i + 1][i] == cs[i]; }
  }

  function PlatformDirs(here: Platform): seq<Dir> {
    var other := if here == OpenShift then Kubernetes else OpenShift;
    [Variant(Core, other), Variant(Metal, other), Variant(OpenShiftAssisted, other), Variant(Azure, other)]
  }

  /** The three skip lists merged; `annotated` is the externally-managed annotation. */
  method SkipDirs(annotated: seq<Component>, list: ComponentList, here: Platform) returns (skip: set<Dir>)
    ensures forall d :: d in skip <==> !Renders(annotated, list, here, d)
  {
    var external := CollectDirs(annotated, c => true);
    var disabled := CollectDirs(CLUSTER_API_COMPONENTS, c => !(Enabled(list, c) || c in annotated));
    var foreign := PlatformDirs(here);
    skip := (set d | d in external) + (set d | d in disabled) + (set d | d in foreign);
    forall d ensures d in skip <==> !Renders(annotated, list, here, d) {
      AnnotatedDir(annotated, d);
      DisabledDir(annotated, list, d);
      OtherPlatformDir(here, d);
    }
  }

  // ------------------------------------------------------------- what is rendered

  /** Component whose flag switches a Cluster API directory. */
  function Switch(d: Dir): Option<Component> {
    match d
    case Variant(Core, _) => Some(ClusterAPI)
    case Variant(Metal, _) => Some(ClusterAPIProviderMetal)
    case Variant(OpenShiftAssisted, _) => Some(ClusterAPIProviderOA)
    case Variant(Azure, _) => Some(ClusterAPIProviderAzurePreview)
    case AwsDir => Some(ClusterAPIProviderAWS)
    case _ => None
  }

  /** The stable and preview names that own a directory. */
  function NamesFor(d: Dir): set<Component> {
    match d
    case Variant(Core, _) => {ClusterAPI, ClusterAPIPreview}
    case Variant(Metal, _) => {ClusterAPIProviderMetal, ClusterAPIProviderMetalPreview}
    case Variant(OpenShiftAssisted, _) => {ClusterAPIProviderOA, ClusterAPIProviderOAPreview}
    case Variant(Azure, _) => {ClusterAPIProviderAzure, ClusterAPIProviderAzurePreview}
    case AwsDir => {ClusterAPIProviderAWS, ClusterAPIProviderAWSPreview}
    case AssistedServiceDir => {AssistedService}
    case ClusterLifecycleDir => {ClusterLifecycle}
    case ClusterManagerDir => {ClusterManager}
    case ClusterPermissionDir => {ClusterPermission}
    case ClusterProxyAddonDir => {ClusterProxyAddon}
    case DiscoveryDir => {Discovery}
    case HiveDir => {Hive}
    case ImageBasedInstallDir => {ImageBasedInstallOperator, ImageBasedInstallOperatorPreview}
    case ServiceAccountDir => {ManagedServiceAccount, ManagedServiceAccountPreview}
    case FoundationDir => {ServerFoundation}
    case OtherDir(_) => {}
  }

  /** The directory belongs to this platform, neither of its names is annotated as externally
      managed, and a Cluster API directory is switched on. */
  predicate Renders(annotated: seq<Component>, list: ComponentList, here: Platform, d: Dir) {
    && (d.Variant? ==> d.platform == here)
    && (forall c <- NamesFor(d) :: c !in annotated)
    && (Switch(d).Some? ==> Enabled(list, Switch(d).value))
  }

  lemma OwnerIsNamed(c: Component, d: Dir)
    ensures d in DirsOf(c) <==> c in NamesFor(d)
  {
    if d.Variant? {
      assert d.platform == OpenShift || d.platform == Kubernetes;
      assert c in NamesFor(d) <==> d in DirsOf(c);
    }
  }

  lemma AnnotatedDir(annotated: seq<Component>, d: Dir)
    ensures Owned(annotated, c => true, d) <==> exists c <- NamesFor(d) :: c in annotated
  {
    var test := (c: Component) => true;
    if i :| 0 <= i < |annotated| && test(annotated[i]) && d in DirsOf(annotated[i]) { OwnerIsNamed(annotated[i], d); }
    if c :| c in NamesFor(d) && c in annotated {
      var i :| 0 <= i < |annotated| && annotated[i] == c;
      OwnerIsNamed(c, d);
      assert test(annotated[i]);
    }
  }

  lemma DisabledDir(annotated: seq<Component>, list: ComponentList, d: Dir)
    ensures Owned(CLUSTER_API_COMPONENTS, c => !(Enabled(list, c) || c in annotated), d) <==>
            Switch(d).Some? && !Enabled(list, Switch(d).value) && Switch(d).value !in annotated
  {
    var test := (c: Component) => !(Enabled(list, c) || c in annotated);
    var cs := CLUSTER_API_COMPONENTS;
    forall i | 0 <= i < |cs| ensures d in DirsOf(cs[i]) <==> Switch(d) == Some(cs[i]) {
      OwnerIsNamed(cs[i], d);
    }
    if Switch(d).Some? {
      assert Switch(d).value in cs by { SwitchIsListed(d); }
      var i :| 0 <= i < |cs| && cs[i] == Switch(d).value;
    }
  }

  lemma SwitchIsListed(d: Dir)
    requires Switch(d).Some?
    ensures Switch(d).value in CLUSTER_API_COMPONENTS && Switch(d).value in NamesFor(d)
  {
    var cs := CLUSTER_API_COMPONENTS;
    assert cs[0] == ClusterAPI && cs[1] == ClusterAPIProviderAWS && cs[2] == ClusterAPIProviderAzurePreview
        && cs[3] == ClusterAPIProviderMetal && cs[4] == ClusterAPIProviderOA;
  }

  lemma OtherPlatformDir(here: Platform, d: Dir)
    ensures d in PlatformDirs(here) <==> d.Variant? && d.platform != here
  {
    if d.Variant? {
      assert d.family == Core || d.family == Metal || d.family == OpenShiftAssisted || d.family == Azure;
      assert d.platform == OpenShift || d.platform == Kubernetes;
    }
  }

  // --------------------------------------------------------------- the renderer's filter

  datatype File = File(dir: Dir, name: string)

  /** The files outside the skipped directories, in walk order. */
  function Kept(files: seq<File>, skip: set<Dir>): seq<File> {
    if files == [] then []
    else Kept(files[..|files| - 1], skip) + if files[|files| - 1].dir in skip then [] else [files[|files| - 1]]
  }

  method RenderCrds(files: seq<File>, skip: seq<Dir>) returns (r: seq<File>)
    ensures r == Kept(files, set d | d in skip)
  {
    r := [];
    for i := 0 to |files|
      invariant r == Kept(files[..i], set d | d in skip)
    {
      assert files[..i + 1][..i] == files[..i];
      var skipped := false;
      for k := 0 to |skip|
        invariant skipped <==> files[i].dir in skip[..k]
      {
        assert skip[..k + 1] == skip[..k] + [skip[k]];
        if files[i].dir == skip[k] { skipped := true; }
      }
      assert skip[..|skip|] == skip;
      if !skipped { r := r + [files[i]]; }
    }
    assert files[..|files|] == files;
  }

  /** With the computed skip set, a CRD file is applied as often as it is walked when its directory
      renders, and not at all otherwise. */
  lemma {:induction false} RenderedExactly(
    files: seq<File>, skip: set<Dir>, annotated: seq<Component>, list: ComponentList, here: Platform)
    requires forall d :: d in skip <==> !Renders(annotated, list, here, d)
    ensures forall f :: multiset(Kept(files, skip))[f] ==
              if Renders(annotated, list, here, f.dir) then multiset(files)[f] else 0
    decreases |files|
  {
    if files != [] {
      RenderedExactly(files[..|files| - 1], skip, annotated, list, here);
      assert files == files[..|files| - 1] + [files[|files| - 1]];
    }
  }
}
