/** The fixed component lists of the operator fit together: what can be enabled is swept on uninstall,
    and what is swept or has a chart is looked at for NetworkPolicies. */
module Coverage {
  import opened Names
  import opened Components
  import opened Defaulting
  import opened DefaultingTheorems
  import opened Admission
  import NetworkPolicies

  /** The uninstall sweeps exactly the known components that are neither replaced previews nor
      hypershift-local-hosting, which has no InternalEngineComponent. */
  lemma SweptExactly(c: Component)
    ensures c in INTERNAL_COMPONENTS <==> Known(c) && !IsPreview(c) && c != HypershiftLocalHosting
  {
    SweptListed(c);
  }

  predicate Swept(c: Component) {
    match c
    case AssistedService | ClusterAPI | ClusterAPIProviderAWS | ClusterAPIProviderAzurePreview
       | ClusterAPIProviderMetal | ClusterAPIProviderOA | ClusterLifecycle | ClusterManager
       | ClusterPermission | ClusterProxyAddon | ConsoleMCE | Discovery | FleetNavigation | Hive
       | HyperShift | ImageBasedInstallOperator | LocalCluster | ManagedServiceAccount
       | ServerFoundation | MaestroPreview => true
    case _ => false
  }

  lemma SweptListed(c: Component)
    ensures c in INTERNAL_COMPONENTS <==> Swept(c)
  {
    if c in INTERNAL_COMPONENTS { ListedIsSwept(c); }
    if Swept(c) { SweptIsListed(c); }
  }

  lemma ListedIsSwept(c: Component)
    requires c in INTERNAL_COMPONENTS
    ensures Swept(c)
  {
  }

  lemma SweptIsListed(c: Component)
    requires Swept(c)
    ensures c in INTERNAL_COMPONENTS
  {
  }

  /** Whatever an admitted and defaulted list can name is swept. */
  lemma DefaultedIsSwept(cs: ComponentList, p: Platform, n: Component)
    requires KnownOnly(cs) && Present(Defaulted(cs, p), n) && n != HypershiftLocalHosting
    ensures n in INTERNAL_COMPONENTS
  {
    DefaultingKeepsKnown(cs, p);
    KnownIff(Defaulted(cs, p));
    DefaultedMeaning(cs, p, n);
    SweptExactly(n);
  }

  /** NetworkPolicies are looked for in exactly the swept components other than local-cluster, and in
      hypershift-local-hosting, which is then skipped. */
  lemma PoliciesLookedFor(c: Component)
    ensures c in NetworkPolicies.MCE_COMPONENTS <==>
            (c in INTERNAL_COMPONENTS && c != LocalCluster) || c == HypershiftLocalHosting
  {
    SweptExactly(c);
  }
}
