/** Component names of the MultiClusterEngine API (api/v1/multiclusterengine_methods.go).
    The known names are constructors; every other string is `Unknown`. */
module Names {

  datatype Option<+T> = None | Some(value: T)

  datatype Component =
    | AssistedService
    | ClusterAPI
    | ClusterAPIPreview
    | ClusterAPIProviderAWS
    | ClusterAPIProviderAWSPreview
    | ClusterAPIProviderAzure
    | ClusterAPIProviderAzurePreview
    | ClusterAPIProviderMetal
    | ClusterAPIProviderMetalPreview
    | ClusterAPIProviderOA
    | ClusterAPIProviderOAPreview
    | ClusterLifecycle
    | ClusterManager
    | ClusterPermission
    | ClusterProxyAddon
    | ConsoleMCE
    | Discovery
    | FleetNavigation
    | Hive
    | HyperShift
    | HypershiftLocalHosting
    | HyperShiftPreview
    | ImageBasedInstallOperator
    | ImageBasedInstallOperatorPreview
    | LocalCluster
    | ManagedServiceAccount
    | ManagedServiceAccountPreview
    | ServerFoundation
    | MaestroPreview
    | Unknown(text: string)

  /** Components whose InternalEngineComponent is removed on uninstall. */
  const INTERNAL_COMPONENTS: seq<Component> := [
    AssistedService, ClusterAPI, ClusterAPIProviderAWS, ClusterAPIProviderAzurePreview,
    ClusterAPIProviderMetal, ClusterAPIProviderOA, ClusterLifecycle, ClusterManager,
    ClusterPermission, ClusterProxyAddon, ConsoleMCE, Discovery, FleetNavigation, Hive,
    HyperShift, ImageBasedInstallOperator, LocalCluster, ManagedServiceAccount,
    ServerFoundation, MaestroPreview]
}
