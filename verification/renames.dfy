/** The webhook's rule for renaming the local cluster, as the lifecycle of the local cluster uses it. */
module Renames {
  import opened Names
  import opened Components
  import opened Engine
  import opened Admission
  import opened AdmissionRules
  import Local = LocalCluster

  /** The listed ManagedClusters are those of the world. */
  predicate Lists(clusters: seq<ManagedCluster>, w: Local.World) {
    && (forall i | 0 <= i < |clusters| ::
          clusters[i].name in w.clusters && clusters[i].isLocal == w.clusters[clusters[i].name].local)
    && (forall n <- w.clusters :: exists i :: 0 <= i < |clusters| && clusters[i].name == n)
  }

  function WithLocalName(m: Mce, name: string): Mce {
    m.(spec := m.spec.(localClusterName := name))
  }

  lemma InUseIff(clusters: seq<ManagedCluster>, w: Local.World)
    requires Lists(clusters, w)
    ensures ClusterInUse(w.spec.name, clusters) <==> exists n :: n in w.clusters && (n == w.spec.name || w.clusters[n].local)
  {
    if n :| n in w.clusters && (n == w.spec.name || w.clusters[n].local) {
      var i :| 0 <= i < |clusters| && clusters[i].name == n;
    }
    if i :| 0 <= i < |clusters| && (clusters[i].name == w.spec.name || clusters[i].isLocal) {
      assert clusters[i].name in w.clusters;
    }
  }

  lemma SameRules(m: Mce, name: string, around: Surroundings, n: nat)
    requires n < 7
    ensures UpdateRule(m, WithLocalName(m, name), around, n) == UpdateRule(m, m, around, n)
  {
  }

  /** An update that only renames the local cluster is admitted if and only if the object as it is
      would be and the lifecycle's rename rule holds. */
  lemma RenameAdmittedIff(m: Mce, name: string, around: Surroundings, w: Local.World)
    requires Lists(around.managedClusters, w) && w.spec.name == m.spec.localClusterName && name != w.spec.name
    ensures ValidateUpdate(m, WithLocalName(m, name), around) == Admitted <==>
            ValidateUpdate(m, m, around) == Admitted && Local.MayRename(w, name)
  {
    var to := WithLocalName(m, name);
    UpdateAdmittedIff(m, to, around);
    UpdateAdmittedIff(m, m, around);
    InUseIff(around.managedClusters, w);
    assert UpdateRule(m, to, around, 7) <==> |name| >= 35;
    assert UpdateRule(m, to, around, 8) <==> ClusterInUse(w.spec.name, around.managedClusters);
    forall n: nat ensures n < 7 ==> UpdateRule(m, to, around, n) == UpdateRule(m, m, around, n) {
      if n < 7 { SameRules(m, name, around, n); }
    }
    assert forall n: nat | n >= 7 :: !UpdateRule(m, m, around, n);
    assert forall n: nat | n >= 9 :: !UpdateRule(m, to, around, n);
  }
}
