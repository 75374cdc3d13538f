/** The two views of deleteTemplate agree: a call on the API server, among other actors' steps, does to
    the template's object what the ownership model says. */
module TemplateDeletion {
  import opened Labels
  import Api = ApiServer
  import Teardown
  import Own = Ownership

  function IdOf(r: Api.Resource): Own.Id
    requires r.Template?
  {
    Own.Id(r.kind, r.namespace, r.name)
  }

  /** Both views show the same object, or none. */
  predicate Agree(c: Api.Cluster, s: Own.State, r: Api.Resource)
    requires r.Template?
  {
    && (r in c <==> IdOf(r) in s.objects)
    && (r in c ==>
          var o := s.objects[IdOf(r)];
          c[r].labels == o.labels && c[r].finalizers == o.finalizers && c[r].deleting == o.deleting)
  }

  /** What the faults of the two calls amount to in the ownership model. */
  function FaultOf(o: Api.Oracle, w: Api.World, r: Api.Resource): Own.Fault {
    if o.fault(w.clock, r) == Api.Broken then Own.ReadFails
    else if o.fault(w.clock + 1, r) == Api.Broken then Own.WriteFails
    else Own.NoFault
  }

  lemma DeletionsAgree(o: Api.Oracle, w: Api.World, s: Own.State, r: Api.Resource, m: Own.Mce)
    requires r.Template? && Agree(w.cluster, s, r) && o.env(w.clock) == [] && o.env(w.clock + 1) == []
    ensures
      var (w1, v) := Teardown.DropOne(o, w, r, m.name, Own.Adopts(m));
      Agree(w1.cluster, Own.AfterErase(s, m, IdOf(r), FaultOf(o, w, r)), r)
  {
    var w1 := Api.CallGet(o, w, r).0;
    assert w1.cluster == w.cluster;
    if r in w.cluster {
      assert MayManage(w.cluster[r].labels, m.name, Own.Adopts(m)) == Own.Manages(m, s.objects[IdOf(r)]);
    }
  }
}
