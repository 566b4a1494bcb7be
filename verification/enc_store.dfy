/** The tables and the ENC directory as shared mutable state, and the services that enqueue work on it. */
module EncStore {
  import opened Order
  import opened Options
  import opened EncModel
  import opened EncOutbox

  class Store {
    var nodes: map<string, Node>
    var groups: Groups
    var jobs: Jobs
    var recs: map<string, Rec>
    var disk: map<string, Document>

    constructor ()
      ensures World() == EncModel.World.World(map[], map[], map[], map[], map[])
    {
      nodes, groups, jobs, recs, disk := map[], map[], map[], map[], map[];
    }

    ghost function World(): World
      reads this
    {
      EncModel.World.World(nodes, groups, jobs, recs, disk)
    }
  }

  class MaterializationService {
    const store: Store

    constructor (store: Store)
      ensures this.store == store
    {
      this.store := store;
    }

    method Upsert(k: JobKey, t: nat)
      modifies store
      ensures store.World() == old(store.World()).(jobs := EncOutbox.Upsert(old(store.jobs), k, t))
    {
      if k in store.jobs {
        store.jobs := store.jobs[k := store.jobs[k].(status := Pending, nextAttemptAt := t)];
      } else {
        store.jobs :=
            store.jobs[k := Job(CertnameOf(k), if k.DeleteKey? then Delete else Materialize, Pending, 0, None, t, t)];
      }
    }

    method EnqueueNode(certname: string, t: nat)
      modifies store
      ensures store.World() == old(store.World()).(jobs := EncOutbox.Upsert(old(store.jobs), NodeKey(certname), t))
    {
      Upsert(NodeKey(certname), t);
    }

    method EnqueueNodeDeletion(certname: string, t: nat)
      modifies store
      ensures store.World() == old(store.World()).(jobs := EncOutbox.Upsert(old(store.jobs), DeleteKey(certname), t))
    {
      Upsert(DeleteKey(certname), t);
    }

    method EnqueueNodes(certnames: seq<string>, t: nat)
      modifies store
      ensures store.World() == old(store.World()).(jobs := UpsertAll(old(store.jobs), NodeKeys(Elems(certnames)), t))
    {
      ghost var jobs := store.jobs;
      for i := 0 to |certnames|
        invariant store.World() == old(store.World()).(jobs := UpsertAll(jobs, NodeKeys(Elems(certnames[..i])), t))
      {
        ElemsSnoc(certnames, i);
        UpsertOneMore(jobs, NodeKeys(Elems(certnames[..i])), NodeKey(certnames[i]), t);
        assert NodeKeys(Elems(certnames[..i + 1])) == NodeKeys(Elems(certnames[..i])) + {NodeKey(certnames[i])};
        EnqueueNode(certnames[i], t);
      }
      assert certnames[..|certnames|] == certnames;
    }

    method EnqueueNodeDeletions(certnames: seq<string>, t: nat)
      modifies store
      ensures store.World() == old(store.World()).(jobs := UpsertAll(old(store.jobs), DeleteKeys(Elems(certnames)), t))
    {
      ghost var jobs := store.jobs;
      for i := 0 to |certnames|
        invariant store.World() == old(store.World()).(jobs := UpsertAll(jobs, DeleteKeys(Elems(certnames[..i])), t))
      {
        ElemsSnoc(certnames, i);
        UpsertOneMore(jobs, DeleteKeys(Elems(certnames[..i])), DeleteKey(certnames[i]), t);
        assert DeleteKeys(Elems(certnames[..i + 1])) == DeleteKeys(Elems(certnames[..i])) + {DeleteKey(certnames[i])};
        EnqueueNodeDeletion(certnames[i], t);
      }
      assert certnames[..|certnames|] == certnames;
    }

    method EnqueueFullReconcile(t: nat)
      modifies store
      ensures store.World() == old(store.World()).(jobs := UpsertAll(old(store.jobs), {FullKey}, t))
    {
      UpsertOneMore(store.jobs, {}, FullKey, t);
      assert UpsertAll(store.jobs, {}, t) == store.jobs;
      Upsert(FullKey, t);
    }
  }
}
