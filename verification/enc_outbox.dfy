/**
 * The materialization outbox (apps/api/src/materialization/materialization.service.ts) and the
 * invariant that ties it to the files: a managed node whose file is not current is queued.
 */
module EncOutbox {
  import opened Order
  import opened Options
  import opened EncModel

  function CertnameOf(k: JobKey): Option<string> {
    if k.FullKey? then None else Some(k.certname)
  }

  /** The row an enqueue inserts when its key is not queued yet. */
  function FreshJob(k: JobKey, t: nat): Job {
    Job(CertnameOf(k), if k.DeleteKey? then Delete else Materialize, Pending, 0, None, t, t)
  }

  /** What an enqueue does to a row already there: kind, cursor, attempts and creation time stay. */
  function Requeued(row: Job, t: nat): Job {
    row.(status := Pending, nextAttemptAt := t)
  }

  function Upsert(jobs: Jobs, k: JobKey, t: nat): Jobs {
    jobs[k := if k in jobs then Requeued(jobs[k], t) else FreshJob(k, t)]
  }

  function UpsertAll(jobs: Jobs, keys: set<JobKey>, t: nat): Jobs {
    map k | k in jobs.Keys + keys ::
      if k !in keys then jobs[k] else if k in jobs then Requeued(jobs[k], t) else FreshJob(k, t)
  }

  function NodeKeys(names: set<string>): set<JobKey> {
    set c | c in names :: NodeKey(c)
  }

  function DeleteKeys(names: set<string>): set<JobKey> {
    set c | c in names :: DeleteKey(c)
  }

  lemma UpsertOneMore(jobs: Jobs, keys: set<JobKey>, k: JobKey, t: nat)
    ensures Upsert(UpsertAll(jobs, keys, t), k, t) == UpsertAll(jobs, keys + {k}, t)
  {
  }

  // ---- coverage and the invariant ----

  /** The queued full reconcile, if any, has yet to reach `n`. */
  predicate FullCovers(jobs: Jobs, n: string) {
    FullKey in jobs && (jobs[FullKey].cursor == None || Less(jobs[FullKey].cursor.value, n))
  }

  predicate Covers(jobs: Jobs, n: string) {
    NodeKey(n) in jobs || FullCovers(jobs, n)
  }

  /** The file of `n` is the document the database describes, and its record says which groups made it. */
  predicate Fresh(cfg: Config, w: World, n: string) {
    && n in w.disk && w.disk[n] == DocOf(cfg, w, n)
    && n in w.recs && w.recs[n].applied == AppliedOf(cfg, w, n)
  }

  /** Stale implies queued. */
  ghost predicate Current(cfg: Config, w: World) {
    forall n | n in w.nodes :: Fresh(cfg, w, n) || Covers(w.jobs, n)
  }

  ghost predicate RowShape(k: JobKey, row: Job, t: nat) {
    && row.certname == CertnameOf(k)
    && row.createdAt <= t
    && (row.kind == Delete ==> k.DeleteKey? && row.status == Pending && row.nextAttemptAt <= t)
    && (row.cursor.Some? ==> k.FullKey? && row.status == Pending)
  }

  ghost predicate Shape(jobs: Jobs, t: nat) {
    forall k | k in jobs :: RowShape(k, jobs[k], t)
  }

  /** A row that will delete the file of `n`. */
  predicate Deletes(jobs: Jobs, n: string) {
    DeleteKey(n) in jobs && jobs[DeleteKey(n)].kind == Delete
  }

  /** A queued delete never outlives the rewrite it must come before. */
  ghost predicate DeletesFirst(w: World) {
    forall n | Deletes(w.jobs, n) ::
      && (n in w.nodes ==> NodeKey(n) in w.jobs)
      && (NodeKey(n) in w.jobs ==> w.jobs[DeleteKey(n)].createdAt < w.jobs[NodeKey(n)].createdAt)
  }

  /** The invariant at time `t`. */
  ghost predicate Inv(cfg: Config, w: World, t: nat) {
    Shape(w.jobs, t) && Current(cfg, w) && DeletesFirst(w) && w.recs.Keys <= w.nodes.Keys
  }

  // ---- a full reconcile request ----

  /** No queued full reconcile is part-way through its walk. */
  predicate NoCursor(jobs: Jobs) {
    FullKey in jobs ==> jobs[FullKey].cursor == None
  }

  function EnqueueFullReconcile(jobs: Jobs, t: nat): Jobs {
    Upsert(jobs, FullKey, t)
  }

  // ---- edits that touch only groups and the outbox ----

  lemma UpsertShape(jobs: Jobs, keys: set<JobKey>, t0: nat, t: nat)
    requires Shape(jobs, t0) && t0 < t
    ensures Shape(UpsertAll(jobs, keys, t), t)
  {
    var out := UpsertAll(jobs, keys, t);
    forall k | k in out ensures RowShape(k, out[k], t) {
      if k in jobs { assert RowShape(k, jobs[k], t0); }
    }
  }

  lemma UpsertKeepsDeletesFirst(w: World, keys: set<JobKey>, t0: nat, t: nat)
    requires Shape(w.jobs, t0) && t0 < t && DeletesFirst(w)
    requires forall k | k in keys :: !k.DeleteKey?
    ensures DeletesFirst(w.(jobs := UpsertAll(w.jobs, keys, t)))
  {
    var out := UpsertAll(w.jobs, keys, t);
    forall n | Deletes(out, n)
      ensures n in w.nodes ==> NodeKey(n) in out
      ensures NodeKey(n) in out ==> out[DeleteKey(n)].createdAt < out[NodeKey(n)].createdAt
    {
      assert DeleteKey(n) !in keys;
      assert Deletes(w.jobs, n);
      assert RowShape(DeleteKey(n), w.jobs[DeleteKey(n)], t0);
    }
  }

  lemma SameForStaysFresh(cfg: Config, w: World, groups': Groups, jobs: Jobs, n: string)
    requires Fresh(cfg, w, n) && SameFor(cfg, w.groups, groups', n, FactsOf(w, n))
    ensures Fresh(cfg, w.(groups := groups', jobs := jobs), n)
  {
    assert FactsOf(w.(groups := groups', jobs := jobs), n) == FactsOf(w, n);
    DocCongruent(cfg, w.groups, groups', n, FactsOf(w, n));
  }

  /** What the edit does with one node is enough. */
  ghost predicate Handled(cfg: Config, w: World, groups': Groups, keys: set<JobKey>, n: string) {
    NodeKey(n) in keys || (FullKey in keys && NoCursor(w.jobs)) || SameFor(cfg, w.groups, groups', n, FactsOf(w, n))
  }

  lemma HandledStaysCovered(cfg: Config, w: World, groups': Groups, keys: set<JobKey>, t: nat, n: string)
    requires Covers(w.jobs, n) || (Fresh(cfg, w, n) && Handled(cfg, w, groups', keys, n))
    ensures var w' := w.(groups := groups', jobs := UpsertAll(w.jobs, keys, t)); Fresh(cfg, w', n) || Covers(w'.jobs, n)
  {
    if !Covers(UpsertAll(w.jobs, keys, t), n) {
      SameForStaysFresh(cfg, w, groups', UpsertAll(w.jobs, keys, t), n);
    }
  }

  /**
   * An edit of the groups is safe when every current node is queued by it, or is described by the
   * new groups exactly as before.
   */
  lemma EditKeepsInv(cfg: Config, w: World, groups': Groups, keys: set<JobKey>, t0: nat, t: nat)
    requires Inv(cfg, w, t0) && t0 < t
    requires forall k | k in keys :: !k.DeleteKey?
    requires forall n | n in w.nodes && Fresh(cfg, w, n) :: Handled(cfg, w, groups', keys, n)
    ensures Inv(cfg, w.(groups := groups', jobs := UpsertAll(w.jobs, keys, t)), t)
  {
    var w' := w.(groups := groups', jobs := UpsertAll(w.jobs, keys, t));
    UpsertShape(w.jobs, keys, t0, t);
    UpsertKeepsDeletesFirst(w, keys, t0, t);
    forall n | n in w'.nodes ensures Fresh(cfg, w', n) || Covers(w'.jobs, n) {
      HandledStaysCovered(cfg, w, groups', keys, t, n);
    }
    assert DeletesFirst(w');
  }

  // ---- edits that request a full reconcile, exactly ----

  /** The same document and the same applied groups under either set of groups. */
  predicate Unchanged(cfg: Config, w: World, groups': Groups, n: string) {
    && DocFor(cfg, groups', n, FactsOf(w, n)) == DocFor(cfg, w.groups, n, FactsOf(w, n))
    && Applied(cfg, groups', n, FactsOf(w, n)) == Applied(cfg, w.groups, n, FactsOf(w, n))
  }

  /**
   * No managed node that the part-way walk, if one is queued, has already passed, and that has no row of
   * its own, is described differently by the new groups.
   */
  ghost predicate WalkMisses(cfg: Config, w: World, groups': Groups) {
    !NoCursor(w.jobs) &&
    exists n | n in w.nodes && NodeKey(n) !in w.jobs && !FullCovers(w.jobs, n) :: !Unchanged(cfg, w, groups', n)
  }

  lemma FreshUnder(cfg: Config, w: World, groups': Groups, jobs: Jobs, n: string)
    requires Fresh(cfg, w, n)
    ensures Fresh(cfg, w.(groups := groups', jobs := jobs), n) <==> Unchanged(cfg, w, groups', n)
  {
    assert FactsOf(w.(groups := groups', jobs := jobs), n) == FactsOf(w, n);
  }

  /** One node under an edit that requests a full reconcile. */
  lemma FullEditCoversExactly(cfg: Config, w: World, groups': Groups, t0: nat, t: nat, n: string)
    requires Inv(cfg, w, t0) && t0 < t && n in w.nodes
    ensures var w' := w.(groups := groups', jobs := UpsertAll(w.jobs, {FullKey}, t));
            (Fresh(cfg, w', n) || Covers(w'.jobs, n))
            <==> NoCursor(w.jobs) || Covers(w.jobs, n) || Unchanged(cfg, w, groups', n)
  {
    var jobs := UpsertAll(w.jobs, {FullKey}, t);
    assert Covers(jobs, n) <==> NoCursor(w.jobs) || Covers(w.jobs, n);
    if !Covers(jobs, n) {
      assert Fresh(cfg, w, n);
      FreshUnder(cfg, w, groups', jobs, n);
    }
  }

  /**
   * An edit that requests a full reconcile keeps "stale implies queued" exactly when the walk already
   * queued, if it is part-way, misses no node that the edit changes.
   */
  lemma FullEditKeepsInvExactly(cfg: Config, w: World, groups': Groups, t0: nat, t: nat)
    requires Inv(cfg, w, t0) && t0 < t
    ensures Inv(cfg, w.(groups := groups', jobs := UpsertAll(w.jobs, {FullKey}, t)), t)
            <==> !WalkMisses(cfg, w, groups')
  {
    UpsertShape(w.jobs, {FullKey}, t0, t);
    UpsertKeepsDeletesFirst(w, {FullKey}, t0, t);
    assert DeletesFirst(w.(groups := groups', jobs := UpsertAll(w.jobs, {FullKey}, t)));
    FullEditCurrentExactly(cfg, w, groups', t0, t);
  }

  lemma FullEditCurrentExactly(cfg: Config, w: World, groups': Groups, t0: nat, t: nat)
    requires Inv(cfg, w, t0) && t0 < t
    ensures Current(cfg, w.(groups := groups', jobs := UpsertAll(w.jobs, {FullKey}, t)))
            <==> !WalkMisses(cfg, w, groups')
  {
    var w' := w.(groups := groups', jobs := UpsertAll(w.jobs, {FullKey}, t));
    forall n | n in w.nodes
      ensures (Fresh(cfg, w', n) || Covers(w'.jobs, n))
              <==> NoCursor(w.jobs) || Covers(w.jobs, n) || Unchanged(cfg, w, groups', n)
    {
      FullEditCoversExactly(cfg, w, groups', t0, t, n);
    }
  }
}
