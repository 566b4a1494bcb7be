/**
 * The projection, drain and reconcile services as methods on the tables and files
 * (node-projection.service.ts, materializer.service.ts, reconciler.service.ts).
 */
module EncMaterializer {
  import opened Order
  import opened Json
  import opened Options
  import opened EncModel
  import opened EncOutbox
  import opened EncProjection
  import opened EncDrain
  import opened EncDrainInv
  import opened EncReconcile
  import opened EncStore

  class NodeProjector {
    const store: Store
    const materialization: MaterializationService

    ghost predicate Valid() {
      materialization.store == store
    }

    constructor (store: Store)
      ensures Valid() && this.store == store
    {
      this.store := store;
      this.materialization := new MaterializationService(store);
    }

    /** Refresh one node's projection, queueing it if what rules read has changed. */
    method UpsertNode(n: string, environment: Option<string>, facts: Facts, t: nat) returns (changed: bool)
      requires Valid()
      modifies store
      ensures store.World() == EncProjection.UpsertNode(old(store.World()), n, environment, facts, t)
      ensures changed <==> n !in old(store.nodes) || old(store.nodes)[n].environment != environment
                           || Den(old(store.nodes)[n].facts) != Den(facts)
    {
      changed := n !in store.nodes || store.nodes[n].environment != environment
                 || !StableEquals(store.nodes[n].facts, facts);
      if n in store.nodes { StableEqualsExact(store.nodes[n].facts, facts); }
      store.nodes := store.nodes[n := Node(environment, facts, false)];
      if changed {
        materialization.EnqueueNode(n, t);
      }
      assert UpsertAll(old(store.jobs), {NodeKey(n)}, t) == EncOutbox.Upsert(old(store.jobs), NodeKey(n), t);
      assert UpsertAll(old(store.jobs), {}, t) == old(store.jobs);
    }

    method MarkDeactivated(n: string) returns (touched: bool)
      modifies store
      ensures store.World() == EncProjection.MarkDeactivated(old(store.World()), n)
      ensures touched <==> n in old(store.nodes)
    {
      touched := n in store.nodes;
      if touched {
        store.nodes := store.nodes[n := store.nodes[n].(deactivated := true)];
      }
    }

    /** Refresh every listed node, then prune if the answer is plausible. */
    method ProjectLocked(rs: seq<Reported>, t: nat) returns (pruned: nat, ghost trail: seq<World>)
      requires Valid()
      modifies store
      ensures Refreshes(trail, rs, t) && trail[0] == old(store.World())
      ensures store.World() == GuardedPrune(trail[|rs|], EncProjection.Names(rs), |rs|, t + |rs| + 1)
    {
      trail := RefreshAll(rs, t);
      pruned := PruneIfPlausible(EncProjection.Names(rs), |rs|, t + |rs| + 1);
    }

    method RefreshAll(rs: seq<Reported>, t: nat) returns (ghost trail: seq<World>)
      requires Valid()
      modifies store
      ensures Refreshes(trail, rs, t) && trail[0] == old(store.World()) && store.World() == trail[|rs|]
    {
      trail := [store.World()];
      for i := 0 to |rs|
        invariant Refreshes(trail, rs[..i], t)
        invariant trail[0] == old(store.World()) && trail[i] == store.World()
      {
        RefreshNode(rs[i], t + i + 1);
        RefreshesSnoc(trail, rs, t, i, store.World());
        trail := trail + [store.World()];
      }
      assert rs[..|rs|] == rs;
    }

    method RefreshNode(r: Reported, t: nat)
      requires Valid()
      modifies store
      ensures store.World() == RefreshOne(old(store.World()), r, t)
    {
      if !r.active {
        var touched := MarkDeactivated(r.certname);
      } else {
        var changed := UpsertNode(r.certname, r.environment, r.facts, t);
      }
    }

    method PruneIfPlausible(known: set<string>, reported: nat, t: nat) returns (pruned: nat)
      requires Valid()
      modifies store
      ensures store.World() == GuardedPrune(old(store.World()), known, reported, t)
    {
      pruned := 0;
      if ShouldPrune(|store.nodes|, reported) {
        pruned := Prune(known, t);
      }
    }

    /** Purge every node PuppetDB no longer lists, and queue removal of its file. */
    method Prune(known: set<string>, t: nat) returns (pruned: nat)
      requires Valid()
      modifies store
      ensures store.World() == EncProjection.Prune(old(store.World()), known, t)
      ensures pruned == |Doomed(old(store.World()), known)|
    {
      var doomed := store.nodes.Keys - known;
      var certnames := SortedStrings(doomed);
      pruned := |certnames|;
      assert Elems(certnames) == doomed;
      if certnames == [] {
        PruneNothing(store.World(), known, t);
        return;
      }
      store.nodes := store.nodes - doomed;
      store.recs := store.recs - doomed;
      materialization.EnqueueNodeDeletions(certnames, t);
    }
  }

  lemma RefreshesSnoc(trail: seq<World>, rs: seq<Reported>, t: nat, i: nat, w: World)
    requires i < |rs| && Refreshes(trail, rs[..i], t) && w == RefreshOne(trail[i], rs[i], t + i + 1)
    ensures Refreshes(trail + [w], rs[..i + 1], t)
  {
    assert forall j | 0 <= j < i :: rs[..i][j] == rs[j];
  }

  lemma PruneNothing(w: World, known: set<string>, t: nat)
    requires Doomed(w, known) == {}
    ensures EncProjection.Prune(w, known, t) == w
  {
    assert UpsertAll(w.jobs, DeleteKeys({}), t) == w.jobs;
    assert w.nodes - {} == w.nodes && w.recs - {} == w.recs;
  }

  // ---- effects one at a time ----

  lemma {:induction false} EffectsSnoc(cfg: Config, w: World, es: seq<Effect>, e: Effect)
    ensures ApplyEffects(cfg, w, es + [e]) == ApplyEffect(cfg, ApplyEffects(cfg, w, es), e)
    decreases |es|
  {
    if es == [] {
      assert es + [e] == [e] && [e][1..] == [];
      assert ApplyEffects(cfg, ApplyEffect(cfg, w, e), []) == ApplyEffect(cfg, w, e);
    } else {
      assert (es + [e])[0] == es[0] && (es + [e])[1..] == es[1..] + [e];
      EffectsSnoc(cfg, ApplyEffect(cfg, w, es[0]), es[1..], e);
    }
  }

  lemma PutsSnoc(names: seq<string>, i: nat)
    requires i < |names|
    ensures Puts(names[..i + 1]) == Puts(names[..i]) + [Put(names[i])]
  {
  }

  lemma {:induction false} ClaimedSnoc(cfg: Config, w: World, keys: seq<JobKey>, k: JobKey, rows: Jobs, faults: Faults,
      t: nat)
    requires forall i | 0 <= i < |keys + [k]| :: (keys + [k])[i] in rows
    requires forall i | 0 <= i < |keys| :: keys[i] in rows
    ensures k in rows
    ensures RunClaimed(cfg, w, keys + [k], rows, faults, t)
            == RunJob(cfg, RunClaimed(cfg, w, keys, rows, faults, t), k, rows[k], faults, t)
    decreases |keys|
  {
    assert (keys + [k])[|keys|] == k;
    if keys == [] {
      assert keys + [k] == [k] && [k][1..] == [];
    } else {
      assert (keys + [k])[0] == keys[0] && (keys + [k])[1..] == keys[1..] + [k];
      ClaimedSnoc(cfg, RunJob(cfg, w, keys[0], rows[keys[0]], faults, t), keys[1..], k, rows, faults, t);
    }
  }

  /** Storing a given document and its applied groups for a node. */
  ghost function Stored(w: World, c: string, doc: Document, applied: seq<string>): World {
    var revision := if c !in w.recs then 1
                    else if c in w.disk && w.disk[c] == doc then w.recs[c].revision else w.recs[c].revision + 1;
    w.(disk := w.disk[c := doc],
       recs := if c in w.nodes then w.recs[c := Rec(doc, revision, applied)] else w.recs)
  }

  lemma PutSpeltOut(cfg: Config, w: World, c: string)
    ensures ApplyEffect(cfg, w, Put(c)) == Stored(w, c, DocOf(cfg, w, c), AppliedOf(cfg, w, c))
  {
  }

  /** The claimed jobs up to and including the `i`th. */
  lemma RunOneMore(cfg: Config, w: World, keys: seq<JobKey>, i: nat, rows: Jobs, faults: Faults, t: nat)
    requires i < |keys| && forall j | 0 <= j < |keys| :: keys[j] in rows
    ensures RunClaimed(cfg, w, keys[..i + 1], rows, faults, t)
         == RunJob(cfg, RunClaimed(cfg, w, keys[..i], rows, faults, t), keys[i], rows[keys[i]], faults, t)
    ensures Failures(cfg, w.nodes.Keys, keys[..i + 1], rows, faults)
         == Failures(cfg, w.nodes.Keys, keys[..i], rows, faults)
            + if JobFails(cfg, w.nodes.Keys, keys[i], rows[keys[i]], faults) then 1 else 0
  {
    assert keys[..i + 1] == keys[..i] + [keys[i]];
    assert keys[..i + 1][..i] == keys[..i];
    ClaimedSnoc(cfg, w, keys[..i], keys[i], rows, faults, t);
  }

  lemma RunJobOnlyTouches(cfg: Config, w: World, k: JobKey, row: Job, faults: Faults, t: nat)
    ensures RunJob(cfg, w, k, row, faults, t).nodes == w.nodes
    ensures forall j | j != k :: j in RunJob(cfg, w, k, row, faults, t).jobs <==> j in w.jobs
  {
  }

  /** How many of the claimed jobs fail. */
  function Failures(cfg: Config, nodes: set<string>, keys: seq<JobKey>, rows: Jobs, faults: Faults): nat
    requires forall i | 0 <= i < |keys| :: keys[i] in rows
  {
    if keys == [] then 0
    else
      var last := keys[|keys| - 1];
      Failures(cfg, nodes, keys[..|keys| - 1], rows, faults)
      + if JobFails(cfg, nodes, last, rows[last], faults) then 1 else 0
  }

  datatype DrainResult = DrainResult(claimed: nat, succeeded: nat, failed: nat, ranHere: bool)

  /** One chance to run a batch before the drain's deadline: when, whether the lock was free, and what throws. */
  datatype Tick = Tick(at: nat, locked: bool, faults: Faults)

  /**
   * `after` is what committing the batch `keys` makes of `before`, `failed` how many of its jobs fail; the
   * claim may take that batch.
   */
  ghost predicate CommitsBatch(cfg: Config, before: World, keys: seq<JobKey>, tick: Tick, failed: nat, after: World) {
    && keys != [] && IsBatch(cfg, before.jobs, keys, tick.at) && after == Batch(cfg, before, keys, tick.faults, tick.at)
    && failed == Failures(cfg, before.nodes.Keys, keys, before.jobs, tick.faults)
  }

  /** The batches `done` commit one after the other; `trail` lists the states between them. */
  ghost predicate Commits(cfg: Config, ticks: seq<Tick>, done: seq<seq<JobKey>>, failures: seq<nat>,
      trail: seq<World>) {
    && |trail| == |done| + 1 && |failures| == |done| <= |ticks|
    && forall i | 0 <= i < |done| :: CommitsBatch(cfg, trail[i], done[i], ticks[i], failures[i], trail[i + 1])
  }

  function TotalLength(done: seq<seq<JobKey>>): nat {
    if done == [] then 0 else |done[0]| + TotalLength(done[1..])
  }

  function Sum(ns: seq<nat>): nat {
    if ns == [] then 0 else Sum(ns[..|ns| - 1]) + ns[|ns| - 1]
  }

  lemma SumSnoc(ns: seq<nat>, n: nat)
    ensures Sum(ns + [n]) == Sum(ns) + n
  {
    assert (ns + [n])[..|ns|] == ns;
  }

  lemma CommitsSnoc(
      cfg: Config, ticks: seq<Tick>, done: seq<seq<JobKey>>, failures: seq<nat>, trail: seq<World>,
      keys: seq<JobKey>, failed: nat, after: World)
    requires Commits(cfg, ticks, done, failures, trail) && |done| < |ticks|
    requires CommitsBatch(cfg, trail[|done|], keys, ticks[|done|], failed, after)
    ensures Commits(cfg, ticks, done + [keys], failures + [failed], trail + [after])
  {
  }

  lemma {:induction false} LengthSnoc(done: seq<seq<JobKey>>, keys: seq<JobKey>)
    ensures TotalLength(done + [keys]) == TotalLength(done) + |keys|
    decreases |done|
  {
    if done == [] {
      assert (done + [keys])[1..] == [];
    } else {
      assert (done + [keys])[0] == done[0] && (done + [keys])[1..] == done[1..] + [keys];
      LengthSnoc(done[1..], keys);
    }
  }

  lemma {:induction false} BatchShape(cfg: Config, w: World, keys: seq<JobKey>, faults: Faults, t: nat, later: nat)
    requires Shape(w.jobs, t) && t <= later
    requires forall i | 0 <= i < |keys| :: keys[i] in w.jobs
    requires forall i, j | 0 <= i < j < |keys| :: keys[i] != keys[j]
    ensures Shape(Batch(cfg, w, keys, faults, t).jobs, later)
    decreases |keys|
  {
    BatchStepByStep(cfg, w, keys, faults, t);
    if keys == [] {
      forall k | k in w.jobs ensures RowShape(k, w.jobs[k], later) { assert RowShape(k, w.jobs[k], t); }
    } else {
      StepShape(cfg, w, keys[0], faults, t);
      BatchShape(cfg, StepJob(cfg, w, keys[0], faults, t), keys[1..], faults, t, later);
    }
  }

  class Materializer {
    const store: Store
    const cfg: Config

    constructor (store: Store, cfg: Config)
      ensures this.store == store && this.cfg == cfg
    {
      this.store := store;
      this.cfg := cfg;
    }

    /** The document and the applied groups the tables describe for a node. */
    method Evaluate(c: string) returns (doc: Document, applied: seq<string>)
      ensures doc == DocOf(cfg, store.World(), c) && applied == AppliedOf(cfg, store.World(), c)
    {
      var facts := if c in store.nodes then Den(store.nodes[c].facts) else MObj(map[]);
      applied := Applied(cfg, store.groups, c, facts);
      doc := Merge(store.groups, applied);
    }

    /** Replace a node's file, unless it already holds this document. */
    method WriteFile(k: JobKey, c: string, doc: Document, faults: Faults) returns (ok: bool, changed: bool)
      modifies store`disk
      ensures ok <==> !Throws(k, c, faults)
      ensures store.disk == if ok then old(store.disk)[c := doc] else old(store.disk)
      ensures changed <==> ok && !(c in old(store.disk) && old(store.disk)[c] == doc)
    {
      ok := !Throws(k, c, faults);
      changed := ok && !(c in store.disk && store.disk[c] == doc);
      if changed {
        store.disk := store.disk[c := doc];
      }
      assert c in old(store.disk) && old(store.disk)[c] == doc ==> old(store.disk)[c := doc] == old(store.disk);
    }

    /** Write one node's document and record what was applied. */
    method MaterializeNode(k: JobKey, c: string, faults: Faults) returns (ok: bool, changed: bool)
      modifies store
      ensures ok <==> !Throws(k, c, faults)
      ensures store.World() == if ok then ApplyEffect(cfg, old(store.World()), Put(c)) else old(store.World())
      ensures changed <==> ok && !(c in old(store.disk) && old(store.disk)[c] == DocOf(cfg, old(store.World()), c))
    {
      var doc, applied := Evaluate(c);
      PutSpeltOut(cfg, store.World(), c);
      ok, changed := StoreDocument(k, c, doc, applied, faults);
    }

    method StoreDocument(k: JobKey, c: string, doc: Document, applied: seq<string>, faults: Faults)
        returns (ok: bool, changed: bool)
      modifies store
      ensures ok <==> !Throws(k, c, faults)
      ensures store.World() == if ok then Stored(old(store.World()), c, doc, applied) else old(store.World())
      ensures changed <==> ok && !(c in old(store.disk) && old(store.disk)[c] == doc)
    {
      ok, changed := WriteFile(k, c, doc, faults);
      if ok && c in store.nodes {
        RecordWrite(c, doc, applied, changed);
      }
    }

    method RecordWrite(c: string, doc: Document, applied: seq<string>, changed: bool)
      modifies store`recs
      ensures store.recs == old(store.recs)[c := Rec(doc,
                if c !in old(store.recs) then 1
                else if changed then old(store.recs)[c].revision + 1 else old(store.recs)[c].revision, applied)]
    {
      var revision := if c !in store.recs then 1
                      else if changed then store.recs[c].revision + 1 else store.recs[c].revision;
      store.recs := store.recs[c := Rec(doc, revision, applied)];
    }

    method DeleteNode(k: JobKey, c: string, faults: Faults) returns (ok: bool)
      modifies store
      ensures ok <==> !Throws(k, c, faults)
      ensures store.World() == if ok then ApplyEffect(cfg, old(store.World()), Del(c)) else old(store.World())
    {
      if Throws(k, c, faults) {
        return false;
      }
      store.disk := store.disk - {c};
      store.recs := store.recs - {c};
      ok := true;
    }

    /** Write nodes in order, stopping at the first write that throws. */
    method WriteAll(k: JobKey, names: seq<string>, faults: Faults) returns (ok: bool)
      modifies store
      ensures ok <==> Written(k, names, faults) == |names|
      ensures store.World() == ApplyEffects(cfg, old(store.World()), Puts(names[..Written(k, names, faults)]))
    {
      ghost var before := store.World();
      assert Puts(names[..0]) == [];
      var i := 0;
      while i < |names|
        invariant 0 <= i <= |names|
        invariant forall j | 0 <= j < i :: !Throws(k, names[j], faults)
        invariant store.World() == ApplyEffects(cfg, before, Puts(names[..i]))
      {
        PutsSnoc(names, i);
        EffectsSnoc(cfg, before, Puts(names[..i]), Put(names[i]));
        var written, changed := MaterializeNode(k, names[i], faults);
        if !written {
          WrittenIs(k, names, faults, i);
          return false;
        }
        i := i + 1;
      }
      WrittenIs(k, names, faults, |names|);
      ok := true;
    }

    /** Advance a full reconcile by one chunk, and re-queue it from there when more may remain. */
    method MaterializeChunk(k: JobKey, row: Job, faults: Faults, t: nat) returns (ok: bool)
      requires row.certname == None && k !in store.jobs
      modifies store
      ensures ok <==> !JobFails(cfg, old(store.nodes).Keys, k, row, faults)
      ensures var names := Chunk(old(store.nodes).Keys, row.cursor, cfg.chunkSize);
              store.World() == ApplyEffects(cfg, old(store.World()), Puts(names[..Written(k, names, faults)])).(jobs :=
                if ok && |names| == cfg.chunkSize && names != []
                then old(store.jobs)[k := ContinueRow(names[|names| - 1], t)] else old(store.jobs))
    {
      var names := Chunk(store.nodes.Keys, row.cursor, cfg.chunkSize);
      ok := WriteAll(k, names, faults);
      if ok && |names| == cfg.chunkSize && names != [] {
        Continue(k, names[|names| - 1], t);
      }
    }

    /** Re-queue the walk behind its last write, unless a newer request has the key. */
    method Continue(k: JobKey, last: string, t: nat)
      modifies store`jobs
      ensures store.jobs == if k in old(store.jobs) then old(store.jobs) else old(store.jobs)[k := ContinueRow(last, t)]
    {
      if k !in store.jobs {
        store.jobs := store.jobs[k := Job(None, Materialize, Pending, 0, Some(last), t, t)];
      }
    }

    /** Re-queue a failed job with backoff, or park it; a newer row under its key wins. */
    method RecordFailure(k: JobKey, row: Job, t: nat)
      modifies store
      ensures store.World() == old(store.World()).(jobs :=
                if k in old(store.jobs) then old(store.jobs) else old(store.jobs)[k := FailureRow(cfg, row, t)])
    {
      var attempts := row.attempts + 1;
      var exhausted := attempts >= cfg.maxAttempts;
      if k !in store.jobs {
        store.jobs := store.jobs[k := Job(row.certname, Materialize, if exhausted then Failed else Pending, attempts,
                                          None, t, t + Backoff(attempts))];
      }
    }

    /** The write or deletion of one node's file. */
    method RunNode(k: JobKey, c: string, kind: Kind, faults: Faults) returns (ok: bool)
      modifies store
      ensures ok <==> !Throws(k, c, faults)
      ensures store.World() == ApplyEffects(cfg, old(store.World()),
                                            if !ok then [] else if kind == Delete then [Del(c)] else [Put(c)])
    {
      SingleEffect(cfg, store.World(), if kind == Delete then Del(c) else Put(c));
      if kind == Delete {
        ok := DeleteNode(k, c, faults);
      } else {
        var changed;
        ok, changed := MaterializeNode(k, c, faults);
      }
    }

    method RunOneNode(k: JobKey, row: Job, faults: Faults, t: nat) returns (ok: bool)
      requires row.certname.Some? && k !in store.jobs
      modifies store
      ensures ok <==> !JobFails(cfg, old(store.nodes).Keys, k, row, faults)
      ensures store.World() == RunJob(cfg, old(store.World()), k, row, faults, t)
    {
      NodeJobEffects(cfg, store.nodes.Keys, k, row, faults);
      ok := RunNode(k, row.certname.value, row.kind, faults);
      if !ok {
        RecordFailure(k, row, t);
      }
    }

    method RunOneChunk(k: JobKey, row: Job, faults: Faults, t: nat) returns (ok: bool)
      requires row.certname == None && k !in store.jobs
      modifies store
      ensures ok <==> !JobFails(cfg, old(store.nodes).Keys, k, row, faults)
      ensures store.World() == RunJob(cfg, old(store.World()), k, row, faults, t)
    {
      ChunkJobResult(cfg, store.World(), k, row, faults, t);
      ok := MaterializeChunk(k, row, faults, t);
      if !ok {
        RecordFailure(k, row, t);
      }
    }

    /** One claimed job, and the row it leaves if it fails. */
    method RunOne(k: JobKey, row: Job, faults: Faults, t: nat) returns (ok: bool)
      requires row.cursor.Some? ==> row.certname == None
      requires k !in store.jobs
      modifies store
      ensures ok <==> !JobFails(cfg, old(store.nodes).Keys, k, row, faults)
      ensures store.World() == RunJob(cfg, old(store.World()), k, row, faults, t)
    {
      if row.certname.Some? {
        ok := RunOneNode(k, row, faults, t);
      } else {
        ok := RunOneChunk(k, row, faults, t);
      }
    }

    /** The due rows, oldest first, as many as a batch takes. */
    method FindDue(t: nat) returns (keys: seq<JobKey>)
      ensures IsBatch(cfg, store.jobs, keys, t)
      ensures keys == [] && cfg.batchSize > 0 ==> forall k | k in store.jobs :: !Due(store.jobs[k], t)
    {
      keys := [];
      var due := set k | k in store.jobs && Due(store.jobs[k], t);
      while due != {} && |keys| < cfg.batchSize
        invariant |keys| <= cfg.batchSize && PartBatch(store.jobs, due, keys, t)
        decreases |due|
      {
        var oldest := Oldest(store.jobs, due);
        ClaimNext(store.jobs, due, keys, oldest, t);
        keys := keys + [oldest];
        due := due - {oldest};
      }
    }

    static method Oldest(jobs: Jobs, due: set<JobKey>) returns (oldest: JobKey)
      requires due != {} && due <= jobs.Keys
      ensures oldest in due && forall k | k in due :: jobs[oldest].createdAt <= jobs[k].createdAt
    {
      oldest :| oldest in due;
      var rest := due - {oldest};
      while rest != {}
        invariant oldest in due && rest <= due
        invariant forall k | k in due && k !in rest :: jobs[oldest].createdAt <= jobs[k].createdAt
        decreases |rest|
      {
        var k :| k in rest;
        if jobs[k].createdAt < jobs[oldest].createdAt { oldest := k; }
        rest := rest - {k};
      }
    }

    /** Run the claimed jobs in order, counting the ones that fail. */
    method RunAll(claimed: seq<JobKey>, rows: Jobs, faults: Faults, t: nat) returns (failed: nat)
      requires Shape(rows, t)
      requires forall i | 0 <= i < |claimed| :: claimed[i] in rows && claimed[i] !in store.jobs
      requires forall i, j | 0 <= i < j < |claimed| :: claimed[i] != claimed[j]
      modifies store
      ensures store.World() == RunClaimed(cfg, old(store.World()), claimed, rows, faults, t)
      ensures failed == Failures(cfg, old(store.nodes).Keys, claimed, rows, faults)
      ensures failed <= |claimed|
    {
      ghost var start := store.World();
      failed := 0;
      assert claimed[..0] == [];
      for i := 0 to |claimed|
        invariant store.World() == RunClaimed(cfg, start, claimed[..i], rows, faults, t)
        invariant store.nodes.Keys == start.nodes.Keys
        invariant forall j | i <= j < |claimed| :: claimed[j] !in store.jobs
        invariant failed == Failures(cfg, start.nodes.Keys, claimed[..i], rows, faults) <= i
      {
        var k := claimed[i];
        RunOneMore(cfg, start, claimed, i, rows, faults, t);
        RunJobOnlyTouches(cfg, store.World(), k, rows[k], faults, t);
        assert RowShape(k, rows[k], t);
        var ok := RunOne(k, rows[k], faults, t);
        if !ok { failed := failed + 1; }
      }
      assert claimed[..|claimed|] == claimed;
    }

    /** One batch: claim by deleting, then run every claimed job. */
    method DrainLocked(faults: Faults, t: nat) returns (result: DrainResult, ghost keys: seq<JobKey>)
      requires ValidConfig(cfg) && Shape(store.jobs, t)
      modifies store
      ensures IsBatch(cfg, old(store.jobs), keys, t)
      ensures store.World() == Batch(cfg, old(store.World()), keys, faults, t)
      ensures result.claimed == |keys| && result.succeeded + result.failed == |keys| && result.ranHere
      ensures result.failed == Failures(cfg, old(store.nodes).Keys, keys, old(store.jobs), faults)
      ensures result.claimed == 0 ==> forall k | k in old(store.jobs) :: !Due(old(store.jobs)[k], t)
    {
      var claimed := FindDue(t);
      keys := claimed;
      var rows := store.jobs;
      store.jobs := store.jobs - KeySet(claimed);
      assert forall i | 0 <= i < |claimed| :: claimed[i] in KeySet(claimed);
      var failed := RunAll(claimed, rows, faults, t);
      result := DrainResult(|claimed|, |claimed| - failed, failed, true);
    }

    /** One drain pass: batch after batch until the lock is lost, nothing is due, or the budget of ticks is spent. */
    method Drain(ticks: seq<Tick>)
        returns (totals: DrainResult, ghost done: seq<seq<JobKey>>, ghost failures: seq<nat>, ghost trail: seq<World>)
      requires ValidConfig(cfg)
      requires ticks != [] ==> Shape(store.jobs, ticks[0].at)
      requires forall i, j | 0 <= i < j < |ticks| :: ticks[i].at <= ticks[j].at
      modifies store
      ensures Commits(cfg, ticks, done, failures, trail) && trail[0] == old(store.World())
              && trail[|done|] == store.World()
      ensures totals.claimed == TotalLength(done) && totals.succeeded + totals.failed == totals.claimed
      ensures totals.failed == Sum(failures)
      ensures |done| < |ticks| && ticks[|done|].locked
              ==> forall k | k in store.jobs :: !Due(store.jobs[k], ticks[|done|].at)
    {
      totals := DrainResult(0, 0, 0, false);
      done, failures, trail := [], [], [store.World()];
      var i := 0;
      while i < |ticks|
        invariant 0 <= i <= |ticks| && |done| == i
        invariant Commits(cfg, ticks, done, failures, trail) && trail[0] == old(store.World())
                  && trail[i] == store.World()
        invariant totals.claimed == TotalLength(done) && totals.succeeded + totals.failed == totals.claimed
        invariant totals.failed == Sum(failures)
        invariant i < |ticks| ==> Shape(store.jobs, ticks[i].at)
      {
        if !ticks[i].locked {
          return;
        }
        ghost var before := store.World();
        var batch, keys := DrainLocked(ticks[i].faults, ticks[i].at);
        if batch.claimed == 0 {
          BatchStepByStep(cfg, before, keys, ticks[i].faults, ticks[i].at);
          totals := totals.(ranHere := true);
          return;
        }
        CommitsSnoc(cfg, ticks, done, failures, trail, keys, batch.failed, store.World());
        LengthSnoc(done, keys);
        SumSnoc(failures, batch.failed);
        if i + 1 < |ticks| { BatchShape(cfg, before, keys, ticks[i].faults, ticks[i].at, ticks[i + 1].at); }
        done, failures, trail := done + [keys], failures + [batch.failed], trail + [store.World()];
        totals := DrainResult(totals.claimed + batch.claimed, totals.succeeded + batch.succeeded,
                              totals.failed + batch.failed, true);
        i := i + 1;
      }
    }
  }

  ghost function SweptSoFar(w: World, known: set<string>, stuck: set<string>, onDisk: seq<string>, i: nat): set<string>
    requires i <= |onDisk|
  {
    set c | c in Orphans(w, known, stuck) && c in onDisk[..i]
  }

  ghost function Without(w: World, names: set<string>): World {
    w.(disk := w.disk - names, recs := w.recs - names)
  }

  lemma WithoutOneMore(w: World, names: set<string>, c: string)
    ensures Without(Without(w, names), {c}) == Without(w, names + {c})
  {
    assert w.disk - names - {c} == w.disk - (names + {c});
    assert w.recs - names - {c} == w.recs - (names + {c});
  }

  lemma SweptSnoc(w: World, known: set<string>, stuck: set<string>, onDisk: seq<string>, i: nat)
    requires i < |onDisk| && onDisk[i] in w.disk
    requires forall a, b | 0 <= a < b < |onDisk| :: onDisk[a] != onDisk[b]
    ensures onDisk[i] !in SweptSoFar(w, known, stuck, onDisk, i)
    ensures SweptSoFar(w, known, stuck, onDisk, i + 1)
         == SweptSoFar(w, known, stuck, onDisk, i) + if onDisk[i] in Orphans(w, known, stuck) then {onDisk[i]} else {}
  {
    assert onDisk[..i + 1] == onDisk[..i] + [onDisk[i]];
  }

  lemma SweptAll(w: World, known: set<string>, stuck: set<string>, onDisk: seq<string>)
    requires forall c :: c in onDisk <==> c in w.disk
    ensures SweptSoFar(w, known, stuck, onDisk, |onDisk|) == Orphans(w, known, stuck)
  {
    assert onDisk[..|onDisk|] == onDisk;
  }

  class Reconciler {
    const store: Store
    const materialization: MaterializationService

    ghost predicate Valid() {
      materialization.store == store
    }

    constructor (store: Store)
      ensures Valid() && this.store == store
    {
      this.store := store;
      this.materialization := new MaterializationService(store);
    }

    /** The certnames of the files on disk, in no particular order. */
    method ListMaterialized() returns (names: seq<string>)
      ensures forall c :: c in names <==> c in store.disk
      ensures forall i, j | 0 <= i < j < |names| :: names[i] != names[j]
    {
      names := SortedStrings(store.disk.Keys);
      forall i, j | 0 <= i < j < |names| ensures names[i] != names[j] { LessIrreflexive(names[i]); }
    }

    method RemoveFile(c: string)
      modifies store
      ensures store.World() == Without(old(store.World()), {c})
    {
      store.disk := store.disk - {c};
      store.recs := store.recs - {c};
    }

    /** Remove files of nodes not in `known`; a file that cannot be removed is skipped. */
    method RemoveOrphans(known: set<string>, stuck: set<string>) returns (removed: nat)
      modifies store
      ensures store.World() == SweepOrphans(old(store.World()), known, stuck)
      ensures removed == |Orphans(old(store.World()), known, stuck)|
    {
      var onDisk := ListMaterialized();
      ghost var before := store.World();
      ghost var gone: set<string> := {};
      removed := 0;
      for i := 0 to |onDisk|
        invariant gone == SweptSoFar(before, known, stuck, onDisk, i)
        invariant store.World() == Without(before, gone)
        invariant removed == |gone|
      {
        var c := onDisk[i];
        assert c in onDisk;
        SweptSnoc(before, known, stuck, onDisk, i);
        if c !in known && SafeCertname(c) && c !in stuck {
          WithoutOneMore(before, gone, c);
          RemoveFile(c);
          removed := removed + 1;
          gone := gone + {c};
        }
      }
      SweptAll(before, known, stuck, onDisk);
    }

    /** Request a full walk and sweep orphans, under the reconciler's lock. */
    method Reconcile(t: nat, locked: bool, stuck: set<string>) returns (removed: nat)
      requires Valid()
      modifies store
      ensures !locked ==> store.World() == old(store.World()) && removed == 0
      ensures locked ==>
                var w := RequestReconcile(old(store.World()), t);
                store.World() == SweepOrphans(w, w.nodes.Keys, stuck) && removed == |Orphans(w, w.nodes.Keys, stuck)|
    {
      if !locked {
        return 0;
      }
      assert UpsertAll(store.jobs, {FullKey}, t) == EnqueueFullReconcile(store.jobs, t);
      materialization.EnqueueFullReconcile(t);
      removed := RemoveOrphans(store.nodes.Keys, stuck);
    }
  }
}
