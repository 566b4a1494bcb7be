/**
 * The periodic reconcile (apps/api/src/materialization/reconciler.service.ts): request a full
 * walk, sweep files of nodes the database no longer knows, and let the drain finish the walk.
 */
module EncReconcile {
  import opened Order
  import opened Options
  import opened EncModel
  import opened EncOutbox
  import opened EncDrain
  import opened EncDrainInv

  function RequestReconcile(w: World, t: nat): World {
    w.(jobs := EnqueueFullReconcile(w.jobs, t))
  }

  /** Files the sweep removes: not in the list of known nodes, a valid file name, and no I/O error. */
  function Orphans(w: World, known: set<string>, stuck: set<string>): set<string> {
    set c | c in w.disk && c !in known && SafeCertname(c) && c !in stuck
  }

  /** `known` is the node list read before the directory was listed. */
  function SweepOrphans(w: World, known: set<string>, stuck: set<string>): World {
    w.(disk := w.disk - Orphans(w, known, stuck), recs := w.recs - Orphans(w, known, stuck))
  }

  lemma RequestKeepsInv(cfg: Config, w: World, t0: nat, t: nat)
    requires Inv(cfg, w, t0) && t0 < t
    ensures Inv(cfg, RequestReconcile(w, t), t)
  {
    assert UpsertAll(w.jobs, {FullKey}, t) == EnqueueFullReconcile(w.jobs, t);
    assert forall n | n in w.nodes :: SameFor(cfg, w.groups, w.groups, n, FactsOf(w, n));
    EditKeepsInv(cfg, w, w.groups, {FullKey}, t0, t);
  }

  /** A node the sweep does not touch is as current as before; one it touches is not current. */
  lemma SweepOneNode(cfg: Config, w: World, known: set<string>, stuck: set<string>, n: string)
    requires n in w.nodes
    ensures var w' := SweepOrphans(w, known, stuck);
            if n in Orphans(w, known, stuck) then !Fresh(cfg, w', n) else Fresh(cfg, w', n) == Fresh(cfg, w, n)
  {
    assert FactsOf(SweepOrphans(w, known, stuck), n) == FactsOf(w, n);
  }

  lemma SweptOrCovered(cfg: Config, w: World, known: set<string>, stuck: set<string>, n: string)
    requires n in w.nodes && (Fresh(cfg, w, n) || Covers(w.jobs, n))
    ensures var w' := SweepOrphans(w, known, stuck);
            (Fresh(cfg, w', n) || Covers(w'.jobs, n)) <==> (n in Orphans(w, known, stuck) ==> Covers(w.jobs, n))
  {
    SweepOneNode(cfg, w, known, stuck, n);
  }

  /** The sweep keeps the invariant exactly when every managed node it sweeps away is still queued. */
  lemma SweepKeepsInvExactly(cfg: Config, w: World, known: set<string>, stuck: set<string>, t: nat)
    requires Inv(cfg, w, t)
    ensures Inv(cfg, SweepOrphans(w, known, stuck), t) <==>
            forall n | n in w.nodes && n in Orphans(w, known, stuck) :: Covers(w.jobs, n)
  {
    var w' := SweepOrphans(w, known, stuck);
    forall n | n in w.nodes
      ensures (Fresh(cfg, w', n) || Covers(w'.jobs, n)) <==> (n in Orphans(w, known, stuck) ==> Covers(w.jobs, n))
    {
      SweptOrCovered(cfg, w, known, stuck, n);
    }
    assert DeletesFirst(w');
  }

  // ---- the drain gets smaller ----

  /** Queued rows plus the nodes the full reconcile has yet to reach. */
  function Measure(w: World): nat {
    |w.jobs| + if FullKey in w.jobs then |Above(w.nodes.Keys, w.jobs[FullKey].cursor)| else 0
  }

  lemma SubsetSize<T>(a: set<T>, b: set<T>)
    requires a <= b
    ensures |a| <= |b|
  {
    assert b == a + (b - a);
  }

  lemma ChunkShrinks(nodes: set<string>, cursor: Option<string>, size: nat)
    requires |Chunk(nodes, cursor, size)| == size && size > 0
    ensures |Above(nodes, Some(Chunk(nodes, cursor, size)[size - 1]))| < |Above(nodes, cursor)|
  {
    var names := Chunk(nodes, cursor, size);
    var all := SortedStrings(Above(nodes, cursor));
    var last := names[size - 1];
    assert last == all[size - 1] && last in all;
    LessIrreflexive(last);
    forall n | n in Above(nodes, Some(last)) ensures n in Above(nodes, cursor) - {last} {
      if cursor.Some? { LessTrans(cursor.value, last, n); }
    }
    SubsetSize(Above(nodes, Some(last)), Above(nodes, cursor) - {last});
  }

  /** A job that does not fail makes the measure smaller. */
  lemma OneRowLess(jobs: Jobs, k: JobKey)
    requires k in jobs
    ensures |jobs - {k}| == |jobs| - 1
  {
    assert (jobs - {k}).Keys == jobs.Keys - {k};
    assert |(jobs - {k}).Keys| == |jobs - {k}| && |jobs.Keys| == |jobs|;
  }

  lemma SameRowCount(jobs: Jobs, k: JobKey, row: Job)
    requires k in jobs
    ensures |jobs[k := row]| == |jobs|
  {
    assert jobs[k := row].Keys == jobs.Keys;
    assert |jobs[k := row].Keys| == |jobs[k := row]| && |jobs.Keys| == |jobs|;
  }

  lemma NodeStepShrinks(cfg: Config, w: World, k: JobKey, faults: Faults, t: nat)
    requires Shape(w.jobs, t) && k in w.jobs && k != FullKey
    requires !JobFails(cfg, w.nodes.Keys, k, w.jobs[k], faults)
    ensures Measure(StepJob(cfg, w, k, faults, t)) < Measure(w)
  {
    assert RowShape(k, w.jobs[k], t);
    NodeJobEffects(cfg, w.nodes.Keys, k, w.jobs[k], faults);
    NodeJobStep(cfg, w, k, faults, t);
    OneRowLess(w.jobs, k);
  }

  lemma FullStepQueue(cfg: Config, w: World, faults: Faults, t: nat)
    requires Shape(w.jobs, t) && FullKey in w.jobs
    requires !JobFails(cfg, w.nodes.Keys, FullKey, w.jobs[FullKey], faults)
    ensures var names := Chunk(w.nodes.Keys, w.jobs[FullKey].cursor, cfg.chunkSize);
            var w' := StepJob(cfg, w, FullKey, faults, t);
            && w'.nodes == w.nodes
            && w'.jobs == if |names| == cfg.chunkSize && names != []
                          then w.jobs[FullKey := ContinueRow(names[|names| - 1], t)] else w.jobs - {FullKey}
  {
    FullStepDone(cfg, w, faults, t);
    var names := Chunk(w.nodes.Keys, w.jobs[FullKey].cursor, cfg.chunkSize);
    if names != [] { PutBack(w.jobs, FullKey, ContinueRow(names[|names| - 1], t)); }
  }

  lemma TakenOut(jobs: Jobs, k: JobKey, row: Job)
    ensures (jobs - {k})[k := row] - {k} == jobs - {k}
  {
  }

  lemma PutBack(jobs: Jobs, k: JobKey, row: Job)
    ensures (jobs - {k})[k := row] == jobs[k := row]
  {
  }

  /** The row that continues after a full chunk has fewer nodes ahead of it. */
  lemma ContinuationShrinks(nodes: set<string>, jobs: Jobs, size: nat, t: nat)
    requires FullKey in jobs && size > 0 && |Chunk(nodes, jobs[FullKey].cursor, size)| == size
    ensures var row := ContinueRow(Chunk(nodes, jobs[FullKey].cursor, size)[size - 1], t);
            |jobs[FullKey := row]| + |Above(nodes, row.cursor)| < |jobs| + |Above(nodes, jobs[FullKey].cursor)|
  {
    ChunkShrinks(nodes, jobs[FullKey].cursor, size);
    SameRowCount(jobs, FullKey, ContinueRow(Chunk(nodes, jobs[FullKey].cursor, size)[size - 1], t));
  }

  lemma FullStepShrinks(cfg: Config, w: World, faults: Faults, t: nat)
    requires ValidConfig(cfg) && Shape(w.jobs, t) && FullKey in w.jobs
    requires !JobFails(cfg, w.nodes.Keys, FullKey, w.jobs[FullKey], faults)
    ensures Measure(StepJob(cfg, w, FullKey, faults, t)) < Measure(w)
  {
    FullStepQueue(cfg, w, faults, t);
    ShorterQueue(w, StepJob(cfg, w, FullKey, faults, t), Chunk(w.nodes.Keys, w.jobs[FullKey].cursor, cfg.chunkSize),
                 cfg.chunkSize, t);
  }

  lemma ShorterQueue(w: World, w': World, names: seq<string>, size: nat, t: nat)
    requires FullKey in w.jobs && size > 0 && names == Chunk(w.nodes.Keys, w.jobs[FullKey].cursor, size)
    requires w'.nodes == w.nodes
    requires w'.jobs == if |names| == size then w.jobs[FullKey := ContinueRow(names[|names| - 1], t)]
                        else w.jobs - {FullKey}
    ensures Measure(w') < Measure(w)
  {
    if |names| == size {
      ContinuationShrinks(w.nodes.Keys, w.jobs, size, t);
    } else {
      OneRowLess(w.jobs, FullKey);
    }
  }

  lemma StepShrinks(cfg: Config, w: World, k: JobKey, faults: Faults, t: nat)
    requires ValidConfig(cfg) && Shape(w.jobs, t) && k in w.jobs
    requires !JobFails(cfg, w.nodes.Keys, k, w.jobs[k], faults)
    ensures Measure(StepJob(cfg, w, k, faults, t)) < Measure(w)
  {
    if k == FullKey {
      FullStepShrinks(cfg, w, faults, t);
    } else {
      NodeStepShrinks(cfg, w, k, faults, t);
    }
  }

  // ---- claims and batches ----

  /** `keys` are the oldest due rows, oldest first, and `due` are the due rows besides. */
  ghost predicate PartBatch(jobs: Jobs, due: set<JobKey>, keys: seq<JobKey>, t: nat) {
    && (forall k :: k in due ==> k in jobs && Due(jobs[k], t) && k !in keys)
    && (forall k | k in jobs && Due(jobs[k], t) :: k in due || k in keys)
    && (forall i | 0 <= i < |keys| :: keys[i] in jobs && Due(jobs[keys[i]], t))
    && (forall i, j | 0 <= i < j < |keys| :: keys[i] != keys[j])
    && (forall i, j | 0 <= i < j < |keys| :: jobs[keys[i]].createdAt <= jobs[keys[j]].createdAt)
    && (forall i, k | 0 <= i < |keys| && k in due :: jobs[keys[i]].createdAt <= jobs[k].createdAt)
  }

  /** The oldest of the rows besides is the next. */
  lemma ClaimNext(jobs: Jobs, due: set<JobKey>, keys: seq<JobKey>, oldest: JobKey, t: nat)
    requires PartBatch(jobs, due, keys, t) && oldest in due
    requires forall k | k in due :: jobs[oldest].createdAt <= jobs[k].createdAt
    ensures PartBatch(jobs, due - {oldest}, keys + [oldest], t)
  {
  }

  /** There always is a batch to claim. */
  lemma BatchExists(cfg: Config, jobs: Jobs, t: nat) returns (keys: seq<JobKey>)
    ensures IsBatch(cfg, jobs, keys, t)
  {
    keys := [];
    var due := set k | k in jobs && Due(jobs[k], t);
    while due != {} && |keys| < cfg.batchSize
      invariant |keys| <= cfg.batchSize && PartBatch(jobs, due, keys, t)
      decreases |due|
    {
      var oldest := OldestRow(jobs, due);
      ClaimNext(jobs, due, keys, oldest, t);
      keys := keys + [oldest];
      due := due - {oldest};
    }
  }

  lemma {:induction false} OldestRow(jobs: Jobs, due: set<JobKey>) returns (oldest: JobKey)
    requires due != {} && due <= jobs.Keys
    ensures oldest in due && forall k | k in due :: jobs[oldest].createdAt <= jobs[k].createdAt
    decreases |due|
  {
    oldest :| oldest in due;
    if due != {oldest} {
      var best := OldestRow(jobs, due - {oldest});
      if jobs[best].createdAt < jobs[oldest].createdAt { oldest := best; }
    }
  }

  /** A batch leaves the rows it does not claim as they are, and new rows only under keys it claims. */
  lemma {:induction false} BatchRows(cfg: Config, w: World, keys: seq<JobKey>, faults: Faults, t: nat)
    requires Shape(w.jobs, t)
    requires forall i | 0 <= i < |keys| :: keys[i] in w.jobs
    requires forall i, j | 0 <= i < j < |keys| :: keys[i] != keys[j]
    ensures var w' := Batch(cfg, w, keys, faults, t);
            && w'.nodes == w.nodes && Shape(w'.jobs, t)
            && (forall k | k in w'.jobs ::
                  k in w.jobs && (k in keys ==> w'.jobs[k].createdAt == t && w'.jobs[k].kind == Materialize))
            && (forall k | k in w.jobs && k !in keys :: k in w'.jobs && w'.jobs[k] == w.jobs[k])
    decreases |keys|
  {
    BatchStepByStep(cfg, w, keys, faults, t);
    if keys != [] {
      var k0, rest := keys[0], keys[1..];
      var w1 := StepJob(cfg, w, k0, faults, t);
      StepShape(cfg, w, k0, faults, t);
      assert w1.nodes == w.nodes;
      assert k0 !in rest && forall k | k in rest :: k in keys;
      BatchRows(cfg, w1, rest, faults, t);
    }
  }

  /** No row names a file that cannot be written. */
  ghost predicate SafeRows(jobs: Jobs) {
    forall k | k in jobs && k != FullKey :: SafeCertname(k.certname)
  }

  lemma SafeJobSucceeds(cfg: Config, w: World, k: JobKey, t: nat)
    requires Shape(w.jobs, t) && k in w.jobs && SafeRows(w.jobs) && AllSafe(w.nodes.Keys)
    ensures !JobFails(cfg, w.nodes.Keys, k, w.jobs[k], {})
  {
    if k == FullKey {
      ChunkSucceeds(cfg, w, t);
    } else {
      assert RowShape(k, w.jobs[k], t);
      NodeJobEffects(cfg, w.nodes.Keys, k, w.jobs[k], {});
    }
  }

  /** A batch without faults makes the measure smaller by at least its length. */
  lemma {:induction false} BatchShrinks(cfg: Config, w: World, keys: seq<JobKey>, t: nat)
    requires ValidConfig(cfg) && Shape(w.jobs, t) && SafeRows(w.jobs) && AllSafe(w.nodes.Keys)
    requires forall i | 0 <= i < |keys| :: keys[i] in w.jobs
    requires forall i, j | 0 <= i < j < |keys| :: keys[i] != keys[j]
    ensures Measure(Batch(cfg, w, keys, {}, t)) + |keys| <= Measure(w)
    decreases |keys|
  {
    BatchStepByStep(cfg, w, keys, {}, t);
    if keys != [] {
      SafeJobSucceeds(cfg, w, keys[0], t);
      StepShrinks(cfg, w, keys[0], {}, t);
      StepShape(cfg, w, keys[0], {}, t);
      BatchShrinks(cfg, StepJob(cfg, w, keys[0], {}, t), keys[1..], t);
    }
  }

  // ---- self-healing ----

  ghost predicate AllSafe(names: set<string>) {
    forall n | n in names :: SafeCertname(n)
  }

  /** Nothing but failed rows is queued, besides possibly the full reconcile. */
  ghost predicate OnlyFullPending(jobs: Jobs) {
    forall k | k in jobs && k != FullKey :: jobs[k].status == Failed
  }

  lemma ShapeLater(jobs: Jobs, t0: nat, t: nat)
    requires Shape(jobs, t0) && t0 <= t
    ensures Shape(jobs, t)
  {
    assert forall k | k in jobs :: RowShape(k, jobs[k], t0);
  }

  lemma AllWritten(k: JobKey, names: seq<string>)
    requires forall i | 0 <= i < |names| :: SafeCertname(names[i])
    ensures Written(k, names, {}) == |names|
  {
  }

  /** A chunk that does not fail, spelt out. */
  lemma FullStepDone(cfg: Config, w: World, faults: Faults, t: nat)
    requires Shape(w.jobs, t) && FullKey in w.jobs
    requires !JobFails(cfg, w.nodes.Keys, FullKey, w.jobs[FullKey], faults)
    ensures var mid := w.(jobs := w.jobs - {FullKey});
            var names := Chunk(w.nodes.Keys, w.jobs[FullKey].cursor, cfg.chunkSize);
            StepJob(cfg, w, FullKey, faults, t) == ApplyEffects(cfg, mid, Puts(names)).(jobs :=
              if |names| == cfg.chunkSize && names != []
              then mid.jobs[FullKey := ContinueRow(names[|names| - 1], t)] else mid.jobs)
  {
    assert RowShape(FullKey, w.jobs[FullKey], t);
    var names := Chunk(w.nodes.Keys, w.jobs[FullKey].cursor, cfg.chunkSize);
    assert names[..|names|] == names;
    ChunkJobResult(cfg, w.(jobs := w.jobs - {FullKey}), FullKey, w.jobs[FullKey], faults, t);
  }

  lemma ChunkSucceeds(cfg: Config, w: World, t: nat)
    requires Shape(w.jobs, t) && FullKey in w.jobs && AllSafe(w.nodes.Keys)
    ensures !JobFails(cfg, w.nodes.Keys, FullKey, w.jobs[FullKey], {})
  {
    assert RowShape(FullKey, w.jobs[FullKey], t);
    var names := Chunk(w.nodes.Keys, w.jobs[FullKey].cursor, cfg.chunkSize);
    assert forall i | 0 <= i < |names| :: names[i] in names;
    AllWritten(FullKey, names);
  }

  /** The whole walk at once: every node ahead of the cursor is written, in certname order, and no row is left. */
  function Walk(cfg: Config, w: World): World {
    if FullKey !in w.jobs then w
    else
      var ahead := Above(w.nodes.Keys, w.jobs[FullKey].cursor);
      ApplyEffects(cfg, w.(jobs := w.jobs - {FullKey}), Puts(SortedStrings(ahead)))
  }

  /** What follows an element in the list of the nodes ahead are the nodes ahead of that element. */
  lemma RestOfSorted(nodes: set<string>, cursor: Option<string>, all: seq<string>, i: nat)
    requires all == SortedStrings(Above(nodes, cursor)) && i < |all|
    ensures all[i + 1..] == SortedStrings(Above(nodes, Some(all[i])))
  {
    assert all[i] in all;
    forall n | n in Above(nodes, Some(all[i])) ensures n in Above(nodes, cursor) {
      if cursor.Some? { LessTrans(cursor.value, all[i], n); }
    }
    SortedAfter(Above(nodes, cursor), i, Above(nodes, Some(all[i])));
  }

  /** A full chunk, then the nodes ahead of its last, are the nodes that were ahead before. */
  lemma ChunkThenRest(nodes: set<string>, cursor: Option<string>, size: nat)
    requires size > 0 && |Chunk(nodes, cursor, size)| == size
    ensures var names := Chunk(nodes, cursor, size);
            SortedStrings(Above(nodes, cursor)) == names + SortedStrings(Above(nodes, Some(names[size - 1])))
  {
    var all := SortedStrings(Above(nodes, cursor));
    FullChunk(nodes, cursor, size, all);
    RestOfSorted(nodes, cursor, all, size - 1);
    SplitAt(all, size);
  }

  lemma FullChunk(nodes: set<string>, cursor: Option<string>, size: nat, all: seq<string>)
    requires all == SortedStrings(Above(nodes, cursor)) && |Chunk(nodes, cursor, size)| == size
    ensures |all| >= size && Chunk(nodes, cursor, size) == all[..size]
  {
  }

  lemma SplitAt(all: seq<string>, k: nat)
    requires k <= |all|
    ensures all[..k] + all[k..] == all
  {
  }

  lemma {:induction false} PutsAppend(cfg: Config, w: World, a: seq<string>, b: seq<string>)
    ensures ApplyEffects(cfg, w, Puts(a + b)) == ApplyEffects(cfg, ApplyEffects(cfg, w, Puts(a)), Puts(b))
    decreases |a|
  {
    if a == [] {
      assert a + b == b && Puts(a) == [];
    } else {
      PutsUnfold(a);
      PutsUnfold(a + b);
      assert (a + b)[1..] == a[1..] + b;
      PutsAppend(cfg, ApplyEffect(cfg, w, Put(a[0])), a[1..], b);
    }
  }

  /** Writing some nodes and walking on from the last of them is writing those and the ones ahead. */
  lemma ContinuedWalk(cfg: Config, w: World, mid: World, names: seq<string>, last: string, t: nat)
    requires mid == w.(jobs := w.jobs - {FullKey})
    ensures var w' := ApplyEffects(cfg, mid, Puts(names)).(jobs := mid.jobs[FullKey := ContinueRow(last, t)]);
            Walk(cfg, w') == ApplyEffects(cfg, mid, Puts(names + SortedStrings(Above(w.nodes.Keys, Some(last)))))
  {
    PutsAppend(cfg, mid, names, SortedStrings(Above(w.nodes.Keys, Some(last))));
    TakenOut(w.jobs, FullKey, ContinueRow(last, t));
  }

  lemma WalkAfterFull(cfg: Config, w: World, mid: World, names: seq<string>, w': World, t: nat)
    requires FullKey in w.jobs && mid == w.(jobs := w.jobs - {FullKey}) && cfg.chunkSize > 0
    requires names == Chunk(w.nodes.Keys, w.jobs[FullKey].cursor, cfg.chunkSize) && |names| == cfg.chunkSize
    requires w' == ApplyEffects(cfg, mid, Puts(names)).(jobs := mid.jobs[FullKey := ContinueRow(names[|names| - 1], t)])
    ensures Walk(cfg, w') == Walk(cfg, w)
  {
    ChunkThenRest(w.nodes.Keys, w.jobs[FullKey].cursor, cfg.chunkSize);
    ContinuedWalk(cfg, w, mid, names, names[|names| - 1], t);
  }

  lemma WalkAfterShort(cfg: Config, w: World, mid: World, names: seq<string>, w': World)
    requires FullKey in w.jobs && mid == w.(jobs := w.jobs - {FullKey})
    requires names == Chunk(w.nodes.Keys, w.jobs[FullKey].cursor, cfg.chunkSize) && |names| != cfg.chunkSize
    requires w' == ApplyEffects(cfg, mid, Puts(names)).(jobs := mid.jobs)
    ensures Walk(cfg, w') == Walk(cfg, w)
  {
  }

  /** An undisturbed chunk is the start of the walk. */
  lemma StepWalks(cfg: Config, w: World, t: nat)
    requires ValidConfig(cfg) && Shape(w.jobs, t) && FullKey in w.jobs && AllSafe(w.nodes.Keys)
    ensures Walk(cfg, StepJob(cfg, w, FullKey, {}, t)) == Walk(cfg, w)
  {
    var names := Chunk(w.nodes.Keys, w.jobs[FullKey].cursor, cfg.chunkSize);
    var mid := w.(jobs := w.jobs - {FullKey});
    ChunkSucceeds(cfg, w, t);
    FullStepDone(cfg, w, {}, t);
    if |names| == cfg.chunkSize {
      WalkAfterFull(cfg, w, mid, names, StepJob(cfg, w, FullKey, {}, t), t);
    } else {
      WalkAfterShort(cfg, w, mid, names, StepJob(cfg, w, FullKey, {}, t));
    }
  }

  /** While only the full reconcile is pending, the next batch can be nothing else. */
  lemma OnlyBatch(cfg: Config, jobs: Jobs, keys: seq<JobKey>, t: nat)
    requires ValidConfig(cfg) && OnlyFullPending(jobs) && IsBatch(cfg, jobs, keys, t)
    ensures keys == [] || keys == [FullKey]
    ensures FullKey in jobs && Due(jobs[FullKey], t) ==> keys == [FullKey]
  {
    assert forall i | 0 <= i < |keys| :: keys[i] == FullKey;
    DistinctBound({FullKey}, keys);
  }

  /** One claimed batch, and when it was claimed. */
  datatype Claim = Claim(keys: seq<JobKey>, at: nat)

  /** A drain from `t` on that finds something each time it claims. */
  ghost predicate Draining(cfg: Config, w: World, claims: seq<Claim>, t: nat)
    decreases |claims|
  {
    claims == [] ||
    (var c := claims[0];
     && t <= c.at && c.keys != [] && IsBatch(cfg, w.jobs, c.keys, c.at)
     && Draining(cfg, Batch(cfg, w, c.keys, {}, c.at), claims[1..], c.at))
  }

  ghost function Drained(cfg: Config, w: World, claims: seq<Claim>, t: nat): World
    requires Draining(cfg, w, claims, t)
    decreases |claims|
  {
    if claims == [] then w
    else Drained(cfg, Batch(cfg, w, claims[0].keys, {}, claims[0].at), claims[1..], claims[0].at)
  }

  ghost predicate NothingDue(jobs: Jobs, t: nat) {
    forall k | k in jobs :: !Due(jobs[k], t)
  }

  /** When the last batch was claimed, or `t` if there was none. */
  function LastClaim(claims: seq<Claim>, t: nat): nat {
    if claims == [] then t else claims[|claims| - 1].at
  }

  /** A drain to the end: when it stops, nothing is due. */
  ghost predicate Drains(cfg: Config, w: World, claims: seq<Claim>, t: nat) {
    Draining(cfg, w, claims, t) && NothingDue(Drained(cfg, w, claims, t).jobs, LastClaim(claims, t))
  }

  /** The only batch there can be is one chunk. */
  lemma OneChunk(cfg: Config, w: World, c: Claim, t: nat)
    requires ValidConfig(cfg) && Shape(w.jobs, t) && OnlyFullPending(w.jobs) && AllSafe(w.nodes.Keys)
    requires t <= c.at && c.keys != [] && IsBatch(cfg, w.jobs, c.keys, c.at)
    ensures FullKey in w.jobs
    ensures var w' := Batch(cfg, w, c.keys, {}, c.at);
            && Walk(cfg, w') == Walk(cfg, w) && w'.nodes == w.nodes && Shape(w'.jobs, c.at) && OnlyFullPending(w'.jobs)
            && (FullKey in w'.jobs ==> Due(w'.jobs[FullKey], c.at))
  {
    OnlyBatch(cfg, w.jobs, c.keys, c.at);
    assert c.keys[0] in w.jobs;
    var w' := StepJob(cfg, w, FullKey, {}, c.at);
    ShapeLater(w.jobs, t, c.at);
    BatchStepByStep(cfg, w, [FullKey], {}, c.at);
    assert [FullKey][1..] == [];
    BatchStepByStep(cfg, w', [], {}, c.at);
    StepWalks(cfg, w, c.at);
    StepShape(cfg, w, FullKey, {}, c.at);
    ChunkSucceeds(cfg, w, c.at);
    FullStepQueue(cfg, w, {}, c.at);
  }

  /**
   * With everything else drained or failed, a drain to the end is the walk, however it is batched and whenever
   * it claims.
   */
  lemma {:induction false} DrainIsWalk(cfg: Config, w: World, claims: seq<Claim>, t: nat)
    requires ValidConfig(cfg) && Shape(w.jobs, t) && OnlyFullPending(w.jobs) && AllSafe(w.nodes.Keys)
    requires FullKey in w.jobs ==> Due(w.jobs[FullKey], t)
    requires Drains(cfg, w, claims, t)
    ensures Drained(cfg, w, claims, t) == Walk(cfg, w)
    decreases |claims|
  {
    if claims != [] {
      var c, rest := claims[0], claims[1..];
      OneChunk(cfg, w, c, t);
      assert LastClaim(rest, c.at) == LastClaim(claims, t);
      DrainIsWalk(cfg, Batch(cfg, w, c.keys, {}, c.at), rest, c.at);
    }
  }

  lemma RequestShape(jobs: Jobs, t: nat)
    requires Shape(jobs, t) && OnlyFullPending(jobs)
    ensures var out := EnqueueFullReconcile(jobs, t);
            Shape(out, t) && OnlyFullPending(out) && FullKey in out && Due(out[FullKey], t)
  {
    if FullKey in jobs { assert RowShape(FullKey, jobs[FullKey], t); }
    forall k | k in EnqueueFullReconcile(jobs, t) ensures RowShape(k, EnqueueFullReconcile(jobs, t)[k], t) {
      if k in jobs { assert RowShape(k, jobs[k], t); }
    }
  }

  /** A reconcile: the request, then the sweep, with the node list read in between. */
  function Reconciled(w: World, stuck: set<string>, t: nat): World {
    SweepOrphans(RequestReconcile(w, t), w.nodes.Keys, stuck)
  }

  /** The walk of a reconcile, seen from one name: written if the walk has yet to reach it, else as before. */
  lemma HealsName(cfg: Config, w: World, stuck: set<string>, t: nat, n: string)
    requires w.recs.Keys <= w.nodes.Keys
    ensures var w1 := Reconciled(w, stuck, t);
            var r := Walk(cfg, w1);
            && r.recs.Keys <= w.nodes.Keys && r.nodes == w.nodes && r.groups == w.groups
            && (n in w.nodes ==> (Fresh(cfg, r, n) <==> FullCovers(w1.jobs, n) || Fresh(cfg, w, n)))
            && (n !in w.nodes ==> (n in r.disk <==> n in w.disk && (!SafeCertname(n) || n in stuck)))
  {
    var w1 := Reconciled(w, stuck, t);
    var r := Walk(cfg, w1);
    var ahead := Above(w.nodes.Keys, w1.jobs[FullKey].cursor);
    PutsResult(cfg, w1.(jobs := w1.jobs - {FullKey}), SortedStrings(ahead), n);
    assert n in ahead <==> n in w.nodes && FullCovers(w1.jobs, n);
    assert FactsOf(r, n) == FactsOf(w, n) == FactsOf(w1.(jobs := w1.jobs - {FullKey}), n);
  }

  /**
   * Self-healing, exactly. With everything else drained or failed, whatever was on disk and in the records,
   * after a reconcile and any drain to the end, however batched and whenever it claims, every managed node
   * is current if and only if those the walk had passed before the request already were. Of other names
   * only the files remain that the sweep could not remove.
   */
  lemma HealsExactly(cfg: Config, w: World, stuck: set<string>, t: nat, claims: seq<Claim>, start: nat)
    requires ValidConfig(cfg) && Shape(w.jobs, t) && OnlyFullPending(w.jobs) && t <= start
    requires AllSafe(w.nodes.Keys) && w.recs.Keys <= w.nodes.Keys
    requires Drains(cfg, Reconciled(w, stuck, t), claims, start)
    ensures var w1 := Reconciled(w, stuck, t);
            var r := Drained(cfg, w1, claims, start);
            && r.nodes == w.nodes && r.groups == w.groups && r.recs.Keys <= w.nodes.Keys
            && ((forall n | n in w.nodes :: Fresh(cfg, r, n))
                <==> (forall n | n in w.nodes :: FullCovers(w1.jobs, n) || Fresh(cfg, w, n)))
            && (forall n | n !in w.nodes :: n in r.disk <==> n in w.disk && (!SafeCertname(n) || n in stuck))
  {
    var w1 := Reconciled(w, stuck, t);
    RequestShape(w.jobs, t);
    ShapeLater(w1.jobs, t, start);
    DrainIsWalk(cfg, w1, claims, start);
    forall n
      ensures n in w.nodes ==> (Fresh(cfg, Walk(cfg, w1), n) <==> FullCovers(w1.jobs, n) || Fresh(cfg, w, n))
      ensures n !in w.nodes ==> (n in Walk(cfg, w1).disk <==> n in w.disk && (!SafeCertname(n) || n in stuck))
    {
      HealsName(cfg, w, stuck, t, n);
    }
    HealsName(cfg, w, stuck, t, "");
  }

  lemma RequestCoversAll(jobs: Jobs, t: nat)
    requires NoCursor(jobs)
    ensures forall n :: FullCovers(EnqueueFullReconcile(jobs, t), n)
  {
  }

  /** Tables in which every managed node is current, spelt out. */
  lemma SettledTables(cfg: Config, w: World, stuck: set<string>, r: World)
    requires r.nodes == w.nodes && r.groups == w.groups && r.recs.Keys <= w.nodes.Keys
    requires forall n | n in w.nodes :: Fresh(cfg, r, n)
    requires forall n | n !in w.nodes :: n in r.disk <==> n in w.disk && (!SafeCertname(n) || n in stuck)
    ensures r.disk.Keys == w.nodes.Keys + (set c | c in w.disk && (!SafeCertname(c) || c in stuck))
    ensures forall n | n in w.nodes :: r.disk[n] == DocOf(cfg, w, n)
    ensures r.recs.Keys == w.nodes.Keys
    ensures forall n | n in w.nodes :: r.recs[n].applied == AppliedOf(cfg, w, n)
  {
    forall n | n in w.nodes ensures Fresh(cfg, r, n) && FactsOf(r, n) == FactsOf(w, n) {
    }
  }

  /**
   * So without a part-way walk the managed nodes' documents and records are left, and what the sweep could not
   * remove.
   */
  lemma HealsAnyDisk(cfg: Config, w: World, stuck: set<string>, t: nat, claims: seq<Claim>, start: nat)
    requires ValidConfig(cfg) && Shape(w.jobs, t) && OnlyFullPending(w.jobs) && t <= start && NoCursor(w.jobs)
    requires AllSafe(w.nodes.Keys) && w.recs.Keys <= w.nodes.Keys
    requires Drains(cfg, Reconciled(w, stuck, t), claims, start)
    ensures var r := Drained(cfg, Reconciled(w, stuck, t), claims, start);
            && r.disk.Keys == w.nodes.Keys + (set c | c in w.disk && (!SafeCertname(c) || c in stuck))
            && (forall n | n in w.nodes :: r.disk[n] == DocOf(cfg, w, n))
            && r.recs.Keys == w.nodes.Keys
            && (forall n | n in w.nodes :: r.recs[n].applied == AppliedOf(cfg, w, n))
  {
    HealsExactly(cfg, w, stuck, t, claims, start);
    RequestCoversAll(w.jobs, t);
    SettledTables(cfg, w, stuck, Drained(cfg, Reconciled(w, stuck, t), claims, start));
  }

  /** A drain without faults over valid names ends: it claims at most as many batches as the measure. */
  lemma {:induction false} DrainEnds(cfg: Config, w: World, claims: seq<Claim>, t: nat)
    requires ValidConfig(cfg) && Shape(w.jobs, t) && SafeRows(w.jobs) && AllSafe(w.nodes.Keys)
    requires Draining(cfg, w, claims, t)
    ensures |claims| <= Measure(w)
    decreases |claims|
  {
    if claims != [] {
      var c := claims[0];
      ShapeLater(w.jobs, t, c.at);
      BatchShrinks(cfg, w, c.keys, c.at);
      BatchRows(cfg, w, c.keys, {}, c.at);
      DrainEnds(cfg, Batch(cfg, w, c.keys, {}, c.at), claims[1..], c.at);
    }
  }

  /** What the clock says at each claim. */
  ghost predicate Clock(times: seq<nat>, t: nat) {
    && (forall i | 0 <= i < |times| :: t <= times[i])
    && (forall i, j | 0 <= i < j < |times| :: times[i] <= times[j])
  }

  lemma ClockTicks(times: seq<nat>, t: nat)
    requires Clock(times, t) && times != []
    ensures Clock(times[1..], times[0])
  {
    assert forall i | 0 <= i < |times[1..]| :: times[1..][i] == times[i + 1];
  }

  lemma DrainsCons(cfg: Config, w: World, c: Claim, rest: seq<Claim>, t: nat)
    requires t <= c.at && c.keys != [] && IsBatch(cfg, w.jobs, c.keys, c.at)
    requires Drains(cfg, Batch(cfg, w, c.keys, {}, c.at), rest, c.at)
    ensures Drains(cfg, w, [c] + rest, t)
  {
    assert ([c] + rest)[1..] == rest && LastClaim([c] + rest, t) == LastClaim(rest, c.at);
  }

  /** And whatever the clock says, there is one that leaves nothing due. */
  lemma {:induction false} DrainExists(cfg: Config, w: World, times: seq<nat>, t: nat) returns (claims: seq<Claim>)
    requires ValidConfig(cfg) && Shape(w.jobs, t) && SafeRows(w.jobs) && AllSafe(w.nodes.Keys)
    requires Clock(times, t) && |times| > Measure(w)
    ensures Drains(cfg, w, claims, t) && |claims| <= Measure(w)
    ensures forall i | 0 <= i < |claims| :: claims[i].at == times[i]
    decreases Measure(w)
  {
    var at := times[0];
    var keys := BatchExists(cfg, w.jobs, at);
    if keys == [] {
      claims := [];
    } else {
      ShapeLater(w.jobs, t, at);
      BatchShrinks(cfg, w, keys, at);
      BatchRows(cfg, w, keys, {}, at);
      ClockTicks(times, t);
      var rest := DrainExists(cfg, Batch(cfg, w, keys, {}, at), times[1..], at);
      DrainsCons(cfg, w, Claim(keys, at), rest, t);
      claims := [Claim(keys, at)] + rest;
    }
  }

  lemma FailedChunkKeepsFullCovers(cfg: Config, w: World, n: string, faults: Faults, t: nat)
    requires Shape(w.jobs, t) && FullKey in w.jobs
    requires JobFails(cfg, w.nodes.Keys, FullKey, w.jobs[FullKey], faults)
    ensures FullCovers(StepJob(cfg, w, FullKey, faults, t).jobs, n)
  {
    assert RowShape(FullKey, w.jobs[FullKey], t);
  }

  lemma UnsafeNotInDoneChunk(cfg: Config, w: World, n: string, faults: Faults, t: nat)
    requires Shape(w.jobs, t) && FullKey in w.jobs && !SafeCertname(n)
    requires !JobFails(cfg, w.nodes.Keys, FullKey, w.jobs[FullKey], faults)
    ensures n !in Chunk(w.nodes.Keys, w.jobs[FullKey].cursor, cfg.chunkSize)
  {
    assert RowShape(FullKey, w.jobs[FullKey], t);
    var names := Chunk(w.nodes.Keys, w.jobs[FullKey].cursor, cfg.chunkSize);
    assert forall i | 0 <= i < |names| :: !Throws(FullKey, names[i], faults);
  }

  lemma DoneChunkKeepsFullCovers(cfg: Config, w: World, n: string, faults: Faults, t: nat)
    requires ValidConfig(cfg) && Shape(w.jobs, t) && n in w.nodes && !SafeCertname(n) && FullCovers(w.jobs, n)
    requires !JobFails(cfg, w.nodes.Keys, FullKey, w.jobs[FullKey], faults)
    ensures FullCovers(StepJob(cfg, w, FullKey, faults, t).jobs, n)
  {
    UnsafeNotInDoneChunk(cfg, w, n, faults, t);
    ChunkGapless(w.nodes.Keys, w.jobs[FullKey].cursor, cfg.chunkSize, n);
    FullStepDone(cfg, w, faults, t);
  }

  /**
   * The condition on names is needed: while a certname that is no file name is managed, a full
   * reconcile that has yet to reach it never leaves the queue, whatever job runs next.
   */
  lemma UnsafeNameBlocksWalk(cfg: Config, w: World, n: string, k: JobKey, faults: Faults, t: nat)
    requires ValidConfig(cfg) && Shape(w.jobs, t) && k in w.jobs
    requires n in w.nodes && !SafeCertname(n) && FullCovers(w.jobs, n)
    ensures FullCovers(StepJob(cfg, w, k, faults, t).jobs, n)
  {
    if k != FullKey {
      StepShape(cfg, w, k, faults, t);
    } else if JobFails(cfg, w.nodes.Keys, FullKey, w.jobs[FullKey], faults) {
      FailedChunkKeepsFullCovers(cfg, w, n, faults, t);
    } else {
      DoneChunkKeepsFullCovers(cfg, w, n, faults, t);
    }
  }

  /** Nor does it leave in any batch, whatever fails in it. */
  lemma {:induction false} UnsafeNameBlocksBatch(cfg: Config, w: World, n: string, keys: seq<JobKey>, faults: Faults,
      t: nat)
    requires ValidConfig(cfg) && Shape(w.jobs, t)
    requires forall i | 0 <= i < |keys| :: keys[i] in w.jobs
    requires forall i, j | 0 <= i < j < |keys| :: keys[i] != keys[j]
    requires n in w.nodes && !SafeCertname(n) && FullCovers(w.jobs, n)
    ensures FullCovers(Batch(cfg, w, keys, faults, t).jobs, n) && n in Batch(cfg, w, keys, faults, t).nodes
    decreases |keys|
  {
    BatchStepByStep(cfg, w, keys, faults, t);
    if keys != [] {
      UnsafeNameBlocksWalk(cfg, w, n, keys[0], faults, t);
      StepShape(cfg, w, keys[0], faults, t);
      UnsafeNameBlocksBatch(cfg, StepJob(cfg, w, keys[0], faults, t), n, keys[1..], faults, t);
    }
  }
}
