/**
 * The outbox drain (apps/api/src/materialization/materializer.service.ts): one batch claims due
 * rows by deleting them, turns each into file effects, and settles the rows that failed or must
 * continue.
 */
module EncDrain {
  import opened Order
  import opened Options
  import opened EncModel

  datatype Effect = Put(certname: string) | Del(certname: string)

  /** File operations that throw, by the job attempting them. */
  type Faults = set<(JobKey, string)>

  /** A file operation throws on a certname that is no file name, or on an I/O error. */
  predicate Throws(k: JobKey, c: string, faults: Faults) {
    !SafeCertname(c) || (k, c) in faults
  }

  // ---- one job ----

  function Above(nodes: set<string>, cursor: Option<string>): set<string> {
    set n | n in nodes && (cursor == None || Less(cursor.value, n))
  }

  /** The next nodes of a full reconcile, in certname order. */
  function Chunk(nodes: set<string>, cursor: Option<string>, size: nat): (r: seq<string>)
    ensures forall n :: n in r ==> n in nodes
  {
    var all := SortedStrings(Above(nodes, cursor));
    if |all| <= size then all else
      assert forall n | n in all[..size] :: n in all;
      all[..size]
  }

  /** How many of the writes go through before one throws. */
  function Written(k: JobKey, names: seq<string>, faults: Faults): (r: nat)
    ensures r <= |names|
    ensures forall i | 0 <= i < r :: !Throws(k, names[i], faults)
    ensures r < |names| ==> Throws(k, names[r], faults)
  {
    if names == [] || Throws(k, names[0], faults) then 0 else 1 + Written(k, names[1..], faults)
  }

  /** The nodes a job writes, in order. */
  function Targets(cfg: Config, nodes: set<string>, row: Job): seq<string> {
    if row.certname.Some? then [row.certname.value] else Chunk(nodes, row.cursor, cfg.chunkSize)
  }

  predicate JobFails(cfg: Config, nodes: set<string>, k: JobKey, row: Job, faults: Faults) {
    var names := Targets(cfg, nodes, row);
    Written(k, names, faults) < |names|
  }

  function Puts(names: seq<string>): seq<Effect> {
    seq(|names|, i requires 0 <= i < |names| => Put(names[i]))
  }

  function JobEffects(cfg: Config, nodes: set<string>, k: JobKey, row: Job, faults: Faults): seq<Effect> {
    var names := Targets(cfg, nodes, row);
    if row.kind == Delete && row.certname.Some? then
      if Throws(k, row.certname.value, faults) then [] else [Del(row.certname.value)]
    else Puts(names[..Written(k, names, faults)])
  }

  function Pow2(n: nat): nat {
    if n == 0 then 1 else 2 * Pow2(n - 1)
  }

  function Backoff(attempts: nat): nat
    requires attempts >= 1
  {
    var ms := 2000 * Pow2(attempts - 1);
    if ms < 300_000 then ms else 300_000
  }

  /** The row a failure inserts: no kind, no cursor. */
  function FailureRow(cfg: Config, row: Job, t: nat): Job {
    var attempts := row.attempts + 1;
    Job(row.certname, Materialize, if attempts >= cfg.maxAttempts then Failed else Pending,
        attempts, None, t, t + Backoff(attempts))
  }

  function ContinueRow(last: string, t: nat): Job {
    Job(None, Materialize, Pending, 0, Some(last), t, t)
  }

  /** The row a finished job leaves under its key, if any. */
  function Leaves(cfg: Config, nodes: set<string>, k: JobKey, row: Job, faults: Faults, t: nat): Option<Job> {
    var names := Targets(cfg, nodes, row);
    if JobFails(cfg, nodes, k, row, faults) then Some(FailureRow(cfg, row, t))
    else if row.certname == None && |names| == cfg.chunkSize && names != [] then
      Some(ContinueRow(names[|names| - 1], t))
    else None
  }

  function NextRevision(cfg: Config, w: World, c: string): nat {
    if c !in w.recs then 1
    else if c in w.disk && w.disk[c] == DocOf(cfg, w, c) then w.recs[c].revision
    else w.recs[c].revision + 1
  }

  /** Writing a node: the file, and its record when the node is managed. Deleting: both. */
  function ApplyEffect(cfg: Config, w: World, e: Effect): World {
    match e
    case Put(c) =>
      w.(disk := w.disk[c := DocOf(cfg, w, c)],
         recs := if c in w.nodes
                 then w.recs[c := Rec(DocOf(cfg, w, c), NextRevision(cfg, w, c), AppliedOf(cfg, w, c))]
                 else w.recs)
    case Del(c) =>
      w.(disk := w.disk - {c}, recs := w.recs - {c})
  }

  function ApplyEffects(cfg: Config, w: World, es: seq<Effect>): (r: World)
    ensures r.nodes == w.nodes && r.groups == w.groups && r.jobs == w.jobs
    decreases |es|
  {
    if es == [] then w else ApplyEffects(cfg, ApplyEffect(cfg, w, es[0]), es[1..])
  }

  /** A claimed job: its effects, then the row it leaves, unless a newer row has its key. */
  function RunJob(cfg: Config, w: World, k: JobKey, row: Job, faults: Faults, t: nat): World {
    var left := Leaves(cfg, w.nodes.Keys, k, row, faults, t);
    var w' := ApplyEffects(cfg, w, JobEffects(cfg, w.nodes.Keys, k, row, faults));
    if left.Some? && k !in w.jobs then w'.(jobs := w.jobs[k := left.value]) else w'
  }

  // ---- one batch ----

  predicate Due(row: Job, t: nat) {
    row.status == Pending && row.nextAttemptAt <= t
  }

  /** A batch the claim may take at `t`: due rows, oldest first, as many as fit; ties in any order. */
  ghost predicate IsBatch(cfg: Config, jobs: Jobs, keys: seq<JobKey>, t: nat) {
    && |keys| <= cfg.batchSize
    && (forall i | 0 <= i < |keys| :: keys[i] in jobs && Due(jobs[keys[i]], t))
    && (forall i, j | 0 <= i < j < |keys| :: keys[i] != keys[j])
    && (forall i, j | 0 <= i < j < |keys| :: jobs[keys[i]].createdAt <= jobs[keys[j]].createdAt)
    && (forall k | k in jobs && Due(jobs[k], t) && k !in keys ::
          |keys| == cfg.batchSize && forall i | 0 <= i < |keys| :: jobs[keys[i]].createdAt <= jobs[k].createdAt)
  }

  function RunClaimed(cfg: Config, w: World, keys: seq<JobKey>, rows: Jobs, faults: Faults, t: nat): World
    requires forall i | 0 <= i < |keys| :: keys[i] in rows
    decreases |keys|
  {
    if keys == [] then w
    else RunClaimed(cfg, RunJob(cfg, w, keys[0], rows[keys[0]], faults, t), keys[1..], rows, faults, t)
  }

  function KeySet(keys: seq<JobKey>): set<JobKey> {
    set i | 0 <= i < |keys| :: keys[i]
  }

  /** A committed batch: claim every row by deleting it, then run the claimed jobs in order. */
  function Batch(cfg: Config, w: World, keys: seq<JobKey>, faults: Faults, t: nat): World
    requires forall i | 0 <= i < |keys| :: keys[i] in w.jobs
  {
    RunClaimed(cfg, w.(jobs := w.jobs - KeySet(keys)), keys, w.jobs, faults, t)
  }

  function AllEffects(cfg: Config, nodes: set<string>, keys: seq<JobKey>, rows: Jobs, faults: Faults): seq<Effect>
    requires forall i | 0 <= i < |keys| :: keys[i] in rows
    decreases |keys|
  {
    if keys == [] then []
    else JobEffects(cfg, nodes, keys[0], rows[keys[0]], faults) + AllEffects(cfg, nodes, keys[1..], rows, faults)
  }

  /** A rolled-back batch: the tables are as before, and the first `done` file effects stay. */
  function Abort(cfg: Config, w: World, keys: seq<JobKey>, faults: Faults, done: nat): World
    requires forall i | 0 <= i < |keys| :: keys[i] in w.jobs
  {
    var es := AllEffects(cfg, w.nodes.Keys, keys, w.jobs, faults);
    w.(disk := ApplyEffects(cfg, w, es[..if done < |es| then done else |es|]).disk)
  }

  // ---- claiming all rows first is the same as taking them one at a time ----

  /** Take one queued row and run it. */
  function StepJob(cfg: Config, w: World, k: JobKey, faults: Faults, t: nat): World
    requires k in w.jobs
  {
    RunJob(cfg, w.(jobs := w.jobs - {k}), k, w.jobs[k], faults, t)
  }

  lemma EffectIgnoresJobs(cfg: Config, w: World, jobs: Jobs, e: Effect)
    ensures ApplyEffect(cfg, w.(jobs := jobs), e) == ApplyEffect(cfg, w, e).(jobs := jobs)
  {
    assert FactsOf(w.(jobs := jobs), e.certname) == FactsOf(w, e.certname);
  }

  /** Effects do not look at the queue. */
  lemma {:induction false} EffectsIgnoreJobs(cfg: Config, w: World, jobs: Jobs, es: seq<Effect>)
    ensures ApplyEffects(cfg, w.(jobs := jobs), es) == ApplyEffects(cfg, w, es).(jobs := jobs)
    decreases |es|
  {
    if es != [] {
      EffectIgnoresJobs(cfg, w, jobs, es[0]);
      EffectsIgnoreJobs(cfg, ApplyEffect(cfg, w, es[0]), jobs, es[1..]);
    }
  }

  /** Running a claimed job in a smaller queue differs only by the rows missing from it. */
  lemma RunJobFrame(cfg: Config, w: World, gone: set<JobKey>, k: JobKey, row: Job, faults: Faults, t: nat)
    requires k !in w.jobs && k !in gone
    ensures RunJob(cfg, w.(jobs := w.jobs - gone), k, row, faults, t)
         == RunJob(cfg, w, k, row, faults, t).(jobs := RunJob(cfg, w, k, row, faults, t).jobs - gone)
  {
    var es := JobEffects(cfg, w.nodes.Keys, k, row, faults);
    EffectsIgnoreJobs(cfg, w, w.jobs - gone, es);
    var left := Leaves(cfg, w.nodes.Keys, k, row, faults, t);
    if left.Some? {
      assert (w.jobs - gone)[k := left.value] == w.jobs[k := left.value] - gone;
    }
  }

  lemma RunJobLeavesOthers(cfg: Config, w: World, k: JobKey, row: Job, faults: Faults, t: nat)
    ensures RunJob(cfg, w, k, row, faults, t).nodes == w.nodes
    ensures RunJob(cfg, w, k, row, faults, t).groups == w.groups
    ensures RunJob(cfg, w, k, row, faults, t).jobs - {k} == w.jobs - {k}
  {
  }

  /** A batch is its jobs one at a time. */
  lemma {:induction false} BatchStepByStep(cfg: Config, w: World, keys: seq<JobKey>, faults: Faults, t: nat)
    requires forall i | 0 <= i < |keys| :: keys[i] in w.jobs
    requires forall i, j | 0 <= i < j < |keys| :: keys[i] != keys[j]
    ensures keys == [] ==> Batch(cfg, w, keys, faults, t) == w
    ensures keys != [] ==>
              var w1 := StepJob(cfg, w, keys[0], faults, t);
              (forall i | 0 <= i < |keys[1..]| :: keys[1..][i] in w1.jobs) &&
              Batch(cfg, w, keys, faults, t) == Batch(cfg, w1, keys[1..], faults, t)
  {
    if keys == [] {
      assert w.jobs - KeySet(keys) == w.jobs;
    } else {
      var k := keys[0];
      var rest := keys[1..];
      var w1 := StepJob(cfg, w, k, faults, t);
      RunJobLeavesOthers(cfg, w.(jobs := w.jobs - {k}), k, w.jobs[k], faults, t);
      var gone := KeySet(rest);
      assert k !in gone;
      assert KeySet(keys) == {k} + gone;
      assert w.jobs - KeySet(keys) == (w.jobs - {k}) - gone;
      RunJobFrame(cfg, w.(jobs := w.jobs - {k}), gone, k, w.jobs[k], faults, t);
      assert w1.jobs - {k} == w.jobs - {k};
      forall i | 0 <= i < |rest| ensures rest[i] in w1.jobs && w1.jobs[rest[i]] == w.jobs[rest[i]] {
        assert rest[i] in w1.jobs - {k};
        assert (w1.jobs - {k})[rest[i]] == (w.jobs - {k})[rest[i]];
      }
      RunClaimedRows(cfg, w1.(jobs := w1.jobs - gone), rest, w.jobs, w1.jobs, faults, t);
    }
  }

  lemma {:induction false} RunClaimedRows(cfg: Config, w: World, keys: seq<JobKey>, rows: Jobs, rows': Jobs,
      faults: Faults, t: nat)
    requires forall i | 0 <= i < |keys| :: keys[i] in rows && keys[i] in rows' && rows[keys[i]] == rows'[keys[i]]
    ensures RunClaimed(cfg, w, keys, rows, faults, t) == RunClaimed(cfg, w, keys, rows', faults, t)
    decreases |keys|
  {
    if keys != [] {
      RunClaimedRows(cfg, RunJob(cfg, w, keys[0], rows[keys[0]], faults, t), keys[1..], rows, rows', faults, t);
    }
  }
}
