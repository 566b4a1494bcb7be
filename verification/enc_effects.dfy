/**
 * What one write, one deletion and one failure leave behind (materializer.service.ts), told from the tables:
 * the file, its record and revision, and when a failed job may be claimed again.
 */
module EncEffects {
  import opened Options
  import opened EncModel
  import opened EncOutbox
  import opened EncDrain
  import opened EncDrainInv

  // ---- files and records ----

  /**
   * Writing a managed node leaves its document on disk and on record, with the groups that made it. The
   * revision starts at one and moves exactly when the file did not already hold that document.
   */
  lemma WriteRecords(cfg: Config, w: World, c: string)
    requires c in w.nodes
    ensures var r := ApplyEffect(cfg, w, Put(c));
            && c in r.disk && r.disk[c] == DocOf(cfg, w, c)
            && c in r.recs && r.recs[c].document == DocOf(cfg, w, c) && r.recs[c].applied == AppliedOf(cfg, w, c)
            && (c !in w.recs ==> r.recs[c].revision == 1)
            && (c in w.recs ==> w.recs[c].revision <= r.recs[c].revision <= w.recs[c].revision + 1)
            && (c in w.recs ==>
                  (r.recs[c].revision == w.recs[c].revision <==> c in w.disk && w.disk[c] == DocOf(cfg, w, c)))
  {
  }

  /** Writing an unmanaged name leaves a file and no record. */
  lemma WriteOfUnmanaged(cfg: Config, w: World, c: string)
    requires c !in w.nodes
    ensures var r := ApplyEffect(cfg, w, Put(c)); c in r.disk && r.disk[c] == DocOf(cfg, w, c) && r.recs == w.recs
  {
  }

  /** A deletion leaves neither file nor record. */
  lemma DeletionClears(cfg: Config, w: World, c: string)
    ensures var r := ApplyEffect(cfg, w, Del(c)); c !in r.disk && c !in r.recs
  {
  }

  /** Neither touches another name, a node, a group or the queue. */
  lemma EffectsAreLocal(cfg: Config, w: World, e: Effect, m: string)
    requires m != e.certname
    ensures var r := ApplyEffect(cfg, w, e);
            && (m in r.disk <==> m in w.disk) && (m in w.disk ==> r.disk[m] == w.disk[m])
            && (m in r.recs <==> m in w.recs) && (m in w.recs ==> r.recs[m] == w.recs[m])
            && r.nodes == w.nodes && r.groups == w.groups && r.jobs == w.jobs
  {
  }

  /** Writing or deleting twice is doing it once. */
  lemma EffectTwice(cfg: Config, w: World, e: Effect)
    ensures ApplyEffect(cfg, ApplyEffect(cfg, w, e), e) == ApplyEffect(cfg, w, e)
  {
    var r := ApplyEffect(cfg, w, e);
    assert FactsOf(r, e.certname) == FactsOf(w, e.certname);
    if e.Put? {
      assert r.disk[e.certname := DocOf(cfg, w, e.certname)] == r.disk;
      if e.certname in w.nodes { assert r.recs[e.certname := r.recs[e.certname]] == r.recs; }
    } else {
      assert r.disk - {e.certname} == r.disk && r.recs - {e.certname} == r.recs;
    }
  }

  // ---- claims ----

  /** What a claim gets: due rows, no due row left out that is older, and none left out at all unless it is full. */
  lemma BatchIsOldestDue(cfg: Config, jobs: Jobs, keys: seq<JobKey>, t: nat)
    requires IsBatch(cfg, jobs, keys, t)
    ensures |keys| <= cfg.batchSize
    ensures forall i | 0 <= i < |keys| ::
              keys[i] in jobs && jobs[keys[i]].status == Pending && jobs[keys[i]].nextAttemptAt <= t
    ensures forall i, j | 0 <= i < j < |keys| ::
              keys[i] != keys[j] && jobs[keys[i]].createdAt <= jobs[keys[j]].createdAt
    ensures forall k | k in jobs && jobs[k].status == Pending && jobs[k].nextAttemptAt <= t ::
              || k in keys
              || (|keys| == cfg.batchSize && forall i | 0 <= i < |keys| :: jobs[keys[i]].createdAt <= jobs[k].createdAt)
  {
  }

  // ---- failures ----

  /** The backoff starts at two seconds and doubles with every attempt, up to five minutes. */
  lemma BackoffDoubles(attempts: nat)
    requires attempts >= 1
    ensures Backoff(1) == 2_000
    ensures Backoff(attempts + 1) == (if Backoff(attempts) >= 150_000 then 300_000 else 2 * Backoff(attempts))
    ensures 2_000 <= Backoff(attempts) <= 300_000
    decreases attempts
  {
    if attempts > 1 { BackoffDoubles(attempts - 1); }
  }

  /** `n` failures of one job, each at the time the one before allowed it to be claimed again. */
  function Failures(cfg: Config, row: Job, n: nat): Job {
    if n == 0 then row
    else var before := Failures(cfg, row, n - 1); FailureRow(cfg, before, before.nextAttemptAt)
  }

  /**
   * A job that keeps failing is pending, for the same node and without a cursor, until it has failed
   * `maxAttempts` times in all; from then on it is parked and no claim takes it.
   */
  lemma {:induction false} FailuresRunOut(cfg: Config, row: Job, n: nat, later: nat)
    requires row.status == Pending && row.attempts < cfg.maxAttempts && n >= 1
    ensures var r := Failures(cfg, row, n);
            && r.certname == row.certname && r.cursor == None && r.attempts == row.attempts + n
            && (r.status == Pending <==> row.attempts + n < cfg.maxAttempts)
            && (Due(r, later) <==> row.attempts + n < cfg.maxAttempts && r.nextAttemptAt <= later)
            && r.nextAttemptAt == Failures(cfg, row, n - 1).nextAttemptAt + Backoff(row.attempts + n)
    decreases n
  {
    if n > 1 { FailuresRunOut(cfg, row, n - 1, later); }
  }
}
