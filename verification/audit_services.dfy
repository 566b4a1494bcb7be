/**
 * The audit outbox, its delivery worker and the retention sweeper as methods on the tables
 * (apps/api/src/auth/audit-delivery.outbox.ts, audit-delivery.worker.ts, audit-retention.sweeper.ts).
 */
module AuditServices {
  import opened Options
  import opened AuditModel

  class AuditTables {
    var logs: Logs
    var jobs: Queue
    var drops: nat

    constructor ()
      ensures State() == Audit(map[], map[], 0)
    {
      logs, jobs, drops := map[], map[], 0;
    }

    ghost function State(): Audit
      reads this
    {
      Audit(logs, jobs, drops)
    }
  }

  /** `v` are `n` of the candidates, or all of them when there are fewer, and none left out is older. */
  ghost predicate Oldest(age: map<string, nat>, candidates: set<string>, n: nat, v: set<string>) {
    && v <= candidates && candidates <= age.Keys
    && |v| == (if |candidates| < n then |candidates| else n)
    && (|candidates| <= n ==> v == candidates)
    && forall a, b | a in v && b in candidates - v :: age[a] <= age[b]
  }

  lemma SubsetSize(a: set<string>, b: set<string>)
    requires a <= b
    ensures |a| <= |b| && (|a| == |b| ==> a == b)
  {
    assert b == a + (b - a);
  }

  method Eldest(age: map<string, nat>, ids: set<string>) returns (oldest: string)
    requires ids != {} && ids <= age.Keys
    ensures oldest in ids && forall b | b in ids :: age[oldest] <= age[b]
  {
    oldest :| oldest in ids;
    var others := ids - {oldest};
    while others != {}
      invariant oldest in ids && others <= ids
      invariant forall b | b in ids && b !in others :: age[oldest] <= age[b]
      decreases |others|
    {
      var b :| b in others;
      if age[b] < age[oldest] { oldest := b; }
      others := others - {b};
    }
  }

  /** ORDER BY createdAt ASC LIMIT n. */
  method TakeOldest(age: map<string, nat>, candidates: set<string>, n: nat) returns (v: set<string>)
    requires candidates <= age.Keys
    ensures Oldest(age, candidates, n, v)
  {
    v := {};
    var rest := candidates;
    while rest != {} && |v| < n
      invariant v + rest == candidates && v !! rest && |v| <= n
      invariant |v| + |rest| == |candidates|
      invariant forall a, b | a in v && b in rest :: age[a] <= age[b]
      decreases |rest|
    {
      var oldest := Eldest(age, rest);
      v := v + {oldest};
      rest := rest - {oldest};
    }
    assert candidates - v == rest;
  }

  // ---- outbox and worker ----

  /** `batch` was picked oldest first from `all`, and `rest` is what was not picked. */
  ghost predicate Taken(jobs: Queue, all: set<string>, batch: seq<Delivery>, rest: set<string>)
    requires all <= jobs.Keys
  {
    && Ids(batch) + rest == all && Ids(batch) !! rest
    && (forall i | 0 <= i < |batch| :: batch[i].id in all && batch[i].attempts == jobs[batch[i].id].attempts)
    && (forall i, j | 0 <= i < j < |batch| ::
          batch[i].id != batch[j].id && jobs[batch[i].id].createdAt <= jobs[batch[j].id].createdAt)
    && (forall i, id | 0 <= i < |batch| && id in rest :: jobs[batch[i].id].createdAt <= jobs[id].createdAt)
  }

  lemma IdsSnoc(batch: seq<Delivery>, d: Delivery)
    ensures Ids(batch + [d]) == Ids(batch) + {d.id}
  {
    forall id | id in Ids(batch) + {d.id} ensures id in Ids(batch + [d]) {
      if id == d.id {
        assert (batch + [d])[|batch|].id == id;
      } else {
        var i :| 0 <= i < |batch| && batch[i].id == id;
        assert (batch + [d])[i].id == id;
      }
    }
  }

  lemma TakeOne(jobs: Queue, all: set<string>, batch: seq<Delivery>, rest: set<string>, oldest: string)
    requires all <= jobs.Keys && Taken(jobs, all, batch, rest)
    requires oldest in rest && forall id | id in rest :: jobs[oldest].createdAt <= jobs[id].createdAt
    ensures Taken(jobs, all, batch + [Delivery(oldest, jobs[oldest].attempts)], rest - {oldest})
  {
    IdsSnoc(batch, Delivery(oldest, jobs[oldest].attempts));
    assert forall i | 0 <= i < |batch| :: batch[i].id in Ids(batch);
  }

  lemma TakenIsClaim(jobs: Queue, all: set<string>, batch: seq<Delivery>, rest: set<string>, limit: nat, now: nat)
    requires all == (set id | id in jobs && jobs[id].nextAttemptAt <= now)
    requires Taken(jobs, all, batch, rest) && |batch| <= limit && (rest == {} || |batch| == limit)
    ensures IsClaim(jobs, batch, limit, now)
  {
    forall id | id in jobs && jobs[id].nextAttemptAt <= now && id !in Ids(batch)
      ensures |batch| == limit && forall i | 0 <= i < |batch| :: jobs[batch[i].id].createdAt <= jobs[id].createdAt
    {
      assert id in all && id in rest;
    }
  }

  class AuditOutbox {
    const tables: AuditTables

    constructor (tables: AuditTables)
      ensures this.tables == tables
    {
      this.tables := tables;
    }

    method Enqueue(id: string, t: nat)
      modifies tables
      ensures tables.State() == AuditModel.Enqueue(old(tables.State()), id, t)
    {
      if id !in tables.jobs {
        tables.jobs := tables.jobs[id := AuditJob(0, t, t)];
      }
    }

    /** Lease due jobs, oldest first. */
    method Claim(limit: nat, now: nat, lease: nat) returns (batch: seq<Delivery>)
      modifies tables
      ensures IsClaim(old(tables.jobs), batch, limit, now)
      ensures tables.State() == old(tables.State()).(jobs := Leased(old(tables.jobs), Ids(batch), now + lease))
    {
      batch := FindDue(limit, now);
      var ids := Ids(batch);
      tables.jobs := map id | id in tables.jobs ::
        if id in ids then tables.jobs[id].(nextAttemptAt := now + lease) else tables.jobs[id];
    }

    method FindDue(limit: nat, now: nat) returns (batch: seq<Delivery>)
      ensures IsClaim(tables.jobs, batch, limit, now)
    {
      var jobs := tables.jobs;
      ghost var allDue := set id | id in jobs && jobs[id].nextAttemptAt <= now;
      batch := [];
      var due := set id | id in jobs && jobs[id].nextAttemptAt <= now;
      while due != {} && |batch| < limit
        invariant allDue <= jobs.Keys
        invariant Taken(jobs, allDue, batch, due) && |batch| <= limit
        decreases |due|
      {
        var oldest := Eldest(map id | id in jobs :: jobs[id].createdAt, due);
        TakeOne(jobs, allDue, batch, due, oldest);
        batch := batch + [Delivery(oldest, jobs[oldest].attempts)];
        due := due - {oldest};
      }
      TakenIsClaim(jobs, allDue, batch, due, limit, now);
    }

    /** Remove delivered jobs; the count is of rows actually there. */
    method Complete(batch: seq<Delivery>) returns (removed: nat)
      modifies tables
      ensures tables.State() == old(tables.State()).(jobs := old(tables.jobs) - Ids(batch))
      ensures removed == |old(tables.jobs).Keys * Ids(batch)|
    {
      removed := |tables.jobs.Keys * Ids(batch)|;
      tables.jobs := tables.jobs - Ids(batch);
    }

    /** Give a failed delivery its backoff; a record swept meanwhile has nothing to reschedule. */
    method Reschedule(d: Delivery, until: nat)
      modifies tables
      ensures tables.State() == old(tables.State()).(jobs := Rescheduled(old(tables.jobs), d, until))
    {
      if d.id in tables.jobs {
        tables.jobs := tables.jobs[d.id := tables.jobs[d.id].(attempts := d.attempts + 1, nextAttemptAt := until)];
      }
    }
  }

  datatype Pacing = Pacing(batchSize: nat, leaseMs: nat, backoffMs: nat, maxBackoffMs: nat)

  function Pow2(n: nat): nat {
    if n == 0 then 1 else 2 * Pow2(n - 1)
  }

  function Backoff(p: Pacing, attempts: nat): nat {
    if p.backoffMs * Pow2(attempts) < p.maxBackoffMs then p.backoffMs * Pow2(attempts) else p.maxBackoffMs
  }

  /** The backoff starts at the configured one and doubles with every attempt, up to the cap. */
  lemma BackoffDoubles(p: Pacing, attempts: nat)
    ensures Backoff(p, 0) == if p.backoffMs < p.maxBackoffMs then p.backoffMs else p.maxBackoffMs
    ensures Backoff(p, attempts + 1)
            == if 2 * Backoff(p, attempts) < p.maxBackoffMs then 2 * Backoff(p, attempts) else p.maxBackoffMs
  {
    assert p.backoffMs * Pow2(attempts + 1) == 2 * (p.backoffMs * Pow2(attempts));
  }

  function RescheduledAll(p: Pacing, jobs: Queue, batch: seq<Delivery>, now: nat): Queue
    decreases |batch|
  {
    if batch == [] then jobs
    else RescheduledAll(p, Rescheduled(jobs, batch[0], now + Backoff(p, batch[0].attempts)), batch[1..], now)
  }

  /** What a job looks like once its failed delivery is rescheduled. */
  function BackedOff(p: Pacing, job: AuditJob, d: Delivery, now: nat): AuditJob {
    job.(attempts := d.attempts + 1, nextAttemptAt := now + Backoff(p, d.attempts))
  }

  /**
   * Rescheduling a batch removes no job; every job of the batch that still exists has one more
   * attempt and its backoff, and the others are untouched.
   */
  lemma {:induction false} ReschedulingKeepsJobs(p: Pacing, jobs: Queue, batch: seq<Delivery>, now: nat, id: string)
    requires forall i, j | 0 <= i < j < |batch| :: batch[i].id != batch[j].id
    ensures RescheduledAll(p, jobs, batch, now).Keys == jobs.Keys
    ensures id in jobs && id !in Ids(batch) ==> RescheduledAll(p, jobs, batch, now)[id] == jobs[id]
    ensures forall i | 0 <= i < |batch| && batch[i].id == id && id in jobs ::
              RescheduledAll(p, jobs, batch, now)[id] == BackedOff(p, jobs[id], batch[i], now)
    decreases |batch|
  {
    if batch != [] {
      var d := batch[0];
      var jobs1 := Rescheduled(jobs, d, now + Backoff(p, d.attempts));
      var rest := batch[1..];
      assert forall i | 0 <= i < |rest| :: rest[i] == batch[i + 1];
      ReschedulingKeepsJobs(p, jobs1, rest, now, id);
      assert jobs1.Keys == jobs.Keys;
      IdsCons(batch);
      forall i | 0 <= i < |batch| && batch[i].id == id && id in jobs
        ensures RescheduledAll(p, jobs, batch, now)[id] == BackedOff(p, jobs[id], batch[i], now)
      {
        assert i == 0 || rest[i - 1] == batch[i];
      }
    }
  }

  lemma IdsCons(batch: seq<Delivery>)
    requires batch != [] && forall i | 1 <= i < |batch| :: batch[0].id != batch[i].id
    ensures batch[0].id in Ids(batch) && batch[0].id !in Ids(batch[1..]) && Ids(batch[1..]) <= Ids(batch)
  {
    forall id | id in Ids(batch[1..]) ensures id in Ids(batch) {
      var i :| 0 <= i < |batch[1..]| && batch[1..][i].id == id;
      assert batch[i + 1].id == id;
    }
  }

  /** What a drain that fails does to each job: one attempt more and its backoff if it was claimed, nothing if not. */
  lemma FailedDrainBacksOff(p: Pacing, jobs: Queue, batch: seq<Delivery>, limit: nat, now: nat)
    requires IsClaim(jobs, batch, limit, now)
    ensures var out := RescheduledAll(p, Leased(jobs, Ids(batch), now + p.leaseMs), batch, now);
            && out.Keys == jobs.Keys
            && forall id | id in jobs ::
                 if id in Ids(batch)
                 then out[id].attempts == jobs[id].attempts + 1
                      && out[id].nextAttemptAt == now + Backoff(p, jobs[id].attempts)
                      && out[id].createdAt == jobs[id].createdAt
                 else out[id] == jobs[id]
  {
    var leased := Leased(jobs, Ids(batch), now + p.leaseMs);
    ReschedulingKeepsJobs(p, leased, batch, now, "");
    forall id | id in jobs
      ensures var out := RescheduledAll(p, leased, batch, now);
              id in out
              && if id in Ids(batch)
                 then out[id].attempts == jobs[id].attempts + 1
                      && out[id].nextAttemptAt == now + Backoff(p, jobs[id].attempts)
                      && out[id].createdAt == jobs[id].createdAt
                 else out[id] == jobs[id]
    {
      ReschedulingKeepsJobs(p, leased, batch, now, id);
      if id in Ids(batch) {
        var i :| 0 <= i < |batch| && batch[i].id == id;
        assert RescheduledAll(p, leased, batch, now)[id] == BackedOff(p, leased[id], batch[i], now);
      }
    }
  }

  datatype DrainResult = DrainResult(delivered: nat, failed: nat, ranHere: bool)

  class AuditWorker {
    const outbox: AuditOutbox
    const pacing: Pacing

    constructor (outbox: AuditOutbox, pacing: Pacing)
      ensures this.outbox == outbox && this.pacing == pacing
    {
      this.outbox := outbox;
      this.pacing := pacing;
    }

    method RescheduleAll(batch: seq<Delivery>, now: nat)
      modifies outbox.tables
      ensures outbox.tables.State()
              == old(outbox.tables.State()).(jobs := RescheduledAll(pacing, old(outbox.tables.jobs), batch, now))
    {
      ghost var target := RescheduledAll(pacing, outbox.tables.jobs, batch, now);
      assert batch[0..] == batch;
      for i := 0 to |batch|
        invariant outbox.tables.logs == old(outbox.tables.logs) && outbox.tables.drops == old(outbox.tables.drops)
        invariant RescheduledAll(pacing, outbox.tables.jobs, batch[i..], now) == target
      {
        assert batch[i..][0] == batch[i] && batch[i..][1..] == batch[i + 1..];
        outbox.Reschedule(batch[i], now + Backoff(pacing, batch[i].attempts));
      }
    }

    /** Lease a batch, hand it to the transport, and settle it: complete on success, back off on failure. */
    method Drain(configured: bool, locked: bool, now: nat, delivers: bool)
        returns (r: DrainResult, ghost batch: seq<Delivery>)
      modifies outbox.tables
      ensures !configured || !locked
              ==> r == DrainResult(0, 0, false) && outbox.tables.State() == old(outbox.tables.State())
      ensures configured && locked ==> r.ranHere && IsClaim(old(outbox.tables.jobs), batch, pacing.batchSize, now)
      ensures configured && locked && delivers ==>
                && outbox.tables.State() == old(outbox.tables.State()).(jobs := old(outbox.tables.jobs) - Ids(batch))
                && r.delivered == |Ids(batch)| && r.failed == 0
      ensures configured && locked && !delivers ==>
                && r.delivered == 0 && r.failed == |batch|
                && outbox.tables.State() == old(outbox.tables.State()).(jobs :=
                     RescheduledAll(
                       pacing, Leased(old(outbox.tables.jobs), Ids(batch), now + pacing.leaseMs), batch, now))
    {
      batch := [];
      if !configured || !locked {
        return DrainResult(0, 0, false), [];
      }
      var claimed := outbox.Claim(pacing.batchSize, now, pacing.leaseMs);
      batch := claimed;
      ghost var jobs := old(outbox.tables.jobs);
      assert Ids(claimed) <= jobs.Keys;
      assert Leased(jobs, {}, now + pacing.leaseMs) == jobs;
      if claimed == [] {
        assert Ids(claimed) == {};
        assert jobs - {} == jobs;
        return DrainResult(0, 0, true), claimed;
      }
      if !delivers {
        RescheduleAll(claimed, now);
        return DrainResult(0, |claimed|, true), claimed;
      }
      assert Leased(jobs, Ids(claimed), now + pacing.leaseMs).Keys == jobs.Keys;
      assert Leased(jobs, Ids(claimed), now + pacing.leaseMs) - Ids(claimed) == jobs - Ids(claimed);
      assert jobs.Keys * Ids(claimed) == Ids(claimed);
      var removed := outbox.Complete(claimed);
      r := DrainResult(removed, 0, true);
    }
  }

  /** A drain that delivers is three steps of a run: claim, deliver, complete. */
  lemma DrainIsThreeSteps(p: Pipeline, w: nat, batch: seq<Delivery>, limit: nat, now: nat, until: nat)
    requires w !in p.flights && IsClaim(p.a.jobs, batch, limit, now)
    ensures var q := Next(p, Claim(w, batch, limit, now, until));
            Possible(q, Deliver(w)) && Possible(Next(q, Deliver(w)), Complete(w))
            && Next(Next(q, Deliver(w)), Complete(w)).a == p.a.(jobs := p.a.jobs - Ids(batch))
            && Next(Next(q, Deliver(w)), Complete(w)).completed == p.completed + Ids(batch)
  {
    assert Leased(p.a.jobs, Ids(batch), until) - Ids(batch) == p.a.jobs - Ids(batch);
    assert Leased(p.a.jobs, Ids(batch), until).Keys == p.a.jobs.Keys;
    assert p.a.jobs.Keys * Ids(batch) == Ids(batch);
  }

  // ---- retention ----

  datatype Policy = Policy(retentionDays: nat, maxRows: Option<nat>, batchSize: nat, maxBatches: nat)

  /** Records from before this instant have aged. */
  function Cutoff(policy: Policy, now: int): int {
    now - policy.retentionDays * 86_400_000
  }

  datatype SweepResult = SweepResult(agedDeleted: nat, ceilingDeleted: nat, undeliveredDropped: nat,
      exhaustedBudget: bool, ranHere: bool)

  /** What a pass did, told from the tables: the aged rows and the over-ceiling rows it removed. */
  ghost predicate Swept(before: Audit, after: Audit, cutoff: int, aged: set<string>, over: set<string>) {
    && aged <= Aged(before, cutoff)
    && aged !! over && over <= before.logs.Keys
    && after.logs == before.logs - (aged + over)
    && after.jobs == before.jobs - over
    && after.drops == before.drops + |before.jobs.Keys * over|
    && OlderThanRest(before.logs, after.logs, over)
  }

  /** Nothing left to do: no aged record without a pending delivery, and at most the ceiling's rows. */
  ghost predicate Settled(a: Audit, cutoff: int, maxRows: Option<nat>) {
    Aged(a, cutoff) == {} && (maxRows.Some? ==> |a.logs| <= maxRows.value)
  }

  lemma MinusNothing<V>(m: map<string, V>)
    ensures m - {} == m
  {
  }

  lemma MinusTwice<V>(m: map<string, V>, a: set<string>, b: set<string>)
    ensures m - a - b == m - (a + b)
  {
  }

  lemma DroppedNothing(a: Audit)
    ensures Dropped(a, {}) == a && a.jobs.Keys * {} == {}
  {
    MinusNothing(a.logs);
    MinusNothing(a.jobs);
    assert a.jobs.Keys * {} == {};
  }

  lemma SplitMeet(all: set<string>, a: set<string>, b: set<string>)
    requires a !! b
    ensures |all * (a + b)| == |all * a| + |(all - a) * b|
  {
    assert all * (a + b) == all * a + (all - a) * b;
    AddSizes(all * a, (all - a) * b);
  }

  lemma SweptNothing(a: Audit, cutoff: int)
    ensures Swept(a, a, cutoff, {}, {})
  {
    MinusNothing(a.logs);
    MinusNothing(a.jobs);
    assert a.jobs.Keys * {} == {};
  }

  lemma AgedLeft(before: Audit, mid: Audit, cutoff: int, aged: set<string>)
    requires mid.logs == before.logs - aged && mid.jobs == before.jobs
    ensures Aged(mid, cutoff) == Aged(before, cutoff) - aged
  {
  }

  lemma SweptAged(before: Audit, mid: Audit, after: Audit, cutoff: int, aged: set<string>, more: set<string>)
    requires Swept(before, mid, cutoff, aged, {}) && more <= Aged(mid, cutoff)
    requires after == mid.(logs := mid.logs - more)
    ensures Swept(before, after, cutoff, aged + more, {}) && |aged + more| == |aged| + |more|
    ensures Aged(after, cutoff) == Aged(mid, cutoff) - more
  {
    MinusNothing(before.jobs);
    assert aged + {} == aged && aged + more + {} == aged + more;
    MinusTwice(before.logs, aged, more);
    AgedLeft(before, mid, cutoff, aged);
    AgedLeft(mid, after, cutoff, more);
    AddSizes(aged, more);
  }

  lemma LogsOver(before: Logs, mid: Logs, after: Logs, over: set<string>, more: set<string>)
    requires mid == before - over && more <= mid.Keys && after == mid - more
    ensures after == before - (over + more) && mid.Keys <= before.Keys
    ensures over !! more && |over + more| == |over| + |more|
  {
    KeysWithout(before, over);
    AddSizes(over, more);
    MinusTwice(before, over, more);
  }

  lemma JobsOver(before: Queue, mid: Queue, over: set<string>, more: set<string>)
    requires mid == before - over && over !! more
    ensures mid - more == before - (over + more)
    ensures |before.Keys * (over + more)| == |before.Keys * over| + |mid.Keys * more|
  {
    KeysWithout(before, over);
    SplitMeet(before.Keys, over, more);
    MinusTwice(before, over, more);
  }

  lemma RemovedAreOlder(before: Logs, mid: Logs, after: Logs, over: set<string>, more: set<string>)
    requires OlderThanRest(before, mid, over) && mid == before - over && more <= mid.Keys && after == mid - more
    requires forall a, b | a in more && b in mid.Keys - more :: mid[a] <= mid[b]
    ensures OlderThanRest(before, after, over + more)
  {
  }

  /** `over` were the oldest records, removed with their jobs and recorded where undelivered. */
  ghost predicate Capped(before: Audit, after: Audit, over: set<string>) {
    && after == Dropped(before, over)
    && over <= before.logs.Keys
    && OlderThanRest(before.logs, after.logs, over)
  }

  ghost predicate OlderThanRest(before: Logs, after: Logs, over: set<string>) {
    forall a, b | a in over && b in after :: a in before && before[a] <= after[b]
  }

  lemma CappedNothing(a: Audit)
    ensures Capped(a, a, {}) && a.jobs.Keys * {} == {}
  {
    DroppedNothing(a);
  }

  lemma DroppedTwice(a: Audit, over: set<string>, more: set<string>)
    requires over !! more
    ensures Dropped(Dropped(a, over), more) == Dropped(a, over + more)
    ensures |a.jobs.Keys * (over + more)| == |a.jobs.Keys * over| + |(a.jobs - over).Keys * more|
  {
    MinusTwice(a.logs, over, more);
    JobsOver(a.jobs, a.jobs - over, over, more);
  }

  lemma CappedMore(before: Audit, over: set<string>, more: set<string>)
    requires Capped(before, Dropped(before, over), over) && more <= (before.logs - over).Keys
    requires forall a, b | a in more && b in (before.logs - over).Keys - more :: before.logs[a] <= before.logs[b]
    ensures Capped(before, Dropped(Dropped(before, over), more), over + more)
    ensures |over + more| == |over| + |more|
    ensures |before.jobs.Keys * (over + more)| == |before.jobs.Keys * over| + |(before.jobs - over).Keys * more|
  {
    var mid := before.logs - over;
    LogsOver(before.logs, mid, mid - more, over, more);
    RemovedAreOlder(before.logs, mid, mid - more, over, more);
    DroppedTwice(before, over, more);
  }

  lemma SweptMeets(before: Audit, mid: Audit, cutoff: int, aged: set<string>)
    requires Swept(before, mid, cutoff, aged, {})
    ensures mid.logs == before.logs - aged && mid.jobs == before.jobs && mid.drops == before.drops
    ensures before.jobs.Keys * {} == {}
  {
    MinusNothing(before.jobs);
    assert aged + {} == aged && before.jobs.Keys * {} == {};
  }

  lemma SweptThenCapped(before: Audit, mid: Audit, after: Audit, cutoff: int, aged: set<string>, over: set<string>)
    requires Swept(before, mid, cutoff, aged, {}) && Capped(mid, after, over)
    ensures Swept(before, after, cutoff, aged, over)
  {
    SweptMeets(before, mid, cutoff, aged);
    MinusTwice(before.logs, aged, over);
    KeysWithout(before.logs, aged);
  }

  lemma DroppingAgesNothing(mid: Audit, after: Audit, cutoff: int, more: set<string>)
    requires after == Dropped(mid, more)
    ensures Aged(after, cutoff) <= Aged(mid, cutoff)
  {
  }

  lemma LogsWithout(logs: Logs, victims: set<string>)
    requires victims <= logs.Keys
    ensures |logs - victims| == |logs| - |victims|
  {
    assert (logs - victims).Keys == logs.Keys - victims;
    assert |(logs - victims).Keys| == |logs - victims| && |logs.Keys| == |logs|;
    AddSizes(logs.Keys - victims, victims);
    assert (logs.Keys - victims) + victims == logs.Keys;
  }

  lemma NextBatch(spent: nat, size: nat)
    ensures (spent + 1) * size == spent * size + size
  {
  }

  lemma SplitBudget(spent: nat, all: nat, size: nat)
    requires spent <= all
    ensures spent * size + (all - spent) * size == all * size
  {
  }

  /** The rows of `n` full batches. */
  function Rows(n: nat, size: nat): nat {
    if n == 0 then 0 else Rows(n - 1, size) + size
  }

  lemma {:induction false} RowsAre(n: nat, size: nat)
    ensures Rows(n, size) == n * size
  {
    if n > 0 {
      RowsAre(n - 1, size);
      NextBatch(n - 1, size);
    }
  }

  lemma AlmostAll(full: nat, spent: nat, all: nat, size: nat)
    requires full <= spent <= full + 1 && spent <= all
    ensures full * size + (all - spent) * size >= (all - 1) * size
    ensures spent == all ==> full * size >= (all - 1) * size
  {
    SplitBudget(spent, all, size);
    assert (all - 1) * size == all * size - size && (full + 1) * size == full * size + size;
    MoreBatches(spent, full + 1, size);
  }

  lemma MoreBatches(spent: nat, all: nat, size: nat)
    requires spent <= all
    ensures spent * size <= all * size
  {
    assert all * size == spent * size + (all - spent) * size;
    assert (all - spent) * size >= 0;
  }

  lemma RemovingAged(a: Audit, cutoff: int, aged: set<string>)
    requires aged <= Aged(a, cutoff)
    ensures Without(a, aged) == a.(logs := a.logs - aged)
  {
    assert a.jobs - aged == a.jobs;
  }

  lemma DroppingAfterAging(before: Audit, after: Audit, cutoff: int, aged: set<string>, over: set<string>)
    requires Swept(before, after, cutoff, aged, over)
    ensures over <= (before.logs - aged).Keys
    ensures Dropped(before.(logs := before.logs - aged), over) == after
  {
    MinusTwice(before.logs, aged, over);
    KeysWithout(before.logs, aged);
  }

  /** A pass is two steps of a run: the aged rows go, then the rows over the ceiling. */
  lemma SweepIsTwoSteps(p: Pipeline, after: Audit, cutoff: int, aged: set<string>, over: set<string>)
    requires Swept(p.a, after, cutoff, aged, over)
    ensures Possible(p, SweepAged(aged, cutoff)) && Possible(Next(p, SweepAged(aged, cutoff)), SweepCeiling(over))
    ensures Next(Next(p, SweepAged(aged, cutoff)), SweepCeiling(over)).a == after
  {
    RemovingAged(p.a, cutoff, aged);
    DroppingAfterAging(p.a, after, cutoff, aged, over);
  }

  class RetentionSweeper {
    const tables: AuditTables
    const policy: Policy

    constructor (tables: AuditTables, policy: Policy)
      ensures this.tables == tables && this.policy == policy
    {
      this.tables := tables;
      this.policy := policy;
    }

    /** Delete one batch of aged records that have no pending delivery. */
    method AgeBatch(cutoff: int) returns (deleted: nat, ghost victims: set<string>)
      modifies tables
      ensures Oldest(old(tables.logs), Aged(old(tables.State()), cutoff), policy.batchSize, victims)
      ensures tables.State() == old(tables.State()).(logs := old(tables.logs) - victims)
      ensures deleted == |victims|
    {
      var candidates := set id | id in tables.logs && tables.logs[id] < cutoff && id !in tables.jobs;
      var rows := TakeOldest(tables.logs, candidates, policy.batchSize);
      tables.logs := tables.logs - rows;
      deleted, victims := |rows|, rows;
    }

    /** Delete one oldest-first batch of the rows above the ceiling, recording undelivered ones. */
    method CeilingBatch(maxRows: nat) returns (deleted: nat, undelivered: nat, ghost victims: set<string>)
      modifies tables
      ensures |old(tables.logs)| <= maxRows ==> victims == {}
      ensures |old(tables.logs)| > maxRows ==>
                var excess := |old(tables.logs)| - maxRows;
                Oldest(old(tables.logs), old(tables.logs).Keys,
                       if excess < policy.batchSize then excess else policy.batchSize, victims)
      ensures tables.State() == AuditModel.Dropped(old(tables.State()), victims)
      ensures deleted == |victims| && undelivered == |old(tables.jobs).Keys * victims|
    {
      var total := |tables.logs|;
      if total <= maxRows {
        DroppedNothing(tables.State());
        return 0, 0, {};
      }
      var excess := if total - maxRows < policy.batchSize then total - maxRows else policy.batchSize;
      var rows := TakeOldest(tables.logs, tables.logs.Keys, excess);
      undelivered := DeleteMany(rows);
      deleted, victims := |rows|, rows;
    }

    /** Delete records with their jobs, and record the undelivered ones in the same transaction. */
    method DeleteMany(rows: set<string>) returns (undelivered: nat)
      modifies tables
      ensures tables.State() == AuditModel.Dropped(old(tables.State()), rows)
      ensures undelivered == |old(tables.jobs).Keys * rows|
    {
      undelivered := |tables.jobs.Keys * rows|;
      tables.logs := tables.logs - rows;
      tables.jobs := tables.jobs - rows;
      if undelivered > 0 {
        tables.drops := tables.drops + undelivered;
      }
    }

    /** An aged batch as a step of a pass that has already removed `aged`. */
    method AgeStep(cutoff: int, ghost before: Audit, ghost aged: set<string>)
        returns (deleted: nat, ghost more: set<string>)
      requires Swept(before, tables.State(), cutoff, aged, {})
      modifies tables
      ensures Swept(before, tables.State(), cutoff, aged + more, {})
      ensures |aged + more| == |aged| + deleted && deleted <= policy.batchSize
      ensures deleted < policy.batchSize ==> Aged(tables.State(), cutoff) == {}
    {
      ghost var mid := tables.State();
      deleted, more := AgeBatch(cutoff);
      SweptAged(before, mid, tables.State(), cutoff, aged, more);
    }

    /** The aged phase: batches until one comes back short, the budget ends or the lock is lost. */
    method AgePhase(cutoff: int, free: nat -> bool)
        returns (spent: nat, locked: bool, done: bool, deleted: nat, ghost aged: set<string>, ghost full: nat)
      modifies tables
      ensures Swept(old(tables.State()), tables.State(), cutoff, aged, {})
      ensures spent <= policy.maxBatches && deleted == |aged| <= Rows(spent, policy.batchSize)
      ensures locked && done ==> Aged(tables.State(), cutoff) == {}
      ensures locked && !done ==> spent == policy.maxBatches
      ensures deleted >= Rows(full, policy.batchSize) && full <= spent <= full + 1
              && (locked && !done ==> full == spent)
      ensures !locked ==> spent < policy.maxBatches && !free(spent)
    {
      ghost var before := tables.State();
      SweptNothing(before, cutoff);
      spent, locked, done, deleted, aged, full := 0, true, false, 0, {}, 0;
      while spent < policy.maxBatches && !done
        invariant spent <= policy.maxBatches && locked
        invariant Swept(before, tables.State(), cutoff, aged, {})
        invariant deleted == |aged| <= Rows(spent, policy.batchSize)
        invariant deleted >= Rows(full, policy.batchSize) && full <= spent <= full + 1 && (!done ==> full == spent)
        invariant done ==> Aged(tables.State(), cutoff) == {}
        decreases policy.maxBatches - spent, !done
      {
        if !free(spent) {
          locked := false;
          return;
        }
        var count;
        ghost var victims;
        count, victims := AgeStep(cutoff, before, aged);
        spent, deleted, aged := spent + 1, deleted + count, aged + victims;
        done := count < policy.batchSize;
        if !done { full := full + 1; }
      }
    }

    /** A ceiling batch as a step of a pass that has already removed `over`. */
    method CeilingStep(cutoff: int, maxRows: nat, ghost before: Audit, ghost over: set<string>)
      returns (deleted: nat, undelivered: nat, ghost more: set<string>)
      requires Capped(before, tables.State(), over) && (over != {} ==> |tables.logs| >= maxRows)
      modifies tables
      ensures Capped(before, tables.State(), over + more)
      ensures |over + more| == |over| + deleted && deleted <= policy.batchSize
      ensures |before.jobs.Keys * (over + more)| == |before.jobs.Keys * over| + undelivered
      ensures over + more != {} ==> |tables.logs| >= maxRows
      ensures deleted < policy.batchSize ==> |tables.logs| <= maxRows
      ensures Aged(tables.State(), cutoff) <= Aged(old(tables.State()), cutoff)
    {
      ghost var mid := tables.State();
      deleted, undelivered, more := CeilingBatch(maxRows);
      if more == {} {
        assert |mid.logs| <= maxRows || deleted == policy.batchSize;
      }
      LogsWithout(mid.logs, more);
      CappedMore(before, over, more);
      DroppingAgesNothing(mid, tables.State(), cutoff, more);
    }

    /** The ceiling phase, with `spent` batches already used and `budget` left. */
    method CeilingPhase(cutoff: int, free: nat -> bool, maxRows: nat, spent: nat, budget: nat)
      returns (locked: bool, done: bool, deleted: nat, undelivered: nat, ghost over: set<string>)
      modifies tables
      ensures Capped(old(tables.State()), tables.State(), over)
      ensures deleted == |over| <= budget * policy.batchSize && undelivered == |old(tables.jobs).Keys * over|
      ensures over != {} ==> |tables.logs| >= maxRows
      ensures locked && done ==> |tables.logs| <= maxRows
      ensures locked && !done ==> deleted == budget * policy.batchSize
      ensures !locked ==> exists k :: spent <= k < spent + budget && !free(k)
      ensures Aged(tables.State(), cutoff) <= Aged(old(tables.State()), cutoff)
    {
      ghost var before := tables.State();
      CappedNothing(before);
      locked, done, deleted, undelivered, over := true, false, 0, 0, {};
      var used := 0;
      while used < budget && !done
        invariant used <= budget && locked
        invariant Capped(before, tables.State(), over)
        invariant deleted == |over| <= used * policy.batchSize && undelivered == |before.jobs.Keys * over|
        invariant over != {} ==> |tables.logs| >= maxRows
        invariant done ==> |tables.logs| <= maxRows
        invariant !done ==> deleted == used * policy.batchSize
        invariant Aged(tables.State(), cutoff) <= Aged(before, cutoff)
        decreases budget - used, !done
      {
        if !free(spent + used) {
          locked := false;
          break;
        }
        var count, dropped;
        ghost var more;
        count, dropped, more := CeilingStep(cutoff, maxRows, before, over);
        NextBatch(used, policy.batchSize);
        used, deleted, undelivered, over := used + 1, deleted + count, undelivered + dropped, over + more;
        done := count < policy.batchSize;
      }
      MoreBatches(used, budget, policy.batchSize);
    }

    /** The two phases of a pass, sharing one budget. */
    method Phases(cutoff: int, free: nat -> bool)
        returns (r: SweepResult, ghost aged: set<string>, ghost over: set<string>)
      modifies tables
      ensures Swept(old(tables.State()), tables.State(), cutoff, aged, over)
      ensures r.agedDeleted == |aged| && r.ceilingDeleted == |over|
      ensures r.undeliveredDropped == |old(tables.jobs).Keys * over|
      ensures r.agedDeleted + r.ceilingDeleted <= policy.maxBatches * policy.batchSize
      ensures over != {} ==> policy.maxRows.Some? && |tables.logs| >= policy.maxRows.value
      ensures r.ranHere && !r.exhaustedBudget ==> Settled(tables.State(), cutoff, policy.maxRows)
      ensures r.exhaustedBudget
              ==> r.ranHere && r.agedDeleted + r.ceilingDeleted >= (policy.maxBatches - 1) * policy.batchSize
      ensures (forall k | 0 <= k < policy.maxBatches :: free(k)) ==> r.ranHere
    {
      ghost var before := tables.State();
      var spent, locked, done, agedDeleted;
      ghost var full;
      spent, locked, done, agedDeleted, aged, full := AgePhase(cutoff, free);
      RowsAre(spent, policy.batchSize);
      RowsAre(full, policy.batchSize);
      AlmostAll(full, spent, policy.maxBatches, policy.batchSize);
      MoreBatches(spent, policy.maxBatches, policy.batchSize);
      ghost var mid := tables.State();
      SweptMeets(before, mid, cutoff, aged);
      over := {};
      r := SweepResult(agedDeleted, 0, 0,
                       locked && (!done || (policy.maxRows.Some? && spent == policy.maxBatches)), locked);
      if !locked || !done || policy.maxRows.None? || spent == policy.maxBatches {
        return;
      }
      var deleted, undelivered;
      locked, done, deleted, undelivered, over :=
          CeilingPhase(cutoff, free, policy.maxRows.value, spent, policy.maxBatches - spent);
      SweptThenCapped(before, mid, tables.State(), cutoff, aged, over);
      SplitBudget(spent, policy.maxBatches, policy.batchSize);
      r := SweepResult(agedDeleted, deleted, undelivered, locked && !done, locked);
    }

    /**
     * One pass: age batches, then ceiling batches, sharing one budget. `free(k)` says whether the
     * advisory lock could be taken for the k-th batch. A pass that calls its budget exhausted ran all of
     * it, and every batch but at most one was full.
     */
    method Sweep(now: int, free: nat -> bool) returns (r: SweepResult, ghost aged: set<string>, ghost over: set<string>)
      modifies tables
      ensures Swept(old(tables.State()), tables.State(), Cutoff(policy, now), aged, over)
      ensures r.agedDeleted == |aged| && r.ceilingDeleted == |over|
      ensures r.undeliveredDropped == |old(tables.jobs).Keys * over|
      ensures r.agedDeleted + r.ceilingDeleted <= policy.maxBatches * policy.batchSize
      ensures over != {} ==> policy.maxRows.Some? && |tables.logs| >= policy.maxRows.value
      ensures r.ranHere && !r.exhaustedBudget ==> Settled(tables.State(), Cutoff(policy, now), policy.maxRows)
      ensures r.exhaustedBudget
              ==> r.ranHere && r.agedDeleted + r.ceilingDeleted >= (policy.maxBatches - 1) * policy.batchSize
      ensures (forall k | 0 <= k < policy.maxBatches :: free(k)) ==> r.ranHere
      ensures forall id | id in aged ::
                && id in old(tables.logs) && id !in old(tables.jobs)
                && old(tables.logs)[id] + policy.retentionDays * 24 * 60 * 60 * 1000 < now
      ensures r.ranHere && !r.exhaustedBudget ==>
                && (policy.maxRows.Some? ==> |tables.logs| <= policy.maxRows.value)
                && forall id | id in tables.logs && id !in tables.jobs ::
                     tables.logs[id] + policy.retentionDays * 24 * 60 * 60 * 1000 >= now
    {
      r, aged, over := Phases(Cutoff(policy, now), free);
    }
  }
}
