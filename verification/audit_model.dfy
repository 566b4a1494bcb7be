/**
 * The audit delivery queue and the retention sweeper that may remove the same rows
 * (apps/api/src/auth/audit-delivery.outbox.ts, audit-retention.sweeper.ts), and what any
 * interleaving of workers, crashes and sweeps conserves.
 */
module AuditModel {
  datatype Delivery = Delivery(id: string, attempts: nat)

  datatype AuditJob = AuditJob(attempts: nat, createdAt: nat, nextAttemptAt: nat)

  type Logs = map<string, nat>        // audit record id -> createdAt
  type Queue = map<string, AuditJob>  // audit record id -> its delivery job

  /** `drops` is the recorded total of records dropped undelivered. */
  datatype Audit = Audit(logs: Logs, jobs: Queue, drops: nat)

  // ---- what the queue operations do ----

  /** One job per record; an existing job keeps its schedule. */
  function Enqueue(a: Audit, id: string, t: nat): Audit {
    if id in a.jobs then a else a.(jobs := a.jobs[id := AuditJob(0, t, t)])
  }

  function Ids(batch: seq<Delivery>): set<string> {
    set i | 0 <= i < |batch| :: batch[i].id
  }

  /** A batch a claim may lease at `now`: due jobs, oldest first, as many as fit. */
  ghost predicate IsClaim(jobs: Queue, batch: seq<Delivery>, limit: nat, now: nat) {
    && |batch| <= limit
    && (forall i | 0 <= i < |batch| :: batch[i].id in jobs && jobs[batch[i].id].nextAttemptAt <= now
                                       && batch[i].attempts == jobs[batch[i].id].attempts)
    && (forall i, j | 0 <= i < j < |batch| ::
          batch[i].id != batch[j].id && jobs[batch[i].id].createdAt <= jobs[batch[j].id].createdAt)
    && (forall id | id in jobs && jobs[id].nextAttemptAt <= now && id !in Ids(batch) ::
          |batch| == limit && forall i | 0 <= i < |batch| :: jobs[batch[i].id].createdAt <= jobs[id].createdAt)
  }

  /** What a claim gets: due jobs, no due job left out that is older, and none left out at all unless it is full. */
  lemma ClaimIsOldestDue(jobs: Queue, batch: seq<Delivery>, limit: nat, now: nat)
    requires IsClaim(jobs, batch, limit, now)
    ensures |batch| <= limit
    ensures forall i | 0 <= i < |batch| ::
              && batch[i].id in jobs && jobs[batch[i].id].nextAttemptAt <= now
              && batch[i].attempts == jobs[batch[i].id].attempts
    ensures forall i, j | 0 <= i < j < |batch| ::
              batch[i].id != batch[j].id && jobs[batch[i].id].createdAt <= jobs[batch[j].id].createdAt
    ensures forall id | id in jobs && jobs[id].nextAttemptAt <= now ::
              || (exists i :: 0 <= i < |batch| && batch[i].id == id)
              || (|batch| == limit
                  && forall i | 0 <= i < |batch| :: jobs[batch[i].id].createdAt <= jobs[id].createdAt)
  {
  }

  /** Leasing hides the jobs until `until` and removes nothing. */
  function Leased(jobs: Queue, ids: set<string>, until: nat): Queue {
    map id | id in jobs :: if id in ids then jobs[id].(nextAttemptAt := until) else jobs[id]
  }

  function Rescheduled(jobs: Queue, d: Delivery, until: nat): Queue {
    if d.id in jobs then jobs[d.id := jobs[d.id].(attempts := d.attempts + 1, nextAttemptAt := until)] else jobs
  }

  /** Deleting a record deletes its job with it. */
  function Without(a: Audit, ids: set<string>): Audit {
    a.(logs := a.logs - ids, jobs := a.jobs - ids)
  }

  /** The ceiling records how many of the records it removes were never delivered. */
  function Dropped(a: Audit, ids: set<string>): Audit {
    Without(a, ids).(drops := a.drops + |a.jobs.Keys * ids|)
  }

  function Aged(a: Audit, cutoff: int): set<string> {
    set id | id in a.logs && a.logs[id] < cutoff && id !in a.jobs
  }

  /** A first enqueue makes the record's job due at once with no attempt spent; a later one changes nothing. */
  lemma EnqueuedOnce(a: Audit, id: string, t: nat, later: nat)
    requires id !in a.jobs
    ensures var e := Enqueue(a, id, t);
            && id in e.jobs && e.jobs[id].attempts == 0 && e.jobs[id].nextAttemptAt == t && e.jobs[id].createdAt == t
            && e.jobs.Keys == a.jobs.Keys + {id} && (forall j | j in a.jobs :: e.jobs[j] == a.jobs[j])
            && e.logs == a.logs && e.drops == a.drops && Enqueue(e, id, later) == e
  {
  }

  // ---- runs of many workers and sweepers ----

  /** A leased batch a worker holds; `accepted` once the transport returned normally. */
  datatype Flight = Flight(batch: seq<Delivery>, accepted: bool)

  /** The tables, the batches in flight, and the history of every job. */
  datatype Pipeline = Pipeline(
    a: Audit,
    flights: map<nat, Flight>,
    enqueued: set<string>,
    completed: set<string>,
    dropped: set<string>,
    delivered: set<string>)

  datatype Step =
    | Record(id: string, forward: bool, at: nat)
    | Claim(worker: nat, batch: seq<Delivery>, limit: nat, now: nat, until: nat)
    | Deliver(worker: nat)
    | Complete(worker: nat)
    | Reschedule(worker: nat, i: nat, until: nat)
    | Abandon(worker: nat)            // a crash, or the end of a failed drain
    | SweepAged(victims: set<string>, cutoff: int)
    | SweepCeiling(victims: set<string>)

  ghost predicate Possible(p: Pipeline, s: Step) {
    match s
    case Record(id, _, _) => id !in p.a.logs && id !in p.enqueued
    case Claim(w, batch, limit, now, _) => w !in p.flights && IsClaim(p.a.jobs, batch, limit, now)
    case Deliver(w) => w in p.flights
    case Complete(w) => w in p.flights && p.flights[w].accepted
    case Reschedule(w, i, _) => w in p.flights && i < |p.flights[w].batch|
    case Abandon(w) => w in p.flights
    case SweepAged(victims, cutoff) => victims <= Aged(p.a, cutoff)
    case SweepCeiling(victims) => victims <= p.a.logs.Keys
  }

  ghost function Next(p: Pipeline, s: Step): Pipeline
    requires Possible(p, s)
  {
    match s
    case Record(id, forward, at) =>
      var a := p.a.(logs := p.a.logs[id := at]);
      if forward then p.(a := Enqueue(a, id, at), enqueued := p.enqueued + {id}) else p.(a := a)
    case Claim(w, batch, _, _, until) =>
      p.(a := p.a.(jobs := Leased(p.a.jobs, Ids(batch), until)), flights := p.flights[w := Flight(batch, false)])
    case Deliver(w) =>
      p.(flights := p.flights[w := p.flights[w].(accepted := true)], delivered := p.delivered + Ids(p.flights[w].batch))
    case Complete(w) =>
      var ids := Ids(p.flights[w].batch);
      p.(a := p.a.(jobs := p.a.jobs - ids), flights := p.flights - {w}, completed := p.completed + p.a.jobs.Keys * ids)
    case Reschedule(w, i, until) =>
      p.(a := p.a.(jobs := Rescheduled(p.a.jobs, p.flights[w].batch[i], until)))
    case Abandon(w) => p.(flights := p.flights - {w})
    case SweepAged(victims, _) => p.(a := Without(p.a, victims))
    case SweepCeiling(victims) => p.(a := Dropped(p.a, victims), dropped := p.dropped + p.a.jobs.Keys * victims)
  }

  /** `all` falls into three parts without overlap. */
  ghost predicate Parts(all: set<string>, a: set<string>, b: set<string>, c: set<string>) {
    all == a + b + c && a !! b && a !! c && b !! c
  }

  /** Every job ever enqueued is exactly one of queued, completed or dropped, and completed means delivered. */
  ghost predicate Conserved(p: Pipeline) {
    && p.a.jobs.Keys <= p.a.logs.Keys
    && Parts(p.enqueued, p.a.jobs.Keys, p.completed, p.dropped)
    && p.a.drops == |p.dropped|
    && p.completed <= p.delivered
    && AcceptedDelivered(p.flights, p.delivered)
  }

  ghost predicate AcceptedDelivered(flights: map<nat, Flight>, delivered: set<string>) {
    forall w | w in flights && flights[w].accepted :: Ids(flights[w].batch) <= delivered
  }

  lemma AddSizes(a: set<string>, b: set<string>)
    requires a !! b
    ensures |a + b| == |a| + |b|
  {
  }

  lemma MovePart(all: set<string>, a: set<string>, b: set<string>, c: set<string>, m: set<string>)
    requires Parts(all, a, b, c)
    ensures Parts(all, a - m, b + a * m, c)
    ensures |b + a * m| == |b| + |a * m|
  {
    AddSizes(b, a * m);
  }

  lemma SwapParts(all: set<string>, a: set<string>, b: set<string>, c: set<string>)
    requires Parts(all, a, b, c)
    ensures Parts(all, a, c, b)
  {
  }

  lemma NewPart(all: set<string>, a: set<string>, b: set<string>, c: set<string>, id: string)
    requires Parts(all, a, b, c) && id !in all
    ensures Parts(all + {id}, a + {id}, b, c)
  {
  }

  lemma KeysWith<V>(m: map<string, V>, id: string, v: V)
    ensures m[id := v].Keys == m.Keys + {id}
  {
  }

  lemma KeysWithout<V>(m: map<string, V>, ids: set<string>)
    ensures (m - ids).Keys == m.Keys - ids
  {
  }

  lemma RecordConserves(p: Pipeline, id: string, forward: bool, at: nat)
    requires Conserved(p) && Possible(p, Record(id, forward, at))
    ensures Conserved(Next(p, Record(id, forward, at)))
  {
    if forward {
      NewPart(p.enqueued, p.a.jobs.Keys, p.completed, p.dropped, id);
      KeysWith(p.a.jobs, id, AuditJob(0, at, at));
    }
    KeysWith(p.a.logs, id, at);
  }

  /** Steps that change neither which jobs exist nor which were completed or dropped. */
  lemma QueueStepConserves(p: Pipeline, s: Step)
    requires Conserved(p) && Possible(p, s)
    requires s.Claim? || s.Deliver? || s.Reschedule? || s.Abandon?
    ensures Conserved(Next(p, s))
  {
    assert Next(p, s).a.jobs.Keys == p.a.jobs.Keys;
  }

  lemma CompleteConserves(p: Pipeline, w: nat)
    requires Conserved(p) && Possible(p, Complete(w))
    ensures Conserved(Next(p, Complete(w)))
  {
    var ids := Ids(p.flights[w].batch);
    KeysWithout(p.a.jobs, ids);
    MovePart(p.enqueued, p.a.jobs.Keys, p.completed, p.dropped, ids);
  }

  lemma SweepAgedConserves(p: Pipeline, victims: set<string>, cutoff: int)
    requires Conserved(p) && Possible(p, SweepAged(victims, cutoff))
    ensures Conserved(Next(p, SweepAged(victims, cutoff)))
  {
    KeysWithout(p.a.jobs, victims);
    KeysWithout(p.a.logs, victims);
    assert p.a.jobs.Keys - victims == p.a.jobs.Keys;
  }

  lemma SweepCeilingConserves(p: Pipeline, victims: set<string>)
    requires Conserved(p) && Possible(p, SweepCeiling(victims))
    ensures Conserved(Next(p, SweepCeiling(victims)))
  {
    KeysWithout(p.a.jobs, victims);
    KeysWithout(p.a.logs, victims);
    SwapParts(p.enqueued, p.a.jobs.Keys, p.completed, p.dropped);
    MovePart(p.enqueued, p.a.jobs.Keys, p.dropped, p.completed, victims);
    SwapParts(p.enqueued, p.a.jobs.Keys - victims, p.dropped + p.a.jobs.Keys * victims, p.completed);
  }

  lemma StepConserves(p: Pipeline, s: Step)
    requires Conserved(p) && Possible(p, s)
    ensures Conserved(Next(p, s))
  {
    match s {
      case Record(id, forward, at) => RecordConserves(p, id, forward, at);
      case Complete(w) => CompleteConserves(p, w);
      case SweepAged(victims, cutoff) => SweepAgedConserves(p, victims, cutoff);
      case SweepCeiling(victims) => SweepCeilingConserves(p, victims);
      case _ => QueueStepConserves(p, s);
    }
  }

  ghost predicate Runs(p: Pipeline, steps: seq<Step>)
    decreases |steps|
  {
    steps == [] || (Possible(p, steps[0]) && Runs(Next(p, steps[0]), steps[1..]))
  }

  ghost function Final(p: Pipeline, steps: seq<Step>): Pipeline
    requires Runs(p, steps)
    decreases |steps|
  {
    if steps == [] then p else Final(Next(p, steps[0]), steps[1..])
  }

  lemma {:induction false} RunConserves(p: Pipeline, steps: seq<Step>)
    requires Conserved(p) && Runs(p, steps)
    ensures Conserved(Final(p, steps))
    decreases |steps|
  {
    if steps != [] {
      StepConserves(p, steps[0]);
      RunConserves(Next(p, steps[0]), steps[1..]);
    }
  }

  const START := Pipeline(Audit(map[], map[], 0), map[], {}, {}, {}, {})

  /**
   * Conservation over every run: what was enqueued is still queued, was removed after a delivery
   * that returned normally, or is in the recorded total of drops.
   */
  lemma EnqueuedIsAccountedFor(steps: seq<Step>)
    requires Runs(START, steps)
    ensures var p := Final(START, steps);
            && |p.enqueued| == |p.a.jobs| + |p.completed| + p.a.drops
            && p.completed <= p.delivered
  {
    RunConserves(START, steps);
    var p := Final(START, steps);
    AddSizes(p.a.jobs.Keys, p.completed);
    AddSizes(p.a.jobs.Keys + p.completed, p.dropped);
  }

  /** The job, if it is still queued, is not due before `until`. */
  ghost predicate Leases(jobs: Queue, id: string, until: nat) {
    id in jobs ==> jobs[id].nextAttemptAt >= until
  }

  /** Before `until`, anything may happen but a rescheduling of this very job. */
  ghost predicate Undisturbed(p: Pipeline, steps: seq<Step>, id: string, until: nat)
    decreases |steps|
  {
    steps == [] ||
    (&& Possible(p, steps[0])
     && (steps[0].Claim? ==> steps[0].now < until)
     && (steps[0].Reschedule? ==> p.flights[steps[0].worker].batch[steps[0].i].id != id)
     && Undisturbed(Next(p, steps[0]), steps[1..], id, until))
  }

  lemma StepKeepsLease(p: Pipeline, s: Step, id: string, until: nat)
    requires Possible(p, s) && id in p.enqueued && Leases(p.a.jobs, id, until)
    requires s.Claim? ==> s.now < until
    requires s.Reschedule? ==> p.flights[s.worker].batch[s.i].id != id
    ensures Leases(Next(p, s).a.jobs, id, until) && id in Next(p, s).enqueued
    ensures s.Claim? ==> id !in Ids(s.batch)
  {
  }

  lemma {:induction false} RunKeepsLease(p: Pipeline, steps: seq<Step>, id: string, until: nat)
    requires id in p.enqueued && Leases(p.a.jobs, id, until) && Undisturbed(p, steps, id, until)
    ensures forall i | 0 <= i < |steps| && steps[i].Claim? :: id !in Ids(steps[i].batch)
    decreases |steps|
  {
    if steps != [] {
      StepKeepsLease(p, steps[0], id, until);
      RunKeepsLease(Next(p, steps[0]), steps[1..], id, until);
      forall i | 0 <= i < |steps| && steps[i].Claim? ensures id !in Ids(steps[i].batch) {
        assert i > 0 ==> steps[i] == steps[1..][i - 1];
      }
    }
  }

  /** A leased job is in no claim before its lease runs out, whatever other workers and sweepers do meanwhile. */
  lemma LeaseExcludes(p: Pipeline, claim: Step, steps: seq<Step>, id: string)
    requires Conserved(p) && claim.Claim? && Possible(p, claim) && id in Ids(claim.batch)
    requires Undisturbed(Next(p, claim), steps, id, claim.until)
    ensures forall i | 0 <= i < |steps| && steps[i].Claim? :: id !in Ids(steps[i].batch)
  {
    var i :| 0 <= i < |claim.batch| && claim.batch[i].id == id;
    assert id in p.a.jobs.Keys;
    RunKeepsLease(Next(p, claim), steps, id, claim.until);
  }
}
