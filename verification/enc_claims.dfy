/**
 * A batch in flight while others enqueue (materializer.service.ts, "claim by delete"): the claim
 * has deleted its rows, and enqueues interleave with the batch's own re-insertions. An enqueue of a
 * key the batch has deleted is taken to go through at once, as the source argues. A database may make
 * it wait for the batch instead: then it is an upsert of the committed queue, `EnqueueAfterCommit`.
 */
module EncClaims {
  import opened Options
  import opened EncModel
  import opened EncOutbox

  datatype Move =
    | Enqueue(k: JobKey, at: nat)   // another transaction's upsert
    | Settle(k: JobKey, row: Job)   // the batch re-inserts a failed or continuing row, if its key is free

  /** The table the batch works on, and the keys it has inserted itself; others wait for those until it ends. */
  datatype Flight = Flight(table: Jobs, mine: set<JobKey>)

  ghost predicate Possible(f: Flight, claimed: set<JobKey>, m: Move) {
    match m
    case Enqueue(k, _) => k !in f.mine
    case Settle(k, _) => k in claimed
  }

  function Play(f: Flight, m: Move): Flight {
    match m
    case Enqueue(k, at) => f.(table := Upsert(f.table, k, at))
    case Settle(k, row) => if k in f.table then f else Flight(f.table[k := row], f.mine + {k})
  }

  ghost predicate Plays(f: Flight, claimed: set<JobKey>, moves: seq<Move>)
    decreases |moves|
  {
    moves == [] || (Possible(f, claimed, moves[0]) && Plays(Play(f, moves[0]), claimed, moves[1..]))
  }

  /** The queue once the batch commits. */
  function Committed(f: Flight, moves: seq<Move>): Jobs
    decreases |moves|
  {
    if moves == [] then f.table else Committed(Play(f, moves[0]), moves[1..])
  }

  /** The queue once the batch rolls back: as if it had never run, the enqueues apply to the rows it had claimed. */
  function RolledBack(jobs: Jobs, moves: seq<Move>): Jobs
    decreases |moves|
  {
    if moves == [] then jobs
    else RolledBack(if moves[0].Enqueue? then Upsert(jobs, moves[0].k, moves[0].at) else jobs, moves[1..])
  }

  predicate NeverEnqueued(moves: seq<Move>, k: JobKey) {
    forall i | 0 <= i < |moves| :: !(moves[i].Enqueue? && moves[i].k == k)
  }

  /** Once enqueued, a row survives whatever the batch does next. */
  lemma {:induction false} RowSurvives(f: Flight, claimed: set<JobKey>, moves: seq<Move>, k: JobKey)
    requires Plays(f, claimed, moves) && k in f.table && NeverEnqueued(moves, k)
    ensures k in Committed(f, moves) && Committed(f, moves)[k] == f.table[k]
    decreases |moves|
  {
    if moves != [] {
      assert forall i | 0 <= i < |moves[1..]| :: moves[1..][i] == moves[i + 1];
      RowSurvives(Play(f, moves[0]), claimed, moves[1..], k);
    }
  }

  /**
   * No swallowed edit: an enqueue that lands while the batch is in flight leaves its own row in the
   * committed queue. Whatever the batch fails or continues, status, schedule, attempts and cursor
   * are the enqueue's.
   */
  lemma {:induction false} NoSwallowedEdit(f: Flight, claimed: set<JobKey>, before: seq<Move>, k: JobKey, at: nat,
      after: seq<Move>)
    requires Plays(f, claimed, before + [Enqueue(k, at)] + after)
    requires NeverEnqueued(before, k) && NeverEnqueued(after, k)
    ensures k !in f.mine
    ensures var q := Committed(f, before + [Enqueue(k, at)] + after);
            k in q && q[k] == if k in f.table then Requeued(f.table[k], at) else FreshJob(k, at)
    decreases |before|
  {
    var moves := before + [Enqueue(k, at)] + after;
    if before == [] {
      assert moves[0] == Enqueue(k, at) && moves[1..] == after;
      RowSurvives(Play(f, Enqueue(k, at)), claimed, after, k);
    } else {
      assert moves[0] == before[0] && moves[1..] == before[1..] + [Enqueue(k, at)] + after;
      assert forall i | 0 <= i < |before[1..]| :: before[1..][i] == before[i + 1];
      NoSwallowedEdit(Play(f, before[0]), claimed, before[1..], k, at, after);
    }
  }

  /** A claimed key requested again mid-flight restarts from scratch: no attempts, no cursor, due at once. */
  lemma ClaimedKeyRestarts(jobs: Jobs, claimed: set<JobKey>, before: seq<Move>, k: JobKey, at: nat, after: seq<Move>)
    requires k in claimed
    requires Plays(Flight(jobs - claimed, {}), claimed, before + [Enqueue(k, at)] + after)
    requires NeverEnqueued(before, k) && NeverEnqueued(after, k)
    ensures var q := Committed(Flight(jobs - claimed, {}), before + [Enqueue(k, at)] + after);
            k in q && q[k].status == Pending && q[k].attempts == 0 && q[k].cursor == None && q[k].nextAttemptAt == at
  {
    NoSwallowedEdit(Flight(jobs - claimed, {}), claimed, before, k, at, after);
  }

  /**
   * An enqueue that waits for the batch to commit is not swallowed either: its key is queued and due.
   * A row the batch settled under the key keeps its attempts and its cursor.
   */
  lemma EnqueueAfterCommit(f: Flight, claimed: set<JobKey>, moves: seq<Move>, k: JobKey, at: nat)
    requires Plays(f, claimed, moves)
    ensures var c := Committed(f, moves);
            var q := Upsert(c, k, at);
            && k in q && q[k].status == Pending && q[k].nextAttemptAt == at
            && q[k].attempts == (if k in c then c[k].attempts else 0)
            && q[k].cursor == (if k in c then c[k].cursor else None)
            && (k !in f.table && NeverEnqueued(moves, k) && NeverSettled(moves, k) ==> q[k] == FreshJob(k, at))
  {
    if k !in f.table && NeverEnqueued(moves, k) && NeverSettled(moves, k) { StaysAbsent(f, claimed, moves, k); }
  }

  predicate NeverSettled(moves: seq<Move>, k: JobKey) {
    forall i | 0 <= i < |moves| :: !(moves[i].Settle? && moves[i].k == k)
  }

  lemma {:induction false} StaysAbsent(f: Flight, claimed: set<JobKey>, moves: seq<Move>, k: JobKey)
    requires Plays(f, claimed, moves) && k !in f.table && NeverEnqueued(moves, k) && NeverSettled(moves, k)
    ensures k !in Committed(f, moves)
    decreases |moves|
  {
    if moves != [] {
      assert forall i | 0 <= i < |moves[1..]| :: moves[1..][i] == moves[i + 1];
      StaysAbsent(Play(f, moves[0]), claimed, moves[1..], k);
    }
  }

  /** After a rollback every claimed key is queued again, untouched unless it was also requested meanwhile. */
  lemma {:induction false} RollbackRestores(jobs: Jobs, moves: seq<Move>, k: JobKey)
    requires k in jobs
    ensures k in RolledBack(jobs, moves)
    ensures NeverEnqueued(moves, k) ==> RolledBack(jobs, moves)[k] == jobs[k]
    ensures RolledBack(jobs, moves)[k].(status := jobs[k].status, nextAttemptAt := jobs[k].nextAttemptAt) == jobs[k]
    decreases |moves|
  {
    if moves != [] {
      assert forall i | 0 <= i < |moves[1..]| :: moves[1..][i] == moves[i + 1];
      var m := moves[0];
      RollbackRestores(if m.Enqueue? then Upsert(jobs, m.k, m.at) else jobs, moves[1..], k);
    }
  }
}
