/**
 * Purge, then return (materialization.service.ts, `enqueueNodeDeletion`): when a node that comes back
 * after a purge keeps its file, and when the deletion queued by the purge takes it away.
 */
module EncPurge {
  import opened Options
  import opened EncModel
  import opened EncOutbox
  import opened EncProjection
  import opened EncDrain
  import opened EncDrainInv
  import opened EncReconcile
  import opened EncRun
  import opened Json

  /** Managed, without a file, and with nothing of its own left in the queue. */
  predicate Lost(w: World, n: string) {
    n in w.nodes && n !in w.disk && NodeKey(n) !in w.jobs && DeleteKey(n) !in w.jobs
  }

  /** Nodes are projected and the queue is drained, whatever fails. */
  predicate Returns(events: seq<Event>) {
    forall i | 0 <= i < |events| :: events[i].action.Project? || events[i].action.DrainBatch?
  }

  /** However the purged nodes come back and the queue is drained, none of them is lost. */
  ghost predicate KeepsFiles(cfg: Config, w: World, t: nat, purged: set<string>) {
    forall n, events | n in purged && Returns(events) && Runs(cfg, w, t, events) :: !Lost(Final(cfg, w, t, events).0, n)
  }

  // ---- a safe purge loses nothing ----

  /** A managed node without a file has its rewrite queued. */
  predicate Filed(w: World, n: string) {
    n in w.nodes && n !in w.disk ==> NodeKey(n) in w.jobs
  }

  /** The deletion of `n`, if one is queued, comes before its rewrite. */
  predicate DeletionFirst(jobs: Jobs, n: string) {
    Deletes(jobs, n) && NodeKey(n) in jobs ==> jobs[DeleteKey(n)].createdAt < jobs[NodeKey(n)].createdAt
  }

  /**
   * What keeps one node's file: its rewrite is queued while its file is missing or a deletion is queued ahead
   * of it.
   */
  ghost predicate Kept(w: World, n: string, t: nat) {
    && Shape(w.jobs, t) && w.recs.Keys <= w.nodes.Keys && Filed(w, n)
    && (SafeCertname(n) ==> DeletionFirst(w.jobs, n) && (n in w.nodes && Deletes(w.jobs, n) ==> NodeKey(n) in w.jobs))
  }

  lemma FullStepKeepsFiled(cfg: Config, w: World, faults: Faults, t: nat, n: string)
    requires Kept(w, n, t) && FullKey in w.jobs
    ensures Filed(StepJob(cfg, w, FullKey, faults, t), n)
  {
    assert RowShape(FullKey, w.jobs[FullKey], t);
    var names := Chunk(w.nodes.Keys, w.jobs[FullKey].cursor, cfg.chunkSize);
    PutsResult(cfg, w.(jobs := w.jobs - {FullKey}), names[..Written(FullKey, names, faults)], n);
  }

  lemma NodeStepKeepsFiled(cfg: Config, w: World, k: JobKey, faults: Faults, t: nat, n: string)
    requires Kept(w, n, t) && k in w.jobs && k != FullKey
    ensures Filed(StepJob(cfg, w, k, faults, t), n)
  {
    assert RowShape(k, w.jobs[k], t);
    NodeJobStep(cfg, w, k, faults, t);
    assert k == DeleteKey(n) && w.jobs[k].kind == Delete ==> Deletes(w.jobs, n);
  }

  /** A rewrite may run unless its deletion is queued ahead of it. A name that is no file name is never deleted. */
  predicate MayRun(jobs: Jobs, k: JobKey, n: string) {
    k == NodeKey(n) && SafeCertname(n) ==> !Deletes(jobs, n)
  }

  lemma StepKeepsKept(cfg: Config, w: World, k: JobKey, faults: Faults, t: nat, n: string)
    requires Kept(w, n, t) && k in w.jobs && MayRun(w.jobs, k, n)
    ensures Kept(StepJob(cfg, w, k, faults, t), n, t)
  {
    StepShape(cfg, w, k, faults, t);
    EffectsKeepRecs(cfg, w.(jobs := w.jobs - {k}), JobEffects(cfg, w.nodes.Keys, k, w.jobs[k], faults));
    if k == FullKey { FullStepKeepsFiled(cfg, w, faults, t, n); } else { NodeStepKeepsFiled(cfg, w, k, faults, t, n); }
  }

  /** In this order the deletion of `n`, if one is queued, runs before its rewrite. */
  ghost predicate DeletionAhead(jobs: Jobs, keys: seq<JobKey>, n: string) {
    && (forall i | 0 <= i < |keys| :: keys[i] in jobs)
    && (forall i, j | 0 <= i < j < |keys| :: keys[i] != keys[j])
    && (SafeCertname(n) && Deletes(jobs, n) ==>
          forall i | 0 <= i < |keys| && keys[i] == NodeKey(n) :: DeleteKey(n) in keys[..i])
  }

  /** A claim takes them in that order. */
  lemma ClaimPutsDeletionAhead(cfg: Config, w: World, keys: seq<JobKey>, n: string, t: nat)
    requires Kept(w, n, t) && IsBatch(cfg, w.jobs, keys, t)
    ensures DeletionAhead(w.jobs, keys, n)
  {
    var d := DeleteKey(n);
    if SafeCertname(n) && Deletes(w.jobs, n) {
      assert RowShape(d, w.jobs[d], t);
      forall i | 0 <= i < |keys| && keys[i] == NodeKey(n) ensures d in keys[..i] {
        assert w.jobs[d].createdAt < w.jobs[keys[i]].createdAt && Due(w.jobs[d], t);
        assert forall k | k in w.jobs && Due(w.jobs[k], t) && k !in keys ::
               w.jobs[keys[i]].createdAt <= w.jobs[k].createdAt;
        var j :| 0 <= j < |keys| && keys[j] == d;
        assert j < i;
        assert keys[..i][j] == d;
      }
    }
  }

  lemma DeletionAheadAfterStep(cfg: Config, w: World, keys: seq<JobKey>, faults: Faults, t: nat, n: string)
    requires Shape(w.jobs, t) && DeletionAhead(w.jobs, keys, n) && keys != []
    ensures DeletionAhead(StepJob(cfg, w, keys[0], faults, t).jobs, keys[1..], n)
  {
    var rest := keys[1..];
    var w1 := StepJob(cfg, w, keys[0], faults, t);
    StepShape(cfg, w, keys[0], faults, t);
    forall i | 0 <= i < |rest| && rest[i] == NodeKey(n) && SafeCertname(n) && Deletes(w1.jobs, n)
      ensures DeleteKey(n) in rest[..i]
    {
      assert DeleteKey(n) != keys[0] && Deletes(w.jobs, n) && keys[i + 1] == rest[i];
      var j :| 0 <= j < i + 1 && keys[..i + 1][j] == DeleteKey(n);
      assert rest[..i][j - 1] == DeleteKey(n);
    }
  }

  lemma {:induction false} BatchKeepsKept(cfg: Config, w: World, keys: seq<JobKey>, faults: Faults, t: nat, n: string)
    requires Kept(w, n, t) && DeletionAhead(w.jobs, keys, n)
    ensures Kept(Batch(cfg, w, keys, faults, t), n, t)
    decreases |keys|
  {
    BatchStepByStep(cfg, w, keys, faults, t);
    if keys != [] {
      assert keys[..0] == [];
      StepKeepsKept(cfg, w, keys[0], faults, t, n);
      DeletionAheadAfterStep(cfg, w, keys, faults, t, n);
      BatchKeepsKept(cfg, StepJob(cfg, w, keys[0], faults, t), keys[1..], faults, t, n);
    }
  }

  lemma ProjectKeepsKept(w: World, m: string, environment: Option<string>, facts: Facts, t0: nat, t: nat, n: string)
    requires Kept(w, n, t0) && t0 < t
    ensures Kept(UpsertNode(w, m, environment, facts, t), n, t)
  {
    var keys := if Changed(w, m, environment, facts) then {NodeKey(m)} else {};
    UpsertShape(w.jobs, keys, t0, t);
    assert DeleteKey(n) in w.jobs ==> RowShape(DeleteKey(n), w.jobs[DeleteKey(n)], t0);
  }

  lemma EventKeepsKept(cfg: Config, w: World, a: Action, t0: nat, t: nat, n: string)
    requires Kept(w, n, t0) && t0 < t && Enabled(cfg, w, a, t) && (a.Project? || a.DrainBatch?)
    ensures Kept(Next(cfg, w, a, t), n, t)
  {
    if a.DrainBatch? {
      ShapeLater(w.jobs, t0, t);
      ClaimPutsDeletionAhead(cfg, w, a.keys, n, t);
      BatchKeepsKept(cfg, w, a.keys, a.faults, t, n);
    } else {
      ProjectKeepsKept(w, a.name, a.environment, a.facts, t0, t, n);
    }
  }

  lemma {:induction false} RunsKeepFiled(cfg: Config, w: World, t: nat, events: seq<Event>, n: string)
    requires Kept(w, n, t) && Runs(cfg, w, t, events) && Returns(events)
    ensures Filed(Final(cfg, w, t, events).0, n)
    decreases |events|
  {
    if events != [] {
      var e, rest := events[0], events[1..];
      EventKeepsKept(cfg, w, e.action, t, e.at, n);
      assert forall i | 0 <= i < |rest| :: rest[i] == events[i + 1];
      RunsKeepFiled(cfg, Next(cfg, w, e.action, e.at), e.at, rest, n);
    }
  }

  /**
   * No purged node whose name can be deleted leaves a queued rewrite behind, unless its deletion was queued
   * before it.
   */
  predicate LosesNothing(w: World, known: set<string>) {
    forall n | n in Doomed(w, known) && SafeCertname(n) && NodeKey(n) in w.jobs :: DeleteKey(n) in w.jobs
  }

  lemma PurgedIsKept(cfg: Config, w: World, known: set<string>, t0: nat, t: nat, n: string)
    requires Inv(cfg, w, t0) && t0 < t && LosesNothing(w, known) && n in Doomed(w, known)
    ensures Kept(Prune(w, known, t), n, t)
  {
    var doomed := Doomed(w, known);
    PruneShape(w, known, t0, t);
    assert DeleteKey(n) in DeleteKeys(doomed) && NodeKey(n) !in DeleteKeys(doomed);
    assert Deletes(w.jobs, n) && NodeKey(n) in w.jobs ==> DeletionFirst(w.jobs, n);
  }

  // ---- an unsafe purge can lose a node ----

  /** The node is back, its deletion dates from `c`, and its rewrite, if still queued, is older. */
  ghost predicate AwaitsDeletion(w: World, n: string, c: nat, t: nat) {
    && n in w.nodes && Shape(w.jobs, t) && c < t
    && Deletes(w.jobs, n) && w.jobs[DeleteKey(n)].createdAt == c && Due(w.jobs[DeleteKey(n)], t)
    && (NodeKey(n) in w.jobs ==> w.jobs[NodeKey(n)].createdAt < c && Due(w.jobs[NodeKey(n)], t))
  }

  /** Every write of the full reconcile fails; nothing else does. */
  function WalkFaults(nodes: set<string>): Faults {
    set m | m in nodes :: (FullKey, m)
  }

  lemma WalkWritesNothing(cfg: Config, w: World, t: nat)
    requires FullKey in w.jobs && RowShape(FullKey, w.jobs[FullKey], t)
    ensures StepJob(cfg, w, FullKey, WalkFaults(w.nodes.Keys), t).disk == w.disk
  {
    var faults := WalkFaults(w.nodes.Keys);
    var names := Chunk(w.nodes.Keys, w.jobs[FullKey].cursor, cfg.chunkSize);
    if names != [] {
      assert names[0] in names;
      WrittenIs(FullKey, names, faults, 0);
    }
    assert names[..Written(FullKey, names, faults)] == [];
    assert Puts([]) == [];
  }

  lemma StepKeepsAwaiting(cfg: Config, w: World, k: JobKey, n: string, c: nat, t: nat)
    requires AwaitsDeletion(w, n, c, t) && k in w.jobs && k != DeleteKey(n) && SafeCertname(n)
    ensures var w' := StepJob(cfg, w, k, WalkFaults(w.nodes.Keys), t);
            AwaitsDeletion(w', n, c, t) && w'.nodes == w.nodes && (k == NodeKey(n) ==> NodeKey(n) !in w'.jobs)
  {
    StepShape(cfg, w, k, WalkFaults(w.nodes.Keys), t);
    if k == NodeKey(n) {
      assert RowShape(k, w.jobs[k], t);
      NodeJobStep(cfg, w, k, WalkFaults(w.nodes.Keys), t);
    }
  }

  lemma DeletionLoses(cfg: Config, w: World, n: string, c: nat, t: nat)
    requires AwaitsDeletion(w, n, c, t) && NodeKey(n) !in w.jobs && SafeCertname(n)
    ensures var w' := StepJob(cfg, w, DeleteKey(n), WalkFaults(w.nodes.Keys), t);
            Lost(w', n) && Shape(w'.jobs, t) && w'.nodes == w.nodes
  {
    var k := DeleteKey(n);
    assert RowShape(k, w.jobs[k], t);
    StepShape(cfg, w, k, WalkFaults(w.nodes.Keys), t);
    NodeJobStep(cfg, w, k, WalkFaults(w.nodes.Keys), t);
  }

  lemma StepKeepsLost(cfg: Config, w: World, k: JobKey, n: string, t: nat)
    requires Lost(w, n) && Shape(w.jobs, t) && k in w.jobs
    ensures var w' := StepJob(cfg, w, k, WalkFaults(w.nodes.Keys), t);
            Lost(w', n) && Shape(w'.jobs, t) && w'.nodes == w.nodes
  {
    assert RowShape(k, w.jobs[k], t);
    StepShape(cfg, w, k, WalkFaults(w.nodes.Keys), t);
    if k == FullKey {
      WalkWritesNothing(cfg, w, t);
    } else {
      NodeJobStep(cfg, w, k, WalkFaults(w.nodes.Keys), t);
    }
  }

  lemma {:induction false} BatchKeepsLost(cfg: Config, w: World, keys: seq<JobKey>, n: string, t: nat)
    requires Lost(w, n) && Shape(w.jobs, t)
    requires forall i | 0 <= i < |keys| :: keys[i] in w.jobs
    requires forall i, j | 0 <= i < j < |keys| :: keys[i] != keys[j]
    ensures Lost(Batch(cfg, w, keys, WalkFaults(w.nodes.Keys), t), n)
    decreases |keys|
  {
    BatchStepByStep(cfg, w, keys, WalkFaults(w.nodes.Keys), t);
    if keys != [] {
      StepKeepsLost(cfg, w, keys[0], n, t);
      BatchKeepsLost(cfg, StepJob(cfg, w, keys[0], WalkFaults(w.nodes.Keys), t), keys[1..], n, t);
    }
  }

  /** In this order the rewrite runs before the deletion. */
  ghost predicate RewriteAhead(jobs: Jobs, keys: seq<JobKey>, n: string) {
    && (forall i | 0 <= i < |keys| :: keys[i] in jobs)
    && (forall i, j | 0 <= i < j < |keys| :: keys[i] != keys[j])
    && (forall i | 0 <= i < |keys| && keys[i] == DeleteKey(n) && NodeKey(n) in jobs :: NodeKey(n) in keys[..i])
  }

  lemma RewriteAheadAfterStep(cfg: Config, w: World, keys: seq<JobKey>, n: string, c: nat, t: nat)
    requires AwaitsDeletion(w, n, c, t) && RewriteAhead(w.jobs, keys, n) && keys != [] && keys[0] != DeleteKey(n)
             && SafeCertname(n)
    ensures RewriteAhead(StepJob(cfg, w, keys[0], WalkFaults(w.nodes.Keys), t).jobs, keys[1..], n)
  {
    var k, rest := keys[0], keys[1..];
    var w1 := StepJob(cfg, w, k, WalkFaults(w.nodes.Keys), t);
    StepShape(cfg, w, k, WalkFaults(w.nodes.Keys), t);
    StepKeepsAwaiting(cfg, w, k, n, c, t);
    forall i | 0 <= i < |rest| && rest[i] == DeleteKey(n) && NodeKey(n) in w1.jobs ensures NodeKey(n) in rest[..i] {
      assert keys[i + 1] == rest[i] && NodeKey(n) != k && NodeKey(n) in w.jobs;
      var j :| 0 <= j < i + 1 && keys[..i + 1][j] == NodeKey(n);
      assert rest[..i][j - 1] == NodeKey(n);
    }
  }

  /** A batch that claims the deletion, after the rewrite, loses the node; any other leaves it as it was. */
  lemma {:induction false} BatchLoses(cfg: Config, w: World, keys: seq<JobKey>, n: string, c: nat, t: nat)
    requires AwaitsDeletion(w, n, c, t) && RewriteAhead(w.jobs, keys, n) && SafeCertname(n)
    ensures var w' := Batch(cfg, w, keys, WalkFaults(w.nodes.Keys), t);
            if DeleteKey(n) in keys then Lost(w', n) else AwaitsDeletion(w', n, c, t) && w'.nodes == w.nodes
    decreases |keys|
  {
    var faults := WalkFaults(w.nodes.Keys);
    BatchStepByStep(cfg, w, keys, faults, t);
    if keys != [] {
      var w1 := StepJob(cfg, w, keys[0], faults, t);
      if keys[0] == DeleteKey(n) {
        assert keys[..0] == [];
        DeletionLoses(cfg, w, n, c, t);
        BatchKeepsLost(cfg, w1, keys[1..], n, t);
      } else {
        StepKeepsAwaiting(cfg, w, keys[0], n, c, t);
        RewriteAheadAfterStep(cfg, w, keys, n, c, t);
        BatchLoses(cfg, w1, keys[1..], n, c, t);
        assert DeleteKey(n) in keys <==> DeleteKey(n) in keys[1..];
      }
    }
  }

  /** The claim takes a due rewrite that is older than the deletion before it. */
  lemma ClaimPutsRewriteAhead(cfg: Config, w: World, keys: seq<JobKey>, n: string, c: nat, t: nat)
    requires AwaitsDeletion(w, n, c, t) && IsBatch(cfg, w.jobs, keys, t)
    ensures RewriteAhead(w.jobs, keys, n)
  {
    forall i | 0 <= i < |keys| && keys[i] == DeleteKey(n) && NodeKey(n) in w.jobs ensures NodeKey(n) in keys[..i] {
      assert w.jobs[NodeKey(n)].createdAt < w.jobs[keys[i]].createdAt;
      var j :| 0 <= j < |keys| && keys[j] == NodeKey(n);
      assert j < i;
      assert keys[..i][j] == NodeKey(n);
    }
  }

  /** Rows no younger than `c`: those that may run before a deletion queued then. */
  function Old(w: World, c: nat): set<JobKey> {
    set k | k in w.jobs && w.jobs[k].createdAt <= c
  }

  /** One drained batch, then the rest. */
  lemma DrainCons(cfg: Config, w: World, t: nat, keys: seq<JobKey>, faults: Faults, at: nat, after: World,
      rest: seq<Event>)
    requires t < at && IsBatch(cfg, w.jobs, keys, at) && after == Batch(cfg, w, keys, faults, at)
             && Runs(cfg, after, at, rest)
    ensures var events := [Event(DrainBatch(keys, faults), at)] + rest;
            && Runs(cfg, w, t, events) && Final(cfg, w, t, events) == Final(cfg, after, at, rest)
            && (Returns(rest) ==> Returns(events))
  {
    RunCons(cfg, w, t, Event(DrainBatch(keys, faults), at), after, rest);
    assert ([Event(DrainBatch(keys, faults), at)] + rest)[1..] == rest;
  }

  /** Batch after batch, with only the full reconcile's writes failing, until the deletion has run. */
  lemma {:induction false} DrainLoses(cfg: Config, w: World, n: string, c: nat, t: nat) returns (events: seq<Event>)
    requires ValidConfig(cfg) && AwaitsDeletion(w, n, c, t) && SafeCertname(n) && t > 0
    ensures Returns(events) && Runs(cfg, w, t - 1, events) && Lost(Final(cfg, w, t - 1, events).0, n)
    ensures Final(cfg, w, t - 1, events).0.jobs.Keys <= w.jobs.Keys
    decreases |Old(w, c)|
  {
    var keys := BatchExists(cfg, w.jobs, t);
    var faults := WalkFaults(w.nodes.Keys);
    var w1 := Batch(cfg, w, keys, faults, t);
    ClaimPutsRewriteAhead(cfg, w, keys, n, c, t);
    BatchLoses(cfg, w, keys, n, c, t);
    BatchRows(cfg, w, keys, faults, t);
    var rest: seq<Event> := [];
    if DeleteKey(n) !in keys {
      OldShrinks(cfg, w, keys, n, c, t);
      AwaitsLater(w1, n, c, t);
      rest := DrainLoses(cfg, w1, n, c, t + 1);
    }
    assert w1.jobs.Keys <= w.jobs.Keys;
    DrainCons(cfg, w, t - 1, keys, faults, t, w1, rest);
    events := [Event(DrainBatch(keys, faults), t)] + rest;
  }

  lemma AwaitsLater(w: World, n: string, c: nat, t: nat)
    requires AwaitsDeletion(w, n, c, t)
    ensures AwaitsDeletion(w, n, c, t + 1)
  {
    assert forall k | k in w.jobs :: RowShape(k, w.jobs[k], t);
  }

  lemma OldShrinks(cfg: Config, w: World, keys: seq<JobKey>, n: string, c: nat, t: nat)
    requires ValidConfig(cfg) && AwaitsDeletion(w, n, c, t) && IsBatch(cfg, w.jobs, keys, t) && DeleteKey(n) !in keys
    ensures |Old(Batch(cfg, w, keys, WalkFaults(w.nodes.Keys), t), c)| < |Old(w, c)|
  {
    var w1 := Batch(cfg, w, keys, WalkFaults(w.nodes.Keys), t);
    BatchRows(cfg, w, keys, WalkFaults(w.nodes.Keys), t);
    assert |keys| == cfg.batchSize && w.jobs[keys[0]].createdAt <= c;
    assert keys[0] in keys && keys[0] in Old(w, c) && keys[0] !in Old(w1, c);
    assert Old(w1, c) <= Old(w, c) - {keys[0]};
    SubsetSize(Old(w1, c), Old(w, c) - {keys[0]});
  }

  /** The node comes back, and then the queue is drained. */
  lemma ReturnLoses(cfg: Config, w: World, back: World, e: Event, n: string, c: nat, t: nat)
      returns (events: seq<Event>)
    requires ValidConfig(cfg) && e.action.Project? && t < e.at && back == Next(cfg, w, e.action, e.at)
    requires AwaitsDeletion(back, n, c, e.at + 1) && SafeCertname(n)
    ensures Returns(events) && Runs(cfg, w, t, events) && Lost(Final(cfg, w, t, events).0, n)
    ensures Final(cfg, w, t, events).0.jobs.Keys <= back.jobs.Keys
  {
    var rest := DrainLoses(cfg, back, n, c, e.at + 1);
    RunCons(cfg, w, t, e, back, rest);
    events := [e] + rest;
  }

  /** A purge of a node whose rewrite is queued, and whose deletion is not, can lose it. */
  lemma UnsafePurgeLoses(cfg: Config, w: World, known: set<string>, t0: nat, t: nat, n: string, purged: World)
      returns (events: seq<Event>)
    requires ValidConfig(cfg) && Inv(cfg, w, t0) && t0 < t && purged == Prune(w, known, t)
    requires n in Doomed(w, known) && SafeCertname(n) && NodeKey(n) in w.jobs && DeleteKey(n) !in w.jobs
    ensures Returns(events) && Runs(cfg, purged, t, events) && Lost(Final(cfg, purged, t, events).0, n)
    ensures FullKey !in w.jobs ==> !Covers(Final(cfg, purged, t, events).0.jobs, n)
  {
    PurgedRows(cfg, w, known, t0, t, n, purged);
    events := PurgedLoses(cfg, purged, t, n);
  }

  lemma PurgedLoses(cfg: Config, purged: World, t: nat, n: string) returns (events: seq<Event>)
    requires ValidConfig(cfg) && AboutToReturn(purged, n, t) && SafeCertname(n)
    ensures Returns(events) && Runs(cfg, purged, t, events) && Lost(Final(cfg, purged, t, events).0, n)
    ensures FullKey !in purged.jobs ==> !Covers(Final(cfg, purged, t, events).0.jobs, n)
  {
    var e, back := Comeback(cfg, purged, t, n);
    events := ReturnLoses(cfg, purged, back, e, n, t, t);
    LostUncovered(back.jobs, Final(cfg, purged, t, events).0, n);
  }

  /** The node comes back. */
  lemma Comeback(cfg: Config, purged: World, t: nat, n: string) returns (e: Event, back: World)
    requires AboutToReturn(purged, n, t)
    ensures e.action.Project? && e.at == t + 1 && back == Next(cfg, purged, e.action, e.at)
    ensures AwaitsDeletion(back, n, t, t + 2) && (FullKey in back.jobs <==> FullKey in purged.jobs)
  {
    e := Event(Project(n, None, NO_FACTS), t + 1);
    back := UpsertNode(purged, n, None, NO_FACTS, t + 1);
    ReturnedAwaits(purged, t, n);
    AwaitsLater(back, n, t, t + 1);
  }

  lemma LostUncovered(before: Jobs, w: World, n: string)
    requires Lost(w, n) && w.jobs.Keys <= before.Keys
    ensures FullKey !in before ==> !Covers(w.jobs, n)
  {
  }

  /** The node is gone, its deletion was queued at `t`, and an older rewrite still is. */
  ghost predicate AboutToReturn(w: World, n: string, t: nat) {
    && n !in w.nodes && Shape(w.jobs, t)
    && DeleteKey(n) in w.jobs && w.jobs[DeleteKey(n)] == FreshJob(DeleteKey(n), t)
    && NodeKey(n) in w.jobs && w.jobs[NodeKey(n)].createdAt < t
  }

  lemma PurgedRows(cfg: Config, w: World, known: set<string>, t0: nat, t: nat, n: string, purged: World)
    requires Inv(cfg, w, t0) && t0 < t && purged == Prune(w, known, t)
    requires n in Doomed(w, known) && NodeKey(n) in w.jobs && DeleteKey(n) !in w.jobs
    ensures AboutToReturn(purged, n, t) && (FullKey in purged.jobs <==> FullKey in w.jobs)
  {
    PruneShape(w, known, t0, t);
    assert RowShape(NodeKey(n), w.jobs[NodeKey(n)], t0);
    assert DeleteKey(n) in DeleteKeys(Doomed(w, known)) && NodeKey(n) !in DeleteKeys(Doomed(w, known));
    assert purged.jobs[NodeKey(n)] == w.jobs[NodeKey(n)];
  }

  lemma ReturnedAwaits(w: World, t: nat, n: string)
    requires AboutToReturn(w, n, t)
    ensures var back := UpsertNode(w, n, None, NO_FACTS, t + 1);
            AwaitsDeletion(back, n, t, t + 1) && (FullKey in back.jobs <==> FullKey in w.jobs)
  {
    assert Changed(w, n, None, NO_FACTS);
    UpsertShape(w.jobs, {NodeKey(n)}, t, t + 1);
  }

  /**
   * The property itself, exactly: after a purge, no way of coming back and draining loses a purged node if
   * and only if no purged node with a valid file name had a rewrite queued without a deletion.
   */
  lemma PurgeKeepsFilesExactly(cfg: Config, w: World, known: set<string>, t0: nat, t: nat)
    requires ValidConfig(cfg) && Inv(cfg, w, t0) && t0 < t
    ensures KeepsFiles(cfg, Prune(w, known, t), t, Doomed(w, known)) <==> LosesNothing(w, known)
  {
    var purged := Prune(w, known, t);
    if LosesNothing(w, known) {
      forall n, events | n in Doomed(w, known) && Returns(events) && Runs(cfg, purged, t, events)
        ensures !Lost(Final(cfg, purged, t, events).0, n)
      {
        PurgedIsKept(cfg, w, known, t0, t, n);
        RunsKeepFiled(cfg, purged, t, events, n);
      }
    } else {
      var n :| n in Doomed(w, known) && SafeCertname(n) && NodeKey(n) in w.jobs && DeleteKey(n) !in w.jobs;
      var events := UnsafePurgeLoses(cfg, w, known, t0, t, n, purged);
      assert !KeepsFiles(cfg, purged, t, Doomed(w, known));
    }
  }

  // ---- a run from an empty installation in which it happens ----

  const TWO_NODES := World(
    map["a" := Node(None, NO_FACTS, false), "b" := Node(None, NO_FACTS, false)], map[],
    map[NodeKey("a") := FreshJob(NodeKey("a"), 1), NodeKey("b") := FreshJob(NodeKey("b"), 2)], map[], map[])

  const TWO_PROJECTED := [Event(Project("a", None, NO_FACTS), 1), Event(Project("b", None, NO_FACTS), 2)]

  lemma TwoNodesReached(cfg: Config)
    ensures Runs(cfg, EMPTY, 0, TWO_PROJECTED) && Final(cfg, EMPTY, 0, TWO_PROJECTED) == (TWO_NODES, 2)
  {
    var first, second := TWO_PROJECTED[0], TWO_PROJECTED[1];
    var one := World(map["a" := Node(None, NO_FACTS, false)], map[],
                     map[NodeKey("a") := FreshJob(NodeKey("a"), 1)], map[], map[]);
    assert TWO_PROJECTED[1..] == [second] && [second][1..] == [];
    assert Next(cfg, EMPTY, first.action, 1) == one;
    assert Next(cfg, one, second.action, 2) == TWO_NODES;
    assert Runs(cfg, TWO_NODES, 2, []) && Final(cfg, TWO_NODES, 2, []) == (TWO_NODES, 2);
    assert Runs(cfg, one, 1, [second]) && Final(cfg, one, 1, [second]) == (TWO_NODES, 2);
  }

  /** Listing `b` alone leaves it as it is. */
  lemma ListedUnchanged()
    ensures Refreshes([TWO_NODES, TWO_NODES], [Reported("b", None, NO_FACTS, true)], 2)
    ensures Names([Reported("b", None, NO_FACTS, true)]) == {"b"}
  {
    var rs := [Reported("b", None, NO_FACTS, true)];
    StableEqualsExact(NO_FACTS, NO_FACTS);
    assert !Changed(TWO_NODES, "b", None, NO_FACTS);
    assert UpsertAll(TWO_NODES.jobs, {}, 3) == TWO_NODES.jobs;
    assert TWO_NODES.nodes["b" := Node(None, NO_FACTS, false)] == TWO_NODES.nodes;
    assert rs[0].certname in Names(rs);
  }

  /**
   * Two nodes are projected, and the next answer lists only one: half of the estate, which the guard
   * lets go. The other's rewrite is still queued; it comes back, is drained, and ends without a file and
   * with nothing queued that would write one.
   */
  lemma PurgeWithQueuedRewriteLosesFile(cfg: Config) returns (events: seq<Event>)
    requires ValidConfig(cfg)
    ensures Runs(cfg, EMPTY, 0, TWO_PROJECTED) && Final(cfg, EMPTY, 0, TWO_PROJECTED) == (TWO_NODES, 2)
    ensures Refreshes([TWO_NODES, TWO_NODES], [Reported("b", None, NO_FACTS, true)], 2)
    ensures var w := GuardedPrune(TWO_NODES, {"b"}, 1, 4);
            && "a" !in w.nodes && Returns(events) && Runs(cfg, w, 4, events)
            && Lost(Final(cfg, w, 4, events).0, "a") && !Covers(Final(cfg, w, 4, events).0.jobs, "a")
  {
    TwoNodesReached(cfg);
    ListedUnchanged();
    TwoNodesInv(cfg);
    HalfIsPruned();
    events := UnsafePurgeLoses(cfg, TWO_NODES, {"b"}, 2, 4, "a", GuardedPrune(TWO_NODES, {"b"}, 1, 4));
  }

  lemma TwoNodesInv(cfg: Config)
    requires ValidConfig(cfg)
    ensures Inv(cfg, TWO_NODES, 2)
  {
    TwoNodesReached(cfg);
    EmptyInv(cfg);
    RunsKeepInv(cfg, EMPTY, 0, TWO_PROJECTED);
  }

  lemma HalfIsPruned()
    ensures GuardedPrune(TWO_NODES, {"b"}, 1, 4) == Prune(TWO_NODES, {"b"}, 4)
    ensures "a" in Doomed(TWO_NODES, {"b"}) && "a" !in Prune(TWO_NODES, {"b"}, 4).nodes
    ensures NodeKey("a") in TWO_NODES.jobs && DeleteKey("a") !in TWO_NODES.jobs && FullKey !in TWO_NODES.jobs
            && SafeCertname("a")
  {
    assert TWO_NODES.nodes.Keys == {"a", "b"};
    assert |TWO_NODES.nodes| == |TWO_NODES.nodes.Keys| == 2;
  }

  lemma EmptyInv(cfg: Config)
    ensures Inv(cfg, EMPTY, 0)
  {
  }
}
