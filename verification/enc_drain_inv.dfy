/** Every drain step keeps the invariant: jobs that succeed or fail, whole batches, and rolled-back batches. */
module EncDrainInv {
  import opened Order
  import opened Options
  import opened EncModel
  import opened EncOutbox
  import opened EncDrain

  // ---- what writing a list of nodes does ----

  lemma PutsUnfold(names: seq<string>)
    requires names != []
    ensures Puts(names) != [] && Puts(names)[0] == Put(names[0]) && Puts(names)[1..] == Puts(names[1..])
  {
  }

  lemma {:induction false} PutsResult(cfg: Config, w: World, names: seq<string>, n: string)
    requires w.recs.Keys <= w.nodes.Keys
    ensures var r := ApplyEffects(cfg, w, Puts(names));
            && r.recs.Keys <= r.nodes.Keys
            && DocOf(cfg, r, n) == DocOf(cfg, w, n) && AppliedOf(cfg, r, n) == AppliedOf(cfg, w, n)
            && (n in names ==> n in r.disk && r.disk[n] == DocOf(cfg, w, n))
            && (n in names && n in w.nodes ==> Fresh(cfg, r, n))
            && (n !in names ==> (n in r.disk <==> n in w.disk) && (n in w.disk ==> r.disk[n] == w.disk[n]))
            && (n !in names ==> (n in r.recs <==> n in w.recs) && (n in w.recs ==> r.recs[n] == w.recs[n]))
    decreases |names|
  {
    if names != [] {
      PutsUnfold(names);
      var w1 := ApplyEffect(cfg, w, Put(names[0]));
      assert FactsOf(w1, n) == FactsOf(w, n);
      PutsResult(cfg, w1, names[1..], n);
      assert n in names <==> n == names[0] || n in names[1..];
      if n == names[0] && n !in names[1..] {
        assert n in w1.disk && w1.disk[n] == DocOf(cfg, w, n);
      }
    } else {
      assert Puts(names) == [];
    }
  }

  // ---- one job keeps the invariant ----

  /** The full reconcile's next chunk leaves no node between its cursor and its last write. */
  lemma ChunkGapless(nodes: set<string>, cursor: Option<string>, size: nat, n: string)
    requires n in Above(nodes, cursor) && n !in Chunk(nodes, cursor, size)
    ensures |Chunk(nodes, cursor, size)| == size
    ensures size > 0 ==> Less(Chunk(nodes, cursor, size)[size - 1], n)
  {
    var all := SortedStrings(Above(nodes, cursor));
    assert n in all;
    if |all| > size { assert forall j | 0 <= j < size :: all[..size][j] == all[j]; }
    var i :| 0 <= i < |all| && all[i] == n;
  }

  /** Writing some nodes in the course of the full reconcile, seen from one managed node. */
  lemma PutsInWalk(cfg: Config, w: World, names: seq<string>, after: Jobs, n: string)
    requires w.recs.Keys <= w.nodes.Keys && n in w.nodes
    ensures var w' := ApplyEffects(cfg, w.(jobs := w.jobs - {FullKey}), Puts(names)).(jobs := after);
            Fresh(cfg, w', n) <==> n in names || Fresh(cfg, w, n)
  {
    var mid := w.(jobs := w.jobs - {FullKey});
    PutsResult(cfg, mid, names, n);
    assert FactsOf(mid, n) == FactsOf(w, n) == FactsOf(ApplyEffects(cfg, mid, Puts(names)).(jobs := after), n);
  }

  lemma FullJobKeepsCoverage(cfg: Config, w: World, faults: Faults, t: nat, n: string)
    requires ValidConfig(cfg) && Inv(cfg, w, t) && FullKey in w.jobs && n in w.nodes
    ensures var w' := StepJob(cfg, w, FullKey, faults, t); Fresh(cfg, w', n) || Covers(w'.jobs, n)
  {
    var row := w.jobs[FullKey];
    var nodes := w.nodes.Keys;
    var w' := StepJob(cfg, w, FullKey, faults, t);
    assert RowShape(FullKey, row, t);
    var names := Chunk(nodes, row.cursor, cfg.chunkSize);
    var k := Written(FullKey, names, faults);
    PutsInWalk(cfg, w, names[..k], w'.jobs, n);
    if k < |names| {
      assert FullCovers(w'.jobs, n);
    } else {
      assert names[..k] == names;
      if n !in names {
        if FullCovers(w.jobs, n) {
          ChunkGapless(nodes, row.cursor, cfg.chunkSize, n);
          assert FullCovers(w'.jobs, n);
        } else if NodeKey(n) in w.jobs {
          assert NodeKey(n) in w'.jobs;
        }
      }
    }
  }

  lemma {:induction false} WrittenIs(k: JobKey, names: seq<string>, faults: Faults, i: nat)
    requires i <= |names|
    requires forall j | 0 <= j < i :: !Throws(k, names[j], faults)
    requires i < |names| ==> Throws(k, names[i], faults)
    ensures Written(k, names, faults) == i
    decreases |names|
  {
    if i > 0 {
      assert !Throws(k, names[0], faults);
      assert forall j | 0 <= j < i - 1 :: names[1..][j] == names[j + 1];
      WrittenIs(k, names[1..], faults, i - 1);
    }
  }

  /** A job for one node has at most one effect, and fails exactly when the file operation does. */
  lemma NodeJobEffects(cfg: Config, nodes: set<string>, k: JobKey, row: Job, faults: Faults)
    requires row.certname.Some?
    ensures var c := row.certname.value;
            && (JobFails(cfg, nodes, k, row, faults) <==> Throws(k, c, faults))
            && JobEffects(cfg, nodes, k, row, faults)
               == if Throws(k, c, faults) then [] else if row.kind == Delete then [Del(c)] else [Put(c)]
  {
    var c := row.certname.value;
    WrittenIs(k, [c], faults, if Throws(k, c, faults) then 0 else 1);
    assert Puts([c]) == [Put(c)] && [c][..1] == [c] && Puts([c][..0]) == [];
  }

  lemma SingleEffect(cfg: Config, w: World, e: Effect)
    ensures ApplyEffects(cfg, w, [e]) == ApplyEffect(cfg, w, e)
    ensures ApplyEffects(cfg, w, []) == w
  {
    assert [e][1..] == [];
    assert ApplyEffects(cfg, ApplyEffect(cfg, w, e), []) == ApplyEffect(cfg, w, e);
  }

  /** What a chunk job does, written out. */
  lemma ChunkJobResult(cfg: Config, w: World, k: JobKey, row: Job, faults: Faults, t: nat)
    requires row.certname == None && k !in w.jobs
    ensures var names := Chunk(w.nodes.Keys, row.cursor, cfg.chunkSize);
            RunJob(cfg, w, k, row, faults, t) == ApplyEffects(cfg, w, Puts(names[..Written(k, names, faults)])).(jobs :=
              if JobFails(cfg, w.nodes.Keys, k, row, faults) then w.jobs[k := FailureRow(cfg, row, t)]
              else if |names| == cfg.chunkSize && names != [] then w.jobs[k := ContinueRow(names[|names| - 1], t)]
              else w.jobs)
  {
  }

  /** What a step with one node's job does to the queue, and to the files of other nodes. */
  lemma NodeJobStep(cfg: Config, w: World, k: JobKey, faults: Faults, t: nat)
    requires k in w.jobs && k != FullKey && RowShape(k, w.jobs[k], t)
    ensures var w' := StepJob(cfg, w, k, faults, t);
            var mid := w.(jobs := w.jobs - {k});
            if Throws(k, k.certname, faults)
            then w' == w.(jobs := w.jobs[k := FailureRow(cfg, w.jobs[k], t)])
            else w' == ApplyEffect(cfg, mid, if w.jobs[k].kind == Delete then Del(k.certname) else Put(k.certname))
  {
    var row, mid, c := w.jobs[k], w.(jobs := w.jobs - {k}), k.certname;
    NodeJobEffects(cfg, w.nodes.Keys, k, row, faults);
    SingleEffect(cfg, mid, if row.kind == Delete then Del(c) else Put(c));
    assert mid.jobs[k := FailureRow(cfg, row, t)] == w.jobs[k := FailureRow(cfg, row, t)];
  }

  /** Another node's file and document are not its business. */
  lemma EffectOnOther(cfg: Config, w: World, e: Effect, n: string)
    requires e != Put(n) && e != Del(n)
    ensures Fresh(cfg, ApplyEffect(cfg, w, e), n) == Fresh(cfg, w, n)
  {
    assert FactsOf(ApplyEffect(cfg, w, e), n) == FactsOf(w, n);
  }

  lemma PutIsFresh(cfg: Config, w: World, n: string)
    requires n in w.nodes
    ensures Fresh(cfg, ApplyEffect(cfg, w, Put(n)), n)
  {
    assert FactsOf(ApplyEffect(cfg, w, Put(n)), n) == FactsOf(w, n);
  }

  lemma QueueIrrelevant(cfg: Config, w: World, jobs: Jobs, n: string)
    ensures Fresh(cfg, w.(jobs := jobs), n) == Fresh(cfg, w, n)
  {
    assert FactsOf(w.(jobs := jobs), n) == FactsOf(w, n);
  }

  lemma NodeJobKeepsCoverage(cfg: Config, w: World, k: JobKey, faults: Faults, t: nat, n: string)
    requires Inv(cfg, w, t) && k in w.jobs && k != FullKey && n in w.nodes
    ensures var w' := StepJob(cfg, w, k, faults, t); Fresh(cfg, w', n) || Covers(w'.jobs, n)
  {
    var c := k.certname;
    var jobs := w.jobs - {k};
    assert RowShape(k, w.jobs[k], t);
    NodeJobStep(cfg, w, k, faults, t);
    QueueIrrelevant(cfg, w, jobs, n);
    QueueIrrelevant(cfg, w, w.jobs[k := FailureRow(cfg, w.jobs[k], t)], n);
    if !Throws(k, c, faults) {
      if n == c && w.jobs[k].kind == Delete {
        assert Deletes(w.jobs, n) && NodeKey(n) in jobs;
      } else if n == c {
        PutIsFresh(cfg, w.(jobs := jobs), n);
      } else {
        EffectOnOther(cfg, w.(jobs := jobs), if w.jobs[k].kind == Delete then Del(c) else Put(c), n);
      }
    }
  }

  lemma StepShape(cfg: Config, w: World, k: JobKey, faults: Faults, t: nat)
    requires Shape(w.jobs, t) && k in w.jobs
    ensures Shape(StepJob(cfg, w, k, faults, t).jobs, t)
    ensures forall j | j != k :: j in w.jobs <==> j in StepJob(cfg, w, k, faults, t).jobs
    ensures forall j | j != k && j in w.jobs :: StepJob(cfg, w, k, faults, t).jobs[j] == w.jobs[j]
    ensures k in StepJob(cfg, w, k, faults, t).jobs ==>
              StepJob(cfg, w, k, faults, t).jobs[k].kind == Materialize
                  && StepJob(cfg, w, k, faults, t).jobs[k].createdAt == t
  {
    assert RowShape(k, w.jobs[k], t);
  }

  /** Records are only ever kept for managed nodes. */
  lemma {:induction false} EffectsKeepRecs(cfg: Config, w: World, es: seq<Effect>)
    requires w.recs.Keys <= w.nodes.Keys
    ensures ApplyEffects(cfg, w, es).recs.Keys <= w.nodes.Keys
    decreases |es|
  {
    if es != [] { EffectsKeepRecs(cfg, ApplyEffect(cfg, w, es[0]), es[1..]); }
  }

  /** Running one queued job keeps the invariant, provided no delete of the same node is still ahead of a rewrite. */
  lemma StepKeepsInv(cfg: Config, w: World, k: JobKey, faults: Faults, t: nat)
    requires ValidConfig(cfg) && Inv(cfg, w, t) && k in w.jobs
    requires k.NodeKey? ==> !Deletes(w.jobs, k.certname)
    ensures Inv(cfg, StepJob(cfg, w, k, faults, t), t)
  {
    var w' := StepJob(cfg, w, k, faults, t);
    StepShape(cfg, w, k, faults, t);
    EffectsKeepRecs(cfg, w.(jobs := w.jobs - {k}), JobEffects(cfg, w.nodes.Keys, k, w.jobs[k], faults));
    forall n | n in w'.nodes ensures Fresh(cfg, w', n) || Covers(w'.jobs, n) {
      if k == FullKey {
        FullJobKeepsCoverage(cfg, w, faults, t, n);
      } else {
        NodeJobKeepsCoverage(cfg, w, k, faults, t, n);
      }
    }
    forall n | Deletes(w'.jobs, n)
      ensures n in w'.nodes ==> NodeKey(n) in w'.jobs
      ensures NodeKey(n) in w'.jobs ==> w'.jobs[DeleteKey(n)].createdAt < w'.jobs[NodeKey(n)].createdAt
    {
      assert DeleteKey(n) != k;
      assert Deletes(w.jobs, n);
      assert NodeKey(n) != k;
    }
  }

  // ---- a batch keeps the invariant ----

  lemma InvLater(cfg: Config, w: World, t0: nat, t: nat)
    requires Inv(cfg, w, t0) && t0 <= t
    ensures Inv(cfg, w, t)
  {
    forall k | k in w.jobs ensures RowShape(k, w.jobs[k], t) { assert RowShape(k, w.jobs[k], t0); }
  }

  /** In this order, a queued delete runs before any rewrite of the same node. */
  ghost predicate DeletesAhead(jobs: Jobs, keys: seq<JobKey>) {
    && (forall i | 0 <= i < |keys| :: keys[i] in jobs)
    && (forall i, j | 0 <= i < j < |keys| :: keys[i] != keys[j])
    && (forall i | 0 <= i < |keys| && keys[i].NodeKey? && Deletes(jobs, keys[i].certname) ::
          DeleteKey(keys[i].certname) in keys[..i])
  }

  /** Oldest first means a queued delete runs before the rewrite queued after it. */
  lemma BatchDeletesAhead(cfg: Config, w: World, keys: seq<JobKey>, t: nat)
    requires Inv(cfg, w, t) && IsBatch(cfg, w.jobs, keys, t)
    ensures DeletesAhead(w.jobs, keys)
  {
    forall i | 0 <= i < |keys| && keys[i].NodeKey? && Deletes(w.jobs, keys[i].certname)
      ensures DeleteKey(keys[i].certname) in keys[..i]
    {
      var d := DeleteKey(keys[i].certname);
      assert RowShape(d, w.jobs[d], t);
      assert w.jobs[d].createdAt < w.jobs[keys[i]].createdAt;
      assert Due(w.jobs[d], t);
      assert forall k | k in w.jobs && Due(w.jobs[k], t) && k !in keys ::
             w.jobs[keys[i]].createdAt <= w.jobs[k].createdAt;
      var j :| 0 <= j < |keys| && keys[j] == d;
      assert j < i;
      assert keys[..i][j] == d;
    }
  }

  /** Taking the first job off leaves the rest in the same order. */
  lemma AheadAfterStep(cfg: Config, w: World, keys: seq<JobKey>, faults: Faults, t: nat)
    requires Shape(w.jobs, t) && DeletesAhead(w.jobs, keys) && keys != []
    ensures DeletesAhead(StepJob(cfg, w, keys[0], faults, t).jobs, keys[1..])
  {
    var k, rest := keys[0], keys[1..];
    var w1 := StepJob(cfg, w, k, faults, t);
    StepShape(cfg, w, k, faults, t);
    forall i | 0 <= i < |rest| && rest[i].NodeKey? && Deletes(w1.jobs, rest[i].certname)
      ensures DeleteKey(rest[i].certname) in rest[..i]
    {
      var d := DeleteKey(rest[i].certname);
      assert d != k;
      assert Deletes(w.jobs, rest[i].certname);
      assert keys[i + 1] == rest[i];
      var j :| 0 <= j < i + 1 && keys[..i + 1][j] == d;
      assert rest[..i][j - 1] == d;
    }
  }

  lemma {:induction false} RunKeepsInv(cfg: Config, w: World, keys: seq<JobKey>, faults: Faults, t: nat)
    requires ValidConfig(cfg) && Inv(cfg, w, t) && DeletesAhead(w.jobs, keys)
    ensures Inv(cfg, Batch(cfg, w, keys, faults, t), t)
    decreases |keys|
  {
    BatchStepByStep(cfg, w, keys, faults, t);
    if keys != [] {
      assert keys[..0] == [];
      StepKeepsInv(cfg, w, keys[0], faults, t);
      AheadAfterStep(cfg, w, keys, faults, t);
      RunKeepsInv(cfg, StepJob(cfg, w, keys[0], faults, t), keys[1..], faults, t);
    }
  }

  /** A committed batch keeps the invariant, whatever fails in it. */
  lemma BatchKeepsInv(cfg: Config, w: World, keys: seq<JobKey>, faults: Faults, t0: nat, t: nat)
    requires ValidConfig(cfg) && Inv(cfg, w, t0) && t0 < t && IsBatch(cfg, w.jobs, keys, t)
    ensures Inv(cfg, Batch(cfg, w, keys, faults, t), t)
  {
    InvLater(cfg, w, t0, t);
    BatchDeletesAhead(cfg, w, keys, t);
    RunKeepsInv(cfg, w, keys, faults, t);
  }

  // ---- a rolled-back batch ----

  lemma OneEffectOnFile(cfg: Config, w: World, e: Effect, n: string)
    ensures var r := ApplyEffect(cfg, w, e);
            && DocOf(cfg, r, n) == DocOf(cfg, w, n)
            && (e == Put(n) ==> n in r.disk && r.disk[n] == DocOf(cfg, w, n))
            && (e != Put(n) && e != Del(n)
                ==> (n in r.disk <==> n in w.disk) && (n in w.disk ==> r.disk[n] == w.disk[n]))
  {
    assert FactsOf(ApplyEffect(cfg, w, e), n) == FactsOf(w, n);
  }

  /** File effects leave a node's file as it was, make it current, or belong to a delete. */
  lemma {:induction false} EffectsOnFile(cfg: Config, w: World, es: seq<Effect>, n: string)
    ensures var r := ApplyEffects(cfg, w, es);
            || (n in r.disk && r.disk[n] == DocOf(cfg, w, n))
            || ((n in r.disk <==> n in w.disk) && (n in w.disk ==> r.disk[n] == w.disk[n]))
            || Del(n) in es
    decreases |es|
  {
    if es != [] && Del(n) !in es {
      OneEffectOnFile(cfg, w, es[0], n);
      EffectsOnFile(cfg, ApplyEffect(cfg, w, es[0]), es[1..], n);
    }
  }

  lemma {:induction false} DeletesComeFromDeletes(cfg: Config, nodes: set<string>, keys: seq<JobKey>, rows: Jobs,
      faults: Faults, n: string)
    requires forall i | 0 <= i < |keys| :: keys[i] in rows
    requires Del(n) in AllEffects(cfg, nodes, keys, rows, faults)
    ensures exists i :: 0 <= i < |keys| && rows[keys[i]].kind == Delete && rows[keys[i]].certname == Some(n)
    decreases |keys|
  {
    var k := keys[0];
    if Del(n) in JobEffects(cfg, nodes, k, rows[k], faults) {
      assert rows[k].kind == Delete && rows[k].certname == Some(n);
    } else {
      DeletesComeFromDeletes(cfg, nodes, keys[1..], rows, faults, n);
      var i :| 0 <= i < |keys[1..]| && rows[keys[1..][i]].kind == Delete && rows[keys[1..][i]].certname == Some(n);
      assert keys[i + 1] == keys[1..][i];
    }
  }

  /** A rollback after any number of file writes keeps the invariant: the files it left are current, or queued again. */
  lemma AbortKeepsInv(cfg: Config, w: World, keys: seq<JobKey>, faults: Faults, done: nat, t: nat)
    requires Inv(cfg, w, t)
    requires forall i | 0 <= i < |keys| :: keys[i] in w.jobs
    ensures Inv(cfg, Abort(cfg, w, keys, faults, done), t)
  {
    var w' := Abort(cfg, w, keys, faults, done);
    var es := AllEffects(cfg, w.nodes.Keys, keys, w.jobs, faults);
    var prefix := es[..if done < |es| then done else |es|];
    forall n | n in w'.nodes ensures Fresh(cfg, w', n) || Covers(w'.jobs, n) {
      assert FactsOf(w', n) == FactsOf(w, n);
      EffectsOnFile(cfg, w, prefix, n);
      if Del(n) in prefix {
        assert Del(n) in es;
        DeletesComeFromDeletes(cfg, w.nodes.Keys, keys, w.jobs, faults, n);
        var i :| 0 <= i < |keys| && w.jobs[keys[i]].kind == Delete && w.jobs[keys[i]].certname == Some(n);
        assert RowShape(keys[i], w.jobs[keys[i]], t);
        assert keys[i] == DeleteKey(n);
        assert Deletes(w.jobs, n);
      }
    }
    assert forall n | Deletes(w'.jobs, n) :: Deletes(w.jobs, n);
  }
}
