/**
 * The chunked full reconcile over a changing estate (materializer.service.ts, `materializeChunk`):
 * `snaps` lists the managed nodes as each chunk finds them, and the last part reads them off a run.
 */
module EncWalk {
  import opened Order
  import opened Options
  import opened EncModel
  import opened EncOutbox
  import opened EncDrain
  import opened EncDrainInv
  import opened EncReconcile
  import opened EncRun

  /** Everything the walk writes, chunk after chunk. */
  function Visits(snaps: seq<set<string>>, cursor: Option<string>, size: nat): seq<string>
    decreases |snaps|
  {
    if snaps == [] then [] else
      var c := Chunk(snaps[0], cursor, size);
      c + if |c| == size && c != [] then Visits(snaps[1..], Some(c[|c| - 1]), size) else []
  }

  /** The walk finds a short chunk, and so leaves no row, within these snapshots. */
  predicate Ends(snaps: seq<set<string>>, cursor: Option<string>, size: nat)
    decreases |snaps|
  {
    snaps != [] &&
    var c := Chunk(snaps[0], cursor, size);
    if |c| == size && c != [] then Ends(snaps[1..], Some(c[|c| - 1]), size) else true
  }

  lemma ChunkFacts(nodes: set<string>, cursor: Option<string>, size: nat)
    ensures var c := Chunk(nodes, cursor, size);
            && |c| <= size
            && (forall i | 0 <= i < |c| :: c[i] in nodes && (cursor.Some? ==> Less(cursor.value, c[i])))
            && (forall i, j | 0 <= i < j < |c| :: Less(c[i], c[j]))
            && (|c| < size ==> forall n | n in Above(nodes, cursor) :: n in c)
            && (c != [] ==> forall n | n in Above(nodes, cursor) :: n in c || Less(c[|c| - 1], n))
  {
    var all := SortedStrings(Above(nodes, cursor));
    var c := Chunk(nodes, cursor, size);
    forall i | 0 <= i < |c| ensures c[i] in Above(nodes, cursor) { assert all[i] in all; }
    forall n | n in Above(nodes, cursor) && n !in c && c != [] ensures Less(c[|c| - 1], n) {
      assert n in all;
      var i :| 0 <= i < |all| && all[i] == n;
      assert forall j | 0 <= j < |c| :: c[j] == all[j];
    }
  }

  /** Strictly increasing, and past the cursor. */
  ghost predicate IncreasingFrom(cursor: Option<string>, v: seq<string>) {
    && (forall i | 0 <= i < |v| :: cursor.Some? ==> Less(cursor.value, v[i]))
    && (forall i, j | 0 <= i < j < |v| :: Less(v[i], v[j]))
  }

  lemma IncreasingConcat(cursor: Option<string>, c: seq<string>, rest: seq<string>)
    requires IncreasingFrom(cursor, c) && c != [] && IncreasingFrom(Some(c[|c| - 1]), rest)
    ensures IncreasingFrom(cursor, c + rest)
  {
    var last := c[|c| - 1];
    forall i | 0 <= i < |rest| ensures cursor.Some? ==> Less(cursor.value, rest[i]) {
      if cursor.Some? { LessTrans(cursor.value, last, rest[i]); }
    }
    forall i, j | 0 <= i < |c| && 0 <= j < |rest| ensures Less(c[i], rest[j]) {
      if i < |c| - 1 { LessTrans(c[i], last, rest[j]); }
    }
  }

  /** The walk writes in strictly increasing certname order, so no node twice. */
  lemma {:induction false} VisitsIncrease(snaps: seq<set<string>>, cursor: Option<string>, size: nat)
    ensures IncreasingFrom(cursor, Visits(snaps, cursor, size))
    decreases |snaps|
  {
    if snaps != [] {
      ChunkFacts(snaps[0], cursor, size);
      var c := Chunk(snaps[0], cursor, size);
      assert IncreasingFrom(cursor, c);
      if |c| == size && c != [] {
        VisitsIncrease(snaps[1..], Some(c[|c| - 1]), size);
        IncreasingConcat(cursor, c, Visits(snaps[1..], Some(c[|c| - 1]), size));
      } else {
        assert Visits(snaps, cursor, size) == c;
      }
    }
  }

  lemma VisitsCons(snaps: seq<set<string>>, cursor: Option<string>, size: nat)
    requires Ends(snaps, cursor, size)
    ensures var c := Chunk(snaps[0], cursor, size);
            if |c| == size && c != []
            then Visits(snaps, cursor, size) == c + Visits(snaps[1..], Some(c[|c| - 1]), size)
                && Ends(snaps[1..], Some(c[|c| - 1]), size)
            else Visits(snaps, cursor, size) == c
  {
    assert Visits(snaps, cursor, size) == Visits(snaps, cursor, size) + [];
  }

  lemma ChunkReaches(nodes: set<string>, cursor: Option<string>, size: nat, n: string)
    requires n in Above(nodes, cursor) && size > 0
    ensures var c := Chunk(nodes, cursor, size);
            n in c || (|c| == size && c != [] && Less(c[|c| - 1], n))
  {
    ChunkFacts(nodes, cursor, size);
  }

  lemma {:induction false} VisitsReach(snaps: seq<set<string>>, cursor: Option<string>, size: nat, n: string)
    requires Ends(snaps, cursor, size) && size > 0
    requires Everywhere(snaps, n) && n in Above(snaps[0], cursor)
    ensures n in Visits(snaps, cursor, size)
    decreases |snaps|
  {
    var c, later := Chunk(snaps[0], cursor, size), snaps[1..];
    VisitsCons(snaps, cursor, size);
    ChunkReaches(snaps[0], cursor, size, n);
    if n !in c {
      assert n in later[0] by { assert later[0] == snaps[1]; }
      VisitsReach(later, Some(c[|c| - 1]), size, n);
    }
  }

  /** Managed throughout. */
  ghost predicate Everywhere(snaps: seq<set<string>>, n: string)
    decreases |snaps|
  {
    snaps == [] || (n in snaps[0] && Everywhere(snaps[1..], n))
  }

  function Count<T(==)>(v: seq<T>, n: T): nat {
    if v == [] then 0 else (if v[0] == n then 1 else 0) + Count(v[1..], n)
  }

  lemma {:induction false} CountIncreasing(v: seq<string>, n: string)
    requires forall i, j | 0 <= i < j < |v| :: Less(v[i], v[j])
    ensures Count(v, n) == if n in v then 1 else 0
    decreases |v|
  {
    if v != [] {
      CountIncreasing(v[1..], n);
      LessIrreflexive(n);
      assert n in v[1..] ==> v[0] != n by {
        assert forall j | 0 <= j < |v[1..]| :: v[1..][j] == v[j + 1];
      }
    }
  }

  /** However the estate changes between chunks, a node present throughout a finished walk is visited exactly once. */
  lemma VisitedOnce(snaps: seq<set<string>>, size: nat, n: string)
    requires Ends(snaps, None, size) && size > 0 && Everywhere(snaps, n)
    ensures Count(Visits(snaps, None, size), n) == 1
  {
    VisitsIncrease(snaps, None, size);
    VisitsReach(snaps, None, size, n);
    CountIncreasing(Visits(snaps, None, size), n);
  }

  lemma OneMore(n: nat, size: nat)
    ensures (n + 1) * size == size + n * size
  {
  }

  lemma ChunkWithin(nodes: set<string>, cursor: Option<string>, size: nat, estate: set<string>)
    requires nodes <= estate
    ensures forall x | x in Chunk(nodes, cursor, size) :: x in estate
  {
    ChunkFacts(nodes, cursor, size);
  }

  lemma {:induction false} VisitsFill(snaps: seq<set<string>>, cursor: Option<string>, size: nat, estate: set<string>)
    requires size > 0 && !Ends(snaps, cursor, size)
    requires forall i | 0 <= i < |snaps| :: snaps[i] <= estate
    ensures |Visits(snaps, cursor, size)| == |snaps| * size
    ensures forall x | x in Visits(snaps, cursor, size) :: x in estate
    decreases |snaps|
  {
    if snaps != [] {
      ChunkWithin(snaps[0], cursor, size, estate);
      var c := Chunk(snaps[0], cursor, size);
      VisitsFill(snaps[1..], Some(c[|c| - 1]), size, estate);
      assert Visits(snaps, cursor, size) == c + Visits(snaps[1..], Some(c[|c| - 1]), size);
      OneMore(|snaps[1..]|, size);
    }
  }

  /** A walk over an estate bounded by `estate` ends within `|estate| / size + 1` chunks. */
  lemma WalkEnds(snaps: seq<set<string>>, size: nat, estate: set<string>)
    requires size > 0 && |snaps| * size > |estate|
    requires forall i | 0 <= i < |snaps| :: snaps[i] <= estate
    ensures Ends(snaps, None, size)
  {
    if !Ends(snaps, None, size) {
      VisitsFill(snaps, None, size, estate);
      VisitsIncrease(snaps, None, size);
      var v := Visits(snaps, None, size);
      forall i, j | 0 <= i < j < |v| ensures v[i] != v[j] { LessIrreflexive(v[i]); }
      DistinctBound(estate, v);
    }
  }

  // ---- the walk in a run ----

  /** A batch that claims the walk's row. */
  predicate ClaimsWalk(a: Action) {
    a.DrainBatch? && FullKey in a.keys
  }

  /** The managed nodes as each chunk of the walk finds them, until its row is gone. */
  ghost function Snapshots(cfg: Config, w: World, t: nat, events: seq<Event>): seq<set<string>>
    requires Runs(cfg, w, t, events)
    decreases |events|
  {
    if events == [] || FullKey !in w.jobs then [] else
      var e := events[0];
      (if ClaimsWalk(e.action) then [w.nodes.Keys] else [])
      + Snapshots(cfg, Next(cfg, w, e.action, e.at), e.at, events[1..])
  }

  /** The file operations of the walk's claimed rows, until its row is gone. */
  ghost function WalkEffects(cfg: Config, w: World, t: nat, events: seq<Event>): seq<Effect>
    requires Runs(cfg, w, t, events)
    decreases |events|
  {
    if events == [] || FullKey !in w.jobs then [] else
      var e := events[0];
      (if ClaimsWalk(e.action) then JobEffects(cfg, w.nodes.Keys, FullKey, w.jobs[FullKey], e.action.faults) else [])
      + WalkEffects(cfg, Next(cfg, w, e.action, e.at), e.at, events[1..])
  }

  /** No chunk of the walk fails. */
  ghost predicate Undisturbed(cfg: Config, w: World, t: nat, events: seq<Event>)
    requires Runs(cfg, w, t, events)
    decreases |events|
  {
    events == [] || FullKey !in w.jobs ||
    (var e := events[0];
     && (ClaimsWalk(e.action) ==> !JobFails(cfg, w.nodes.Keys, FullKey, w.jobs[FullKey], e.action.faults))
     && Undisturbed(cfg, Next(cfg, w, e.action, e.at), e.at, events[1..]))
  }

  /** At some point of the run the walk's row is gone. */
  ghost predicate WalkEnded(cfg: Config, w: World, t: nat, events: seq<Event>)
    requires Runs(cfg, w, t, events)
    decreases |events|
  {
    FullKey !in w.jobs ||
    (events != [] && WalkEnded(cfg, Next(cfg, w, events[0].action, events[0].at), events[0].at, events[1..]))
  }

  /** The walk goes on after the chunk it wrote, or is over. */
  predicate Advanced(nodes: set<string>, cursor: Option<string>, size: nat, jobs: Jobs) {
    var c := Chunk(nodes, cursor, size);
    && (FullKey in jobs <==> |c| == size)
    && (FullKey in jobs ==> c != [] && jobs[FullKey].cursor == Some(c[|c| - 1]))
  }

  lemma ChunkAdvances(cfg: Config, w: World, faults: Faults, t: nat)
    requires ValidConfig(cfg) && Shape(w.jobs, t) && FullKey in w.jobs
    requires !JobFails(cfg, w.nodes.Keys, FullKey, w.jobs[FullKey], faults)
    ensures Advanced(w.nodes.Keys, w.jobs[FullKey].cursor, cfg.chunkSize, StepJob(cfg, w, FullKey, faults, t).jobs)
  {
    FullStepQueue(cfg, w, faults, t);
  }

  /** The row that carries the walk on is due at once and has no attempt spent. */
  lemma ContinuationIsFresh(cfg: Config, w: World, faults: Faults, t: nat)
    requires ValidConfig(cfg) && Shape(w.jobs, t) && FullKey in w.jobs
    requires !JobFails(cfg, w.nodes.Keys, FullKey, w.jobs[FullKey], faults)
    ensures var jobs := StepJob(cfg, w, FullKey, faults, t).jobs;
            FullKey in jobs ==>
              jobs[FullKey].attempts == 0 && jobs[FullKey].status == Pending && jobs[FullKey].nextAttemptAt == t
  {
    FullStepQueue(cfg, w, faults, t);
  }

  /** A batch that claims the walk's row advances it. */
  lemma {:induction false} BatchWalks(cfg: Config, w: World, keys: seq<JobKey>, faults: Faults, t: nat)
    requires ValidConfig(cfg) && Shape(w.jobs, t) && FullKey in w.jobs && FullKey in keys
    requires forall i | 0 <= i < |keys| :: keys[i] in w.jobs
    requires forall i, j | 0 <= i < j < |keys| :: keys[i] != keys[j]
    requires !JobFails(cfg, w.nodes.Keys, FullKey, w.jobs[FullKey], faults)
    ensures Advanced(w.nodes.Keys, w.jobs[FullKey].cursor, cfg.chunkSize, Batch(cfg, w, keys, faults, t).jobs)
    decreases |keys|
  {
    var rest := keys[1..];
    var w1 := StepJob(cfg, w, keys[0], faults, t);
    BatchStepByStep(cfg, w, keys, faults, t);
    StepShape(cfg, w, keys[0], faults, t);
    if keys[0] == FullKey {
      ChunkAdvances(cfg, w, faults, t);
      RestKeepsWalk(cfg, w1, rest, faults, t);
    } else {
      BatchWalks(cfg, w1, rest, faults, t);
    }
  }

  /** The jobs of a batch that are not the walk's leave its row. */
  lemma RestKeepsWalk(cfg: Config, w: World, keys: seq<JobKey>, faults: Faults, t: nat)
    requires Shape(w.jobs, t) && FullKey !in keys
    requires forall i | 0 <= i < |keys| :: keys[i] in w.jobs
    requires forall i, j | 0 <= i < j < |keys| :: keys[i] != keys[j]
    ensures var w' := Batch(cfg, w, keys, faults, t);
            (FullKey in w'.jobs <==> FullKey in w.jobs) && (FullKey in w.jobs ==> w'.jobs[FullKey] == w.jobs[FullKey])
  {
    BatchRows(cfg, w, keys, faults, t);
  }

  lemma ChunkEffects(cfg: Config, w: World, faults: Faults, t: nat)
    requires Shape(w.jobs, t) && FullKey in w.jobs
    requires !JobFails(cfg, w.nodes.Keys, FullKey, w.jobs[FullKey], faults)
    ensures JobEffects(cfg, w.nodes.Keys, FullKey, w.jobs[FullKey], faults)
         == Puts(Chunk(w.nodes.Keys, w.jobs[FullKey].cursor, cfg.chunkSize))
  {
    assert RowShape(FullKey, w.jobs[FullKey], t);
    var names := Chunk(w.nodes.Keys, w.jobs[FullKey].cursor, cfg.chunkSize);
    assert names[..|names|] == names;
  }

  lemma PutsOf(a: seq<string>, b: seq<string>)
    ensures Puts(a) + Puts(b) == Puts(a + b)
  {
  }

  /** The walk's row does not move in the other events of a run. */
  lemma WalkWaits(cfg: Config, w: World, e: Event, t: nat)
    requires ValidConfig(cfg) && Inv(cfg, w, t) && t < e.at && Enabled(cfg, w, e.action, e.at)
    requires FullKey in w.jobs && !ClaimsWalk(e.action)
    ensures var w' := Next(cfg, w, e.action, e.at);
            FullKey in w'.jobs && w'.jobs[FullKey].cursor == w.jobs[FullKey].cursor
  {
    if e.action.DrainBatch? {
      ShapeLater(w.jobs, t, e.at);
      BatchRows(cfg, w, e.action.keys, e.action.faults, e.at);
    } else {
      OthersKeepCursor(cfg, w, e.action, e.at);
    }
  }

  /** One more snapshot in front. */
  lemma VisitsOneMore(nodes: set<string>, snaps: seq<set<string>>, cursor: Option<string>, size: nat)
    requires size > 0
    ensures var c := Chunk(nodes, cursor, size);
            if |c| == size
            then Visits([nodes] + snaps, cursor, size) == c + Visits(snaps, Some(c[|c| - 1]), size)
              && (Ends([nodes] + snaps, cursor, size) <==> Ends(snaps, Some(c[|c| - 1]), size))
            else Visits([nodes] + snaps, cursor, size) == c && Ends([nodes] + snaps, cursor, size)
  {
    assert ([nodes] + snaps)[0] == nodes && ([nodes] + snaps)[1..] == snaps;
    assert Chunk(nodes, cursor, size) + [] == Chunk(nodes, cursor, size);
  }

  /** What the walk writes from here, and whether it ends, is what `Visits` says. */
  ghost predicate Agree(cfg: Config, w: World, t: nat, events: seq<Event>)
    requires FullKey in w.jobs && Runs(cfg, w, t, events)
  {
    var snaps, cursor := Snapshots(cfg, w, t, events), w.jobs[FullKey].cursor;
    && WalkEffects(cfg, w, t, events) == Puts(Visits(snaps, cursor, cfg.chunkSize))
    && (WalkEnded(cfg, w, t, events) <==> Ends(snaps, cursor, cfg.chunkSize))
  }

  lemma AgreeIdle(cfg: Config, w: World, t: nat)
    requires FullKey in w.jobs && Runs(cfg, w, t, [])
    ensures Agree(cfg, w, t, [])
  {
  }

  lemma AgreeWaiting(cfg: Config, w: World, t: nat, events: seq<Event>, e: Event, w': World, rest: seq<Event>)
    requires Runs(cfg, w, t, events) && events != [] && e == events[0] && rest == events[1..]
    requires w' == Next(cfg, w, e.action, e.at) && FullKey in w.jobs && !ClaimsWalk(e.action)
    requires FullKey in w'.jobs && w'.jobs[FullKey].cursor == w.jobs[FullKey].cursor && Agree(cfg, w', e.at, rest)
    ensures Agree(cfg, w, t, events)
  {
    assert Snapshots(cfg, w, t, events) == Snapshots(cfg, w', e.at, rest);
    assert WalkEffects(cfg, w, t, events) == WalkEffects(cfg, w', e.at, rest);
  }

  lemma ClaimUnfolds(cfg: Config, w: World, t: nat, events: seq<Event>, e: Event, w': World, rest: seq<Event>)
    requires Runs(cfg, w, t, events) && events != [] && e == events[0] && rest == events[1..]
    requires w' == Next(cfg, w, e.action, e.at) && FullKey in w.jobs && ClaimsWalk(e.action)
    ensures Snapshots(cfg, w, t, events) == [w.nodes.Keys] + Snapshots(cfg, w', e.at, rest)
    ensures WalkEffects(cfg, w, t, events)
         == JobEffects(cfg, w.nodes.Keys, FullKey, w.jobs[FullKey], e.action.faults) + WalkEffects(cfg, w', e.at, rest)
    ensures WalkEnded(cfg, w, t, events) <==> WalkEnded(cfg, w', e.at, rest)
  {
  }

  lemma WalkGone(cfg: Config, w: World, t: nat, events: seq<Event>)
    requires Runs(cfg, w, t, events) && FullKey !in w.jobs
    ensures Snapshots(cfg, w, t, events) == [] && WalkEffects(cfg, w, t, events) == [] && WalkEnded(cfg, w, t, events)
  {
  }

  /** The effects of one more chunk, then those of the visits that follow, are the effects of all the visits. */
  lemma ChunkAndVisits(nodes: set<string>, later: seq<set<string>>, cursor: Option<string>, size: nat,
      names: seq<string>, more: bool)
    requires size > 0 && names == Chunk(nodes, cursor, size) && (more <==> |names| == size)
    ensures Puts(names) + (if more then Puts(Visits(later, Some(names[|names| - 1]), size)) else [])
         == Puts(Visits([nodes] + if more then later else [], cursor, size))
    ensures Ends([nodes] + if more then later else [], cursor, size)
         <==> (more ==> Ends(later, Some(names[|names| - 1]), size))
  {
    VisitsOneMore(nodes, if more then later else [], cursor, size);
    if more { PutsOf(names, Visits(later, Some(names[|names| - 1]), size)); }
  }

  lemma AgreeClaimed(cfg: Config, w: World, t: nat, events: seq<Event>, e: Event, w': World, rest: seq<Event>,
      names: seq<string>)
    requires ValidConfig(cfg) && Runs(cfg, w, t, events) && events != [] && e == events[0] && rest == events[1..]
    requires w' == Next(cfg, w, e.action, e.at) && FullKey in w.jobs && ClaimsWalk(e.action)
    requires names == Chunk(w.nodes.Keys, w.jobs[FullKey].cursor, cfg.chunkSize)
    requires JobEffects(cfg, w.nodes.Keys, FullKey, w.jobs[FullKey], e.action.faults) == Puts(names)
    requires FullKey in w'.jobs <==> |names| == cfg.chunkSize
    requires FullKey in w'.jobs ==> w'.jobs[FullKey].cursor == Some(names[|names| - 1]) && Agree(cfg, w', e.at, rest)
    ensures Agree(cfg, w, t, events)
  {
    var later := Snapshots(cfg, w', e.at, rest);
    ClaimUnfolds(cfg, w, t, events, e, w', rest);
    ChunkAndVisits(w.nodes.Keys, later, w.jobs[FullKey].cursor, cfg.chunkSize, names, FullKey in w'.jobs);
    if FullKey !in w'.jobs { WalkGone(cfg, w', e.at, rest); }
  }

  /** The walk's row advances by the chunk it writes. */
  lemma WalkClaimed(cfg: Config, w: World, e: Event, t: nat)
    requires ValidConfig(cfg) && Shape(w.jobs, t) && t < e.at && Enabled(cfg, w, e.action, e.at)
    requires FullKey in w.jobs && ClaimsWalk(e.action)
    requires !JobFails(cfg, w.nodes.Keys, FullKey, w.jobs[FullKey], e.action.faults)
    ensures var names := Chunk(w.nodes.Keys, w.jobs[FullKey].cursor, cfg.chunkSize);
            var jobs := Next(cfg, w, e.action, e.at).jobs;
            && (FullKey in jobs <==> |names| == cfg.chunkSize)
            && (FullKey in jobs ==> names != [] && jobs[FullKey].cursor == Some(names[|names| - 1]))
            && JobEffects(cfg, w.nodes.Keys, FullKey, w.jobs[FullKey], e.action.faults) == Puts(names)
  {
    ShapeLater(w.jobs, t, e.at);
    BatchWalks(cfg, w, e.action.keys, e.action.faults, e.at);
    ChunkEffects(cfg, w, e.action.faults, e.at);
  }

  lemma UndisturbedTail(cfg: Config, w: World, t: nat, events: seq<Event>, e: Event, w': World, rest: seq<Event>)
    requires Runs(cfg, w, t, events)
    requires events != [] && e == events[0] && rest == events[1..] && w' == Next(cfg, w, e.action, e.at)
    requires FullKey in w.jobs && Undisturbed(cfg, w, t, events)
    ensures t < e.at && Enabled(cfg, w, e.action, e.at) && Guarded(cfg, w, e.action, e.at)
    ensures Runs(cfg, w', e.at, rest) && Undisturbed(cfg, w', e.at, rest)
    ensures ClaimsWalk(e.action) ==> !JobFails(cfg, w.nodes.Keys, FullKey, w.jobs[FullKey], e.action.faults)
  {
  }

  /** One event of an undisturbed run: the walk waits, or advances by a chunk. */
  lemma OneEvent(cfg: Config, w: World, t: nat, e: Event, w': World) returns (names: seq<string>)
    requires ValidConfig(cfg) && Inv(cfg, w, t) && FullKey in w.jobs
    requires t < e.at && Enabled(cfg, w, e.action, e.at) && w' == Next(cfg, w, e.action, e.at)
    requires ClaimsWalk(e.action) ==> !JobFails(cfg, w.nodes.Keys, FullKey, w.jobs[FullKey], e.action.faults)
    ensures names == Chunk(w.nodes.Keys, w.jobs[FullKey].cursor, cfg.chunkSize)
    ensures !ClaimsWalk(e.action) ==> FullKey in w'.jobs && w'.jobs[FullKey].cursor == w.jobs[FullKey].cursor
    ensures ClaimsWalk(e.action) ==>
              && (FullKey in w'.jobs <==> |names| == cfg.chunkSize)
              && (FullKey in w'.jobs ==> w'.jobs[FullKey].cursor == Some(names[|names| - 1]))
              && JobEffects(cfg, w.nodes.Keys, FullKey, w.jobs[FullKey], e.action.faults) == Puts(names)
  {
    names := Chunk(w.nodes.Keys, w.jobs[FullKey].cursor, cfg.chunkSize);
    if ClaimsWalk(e.action) { WalkClaimed(cfg, w, e, t); } else { WalkWaits(cfg, w, e, t); }
  }

  /** What the walk of a run writes is what a walk over its snapshots visits, and they end together. */
  lemma {:induction false} RunVisits(cfg: Config, w: World, t: nat, events: seq<Event>)
    requires ValidConfig(cfg) && Inv(cfg, w, t) && Runs(cfg, w, t, events)
    requires FullKey in w.jobs && Undisturbed(cfg, w, t, events)
    ensures Agree(cfg, w, t, events)
    decreases |events|
  {
    if events == [] {
      AgreeIdle(cfg, w, t);
    } else {
      var e, rest := events[0], events[1..];
      var w' := Next(cfg, w, e.action, e.at);
      UndisturbedTail(cfg, w, t, events, e, w', rest);
      StepKeepsInvExactly(cfg, w, e.action, t, e.at);
      var names := OneEvent(cfg, w, t, e, w');
      if FullKey in w'.jobs { RunVisits(cfg, w', e.at, rest); }
      if ClaimsWalk(e.action) {
        AgreeClaimed(cfg, w, t, events, e, w', rest, names);
      } else {
        AgreeWaiting(cfg, w, t, events, e, w', rest);
      }
    }
  }

  lemma {:induction false} CountPuts(v: seq<string>, n: string)
    ensures Count(Puts(v), Put(n)) == Count(v, n)
    decreases |v|
  {
    if v != [] {
      PutsUnfold(v);
      CountPuts(v[1..], n);
    }
  }

  /** Nothing but a purge takes a node away. */
  lemma NodeStays(cfg: Config, w: World, t: nat, e: Event, n: string)
    requires Shape(w.jobs, t) && t < e.at && Enabled(cfg, w, e.action, e.at)
    requires n in w.nodes && (e.action.Purge? ==> n in e.action.known)
    ensures n in Next(cfg, w, e.action, e.at).nodes
  {
    if e.action.DrainBatch? {
      ShapeLater(w.jobs, t, e.at);
      BatchRows(cfg, w, e.action.keys, e.action.faults, e.at);
    } else {
      OthersKeepNode(cfg, w, e.action, e.at, n);
    }
  }

  lemma EverywhereOneMore(nodes: set<string>, snaps: seq<set<string>>, n: string)
    requires n in nodes && Everywhere(snaps, n)
    ensures Everywhere([nodes] + snaps, n)
  {
    assert ([nodes] + snaps)[1..] == snaps;
  }

  /** A node no purge takes is in every snapshot. */
  lemma {:induction false} StaysManaged(cfg: Config, w: World, t: nat, events: seq<Event>, n: string)
    requires ValidConfig(cfg) && Inv(cfg, w, t) && Runs(cfg, w, t, events) && n in w.nodes
    requires forall i | 0 <= i < |events| && events[i].action.Purge? :: n in events[i].action.known
    ensures Everywhere(Snapshots(cfg, w, t, events), n)
    decreases |events|
  {
    if events != [] && FullKey in w.jobs {
      var e, rest := events[0], events[1..];
      var w' := Next(cfg, w, e.action, e.at);
      StepKeepsInvExactly(cfg, w, e.action, t, e.at);
      NodeStays(cfg, w, t, e, n);
      assert forall i | 0 <= i < |rest| :: rest[i] == events[i + 1];
      StaysManaged(cfg, w', e.at, rest, n);
      EverywhereOneMore(w.nodes.Keys, Snapshots(cfg, w', e.at, rest), n);
      assert [] + Snapshots(cfg, w', e.at, rest) == Snapshots(cfg, w', e.at, rest);
    }
  }

  /**
   * Over every run, whatever else happens between the chunks: a walk none of whose chunks fails, from its
   * start to the point where its row is gone, writes each node that is not purged meanwhile exactly once.
   */
  lemma WalkWritesOnce(cfg: Config, w: World, t: nat, events: seq<Event>, n: string)
    requires ValidConfig(cfg) && Inv(cfg, w, t) && Runs(cfg, w, t, events) && n in w.nodes
    requires FullKey in w.jobs && w.jobs[FullKey].cursor == None
    requires Undisturbed(cfg, w, t, events) && WalkEnded(cfg, w, t, events)
    requires forall i | 0 <= i < |events| && events[i].action.Purge? :: n in events[i].action.known
    ensures Count(WalkEffects(cfg, w, t, events), Put(n)) == 1
  {
    var snaps := Snapshots(cfg, w, t, events);
    RunVisits(cfg, w, t, events);
    StaysManaged(cfg, w, t, events, n);
    VisitedOnce(snaps, cfg.chunkSize, n);
    CountPuts(Visits(snaps, None, cfg.chunkSize), n);
  }
}
