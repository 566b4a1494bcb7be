/**
 * Where the outbox falls short, with what it takes: a request for a full reconcile that joins a walk
 * already under way, and a deletion that fails. EncPurge has the third, a purge ahead of a rewrite.
 */
module EncLimits {
  import opened Order
  import opened Json
  import opened Options
  import opened EncModel
  import opened EncOutbox
  import opened EncEdits
  import opened EncProjection
  import opened EncDrain
  import opened EncDrainInv
  import opened EncReconcile
  import opened EncRun
  import opened EncPurge

  // ---- an edit during a part-way walk ----

  /** The one group: it puts the pinned node into production. */
  function Production(n: string): Groups {
    map["g" := Group("prod", 0, Pinned, Some("production"), true, None, [], map[], map[], {n})]
  }

  const NEW_GROUP := NewGroup("prod", 0, Pinned, Some("production"), true, None)
  const DISABLE := GroupPatch(None, None, None, None, Some(false), None)

  lemma PinnedDocument(cfg: Config, n: string, facts: Meaning)
    ensures DocFor(cfg, Production(n), n, facts).environment == Some("production")
  {
    var groups := Production(n);
    assert Matched(cfg, groups, n, facts) == {"g"};
    var ids := Applied(cfg, groups, n, facts);
    assert |ids| == |{"g"}| == 1;
    assert ids[0] in ids;
    assert Merge(groups, ids) == Layer(Merge(groups, ids[..0]), groups[ids[0]]);
  }

  lemma DisabledDocument(cfg: Config, n: string, facts: Meaning)
    ensures var groups := Production(n)["g" := Patched(Production(n)["g"], DISABLE)];
            DocFor(cfg, groups, n, facts).environment == None
  {
    var groups := Production(n)["g" := Patched(Production(n)["g"], DISABLE)];
    assert Matched(cfg, groups, n, facts) == {};
    assert Applied(cfg, groups, n, facts) == [];
  }

  /** The full reconcile is the oldest row, the rewrite of `n` the next, and only rewrites follow. */
  ghost predicate Queued(w: World, n: string, t: nat) {
    && t >= 3
    && FullKey in w.jobs && w.jobs[FullKey] == FreshJob(FullKey, 2)
    && NodeKey(n) in w.jobs && w.jobs[NodeKey(n)].createdAt == 3 && Due(w.jobs[NodeKey(n)], t)
    && forall k | k in w.jobs && k != FullKey ::
         w.jobs[k].createdAt >= 3 && (w.jobs[k].createdAt == 3 ==> k == NodeKey(n))
  }

  lemma ProjectKeepsQueued(cfg: Config, w: World, n: string, m: string, t: nat) returns (after: World)
    requires Queued(w, n, t)
    ensures Reaches(cfg, w, t, after, t + 1) && Queued(after, n, t + 1) && after.nodes.Keys == w.nodes.Keys + {m}
            && after.groups == w.groups
  {
    after := UpsertNode(w, m, None, NO_FACTS, t + 1);
    ReachesNext(cfg, w, t, Project(m, None, NO_FACTS), t + 1);
  }

  lemma PlusRest(a: set<string>, names: set<string>, m: string)
    requires m in names
    ensures a + {m} + (names - {m}) == a + names && |names - {m}| < |names|
  {
  }

  /** Project every node of `names`. */
  lemma {:induction false} ProjectAll(cfg: Config, w: World, n: string, names: set<string>, t: nat)
      returns (r: World, end: nat)
    requires Queued(w, n, t)
    ensures Reaches(cfg, w, t, r, end) && Queued(r, n, end) && r.nodes.Keys == w.nodes.Keys + names
            && r.groups == w.groups
    decreases |names|, 1
  {
    if names == {} {
      r, end := w, t;
      ReachesSelf(cfg, w, t);
    } else {
      var m :| m in names;
      var after := ProjectKeepsQueued(cfg, w, n, m, t);
      r, end := ProjectRest(cfg, after, n, names, m, t + 1);
      ReachesOn(cfg, w, t, after, t + 1, r, end);
    }
  }

  lemma {:induction false} ProjectRest(cfg: Config, w: World, n: string, names: set<string>, m: string, t: nat)
      returns (r: World, end: nat)
    requires Queued(w, n, t) && m in names && m in w.nodes
    ensures Reaches(cfg, w, t, r, end) && Queued(r, n, end) && r.nodes.Keys == w.nodes.Keys + names
            && r.groups == w.groups
    decreases |names|, 0
  {
    PlusRest(w.nodes.Keys, names, m);
    r, end := ProjectAll(cfg, w, n, names - {m}, t);
    assert w.nodes.Keys + {m} == w.nodes.Keys;
  }

  const GROUP_CREATED := World(map[], map["g" := BlankGroup(NEW_GROUP)], map[], map[], map[])

  lemma GroupCreated(cfg: Config)
    ensures Reaches(cfg, EMPTY, 0, GROUP_CREATED, 1)
  {
    ReachesNext(cfg, EMPTY, 0, CreateGroup("g", NEW_GROUP), 1);
    assert Next(cfg, EMPTY, CreateGroup("g", NEW_GROUP), 1) == GROUP_CREATED;
  }

  lemma ReconcileForced(cfg: Config)
    ensures Reaches(cfg, GROUP_CREATED, 1, GROUP_CREATED.(jobs := map[FullKey := FreshJob(FullKey, 2)]), 2)
  {
    ReachesNext(cfg, GROUP_CREATED, 1, ForceFull, 2);
    assert Next(cfg, GROUP_CREATED, ForceFull, 2).jobs == map[FullKey := FreshJob(FullKey, 2)];
  }

  lemma NodePinned(cfg: Config, n: string) returns (w: World)
    ensures Reaches(cfg, GROUP_CREATED.(jobs := map[FullKey := FreshJob(FullKey, 2)]), 2, w, 3)
    ensures Queued(w, n, 3) && w.nodes == map[] && w.groups == Production(n)
  {
    var before := GROUP_CREATED.(jobs := map[FullKey := FreshJob(FullKey, 2)]);
    ReachesNext(cfg, before, 2, Pin("g", {n}), 3);
    w := Next(cfg, before, Pin("g", {n}), 3);
    assert BlankGroup(NEW_GROUP).pins + {n} == {n};
    assert w.groups == Production(n);
    PinnedJobs(before, n);
  }

  lemma PinnedJobs(w: World, n: string)
    requires w.jobs == map[FullKey := FreshJob(FullKey, 2)] && w.recs == map[]
             && w.groups == map["g" := BlankGroup(NEW_GROUP)]
    ensures Repin(w, "g", {n}, {n}, 3).jobs
            == map[FullKey := FreshJob(FullKey, 2), NodeKey(n) := FreshJob(NodeKey(n), 3)]
  {
    var keys := NodeKeys({n} + Affected(w.(groups := w.groups["g" := w.groups["g"].(pins := {n})]), "g"));
    assert NodeKey(n) in keys && forall k | k in keys :: k == NodeKey(n);
    assert keys == {NodeKey(n)};
  }

  /** A queue that starts with one full reconcile, requested before the pinned node is projected with the others. */
  lemma EstateQueued(cfg: Config, n: string, names: set<string>) returns (r: World, end: nat)
    ensures Reaches(cfg, EMPTY, 0, r, end) && Queued(r, n, end) && r.nodes.Keys == names && r.groups == Production(n)
  {
    var forced := GROUP_CREATED.(jobs := map[FullKey := FreshJob(FullKey, 2)]);
    GroupCreated(cfg);
    ReconcileForced(cfg);
    ReachesOn(cfg, EMPTY, 0, GROUP_CREATED, 1, forced, 2);
    var pinned := NodePinned(cfg, n);
    ReachesOn(cfg, EMPTY, 0, forced, 2, pinned, 3);
    r, end := ProjectAll(cfg, pinned, n, names, 3);
    ReachesOn(cfg, EMPTY, 0, pinned, 3, r, end);
  }

  /** The oldest due row, if there is only one as old, comes first in every claim. */
  lemma OldestFirst(cfg: Config, jobs: Jobs, keys: seq<JobKey>, k: JobKey, t: nat)
    requires ValidConfig(cfg) && IsBatch(cfg, jobs, keys, t) && k in jobs && Due(jobs[k], t)
    requires forall j | j in jobs && j != k :: jobs[k].createdAt < jobs[j].createdAt
    ensures keys != [] && keys[0] == k
  {
    OldestIsClaimed(cfg, jobs, keys, k, t);
    var i :| 0 <= i < |keys| && keys[i] == k;
    assert jobs[keys[0]].createdAt <= jobs[keys[i]].createdAt && keys[0] in jobs;
  }

  lemma OldestAlone(cfg: Config, jobs: Jobs, keys: seq<JobKey>, k: JobKey, t: nat)
    requires ValidConfig(cfg) && cfg.batchSize == 1 && IsBatch(cfg, jobs, keys, t) && k in jobs && Due(jobs[k], t)
    requires forall j | j in jobs && j != k :: jobs[k].createdAt < jobs[j].createdAt
    ensures keys == [k]
  {
    OldestFirst(cfg, jobs, keys, k, t);
  }

  lemma OldestIsClaimed(cfg: Config, jobs: Jobs, keys: seq<JobKey>, k: JobKey, t: nat)
    requires ValidConfig(cfg) && IsBatch(cfg, jobs, keys, t) && k in jobs && Due(jobs[k], t)
    requires forall j | j in jobs && j != k :: jobs[k].createdAt < jobs[j].createdAt
    ensures k in keys
  {
    var claimed := set i | 0 <= i < |keys| :: keys[i];
    assert keys != [] ==> keys[0] in claimed;
  }

  /** A claim that starts with the full reconcile takes the rewrite of `n` too, unless it takes nothing else. */
  lemma ClaimOfQueued(cfg: Config, w: World, keys: seq<JobKey>, n: string, t: nat)
    requires ValidConfig(cfg) && Queued(w, n, t) && IsBatch(cfg, w.jobs, keys, t)
    ensures keys != [] && keys[0] == FullKey
    ensures NodeKey(n) in keys || (keys == [FullKey] && cfg.batchSize == 1)
  {
    OldestFirst(cfg, w.jobs, keys, FullKey, t);
    assert |keys| > 1 ==> w.jobs[keys[1]].createdAt >= 3 && (w.jobs[keys[1]].createdAt == 3 ==> NodeKey(n) in keys);
  }

  /** A chunk as large as the estate ends with its last node: no node is ahead of it. */
  lemma ChunkOfAll(nodes: set<string>, size: nat, n: string)
    requires |nodes| == size && size > 0 && n in nodes
    ensures var c := Chunk(nodes, None, size); |c| == size && c != [] && !Less(c[|c| - 1], n)
  {
    ChunkIsAll(nodes, size);
    NothingAfterLast(SortedStrings(nodes), n);
  }

  lemma ChunkIsAll(nodes: set<string>, size: nat)
    requires |nodes| == size
    ensures Chunk(nodes, None, size) == SortedStrings(nodes) && |SortedStrings(nodes)| == size
  {
    assert Above(nodes, None) == nodes;
  }

  lemma NothingAfterLast(c: seq<string>, n: string)
    requires n in c && forall i, j | 0 <= i < j < |c| :: Less(c[i], c[j])
    ensures !Less(c[|c| - 1], n)
  {
    var i :| 0 <= i < |c| && c[i] == n;
    LessIrreflexive(n);
    if Less(c[|c| - 1], n) && i < |c| - 1 { LessTrans(n, c[|c| - 1], n); }
  }

  /** A claimed node job on a valid name that meets no fault leaves no row. */
  lemma {:induction false} NodeRowDone(cfg: Config, w: World, keys: seq<JobKey>, k: JobKey, t: nat)
    requires Shape(w.jobs, t) && k in keys && k != FullKey && SafeCertname(k.certname)
    requires forall i | 0 <= i < |keys| :: keys[i] in w.jobs
    requires forall i, j | 0 <= i < j < |keys| :: keys[i] != keys[j]
    ensures k !in Batch(cfg, w, keys, {}, t).jobs
    decreases |keys|
  {
    BatchStepByStep(cfg, w, keys, {}, t);
    var rest := keys[1..];
    var w1 := StepJob(cfg, w, keys[0], {}, t);
    StepShape(cfg, w, keys[0], {}, t);
    if keys[0] == k {
      assert RowShape(k, w.jobs[k], t);
      NodeJobStep(cfg, w, k, {}, t);
      BatchRows(cfg, w1, rest, {}, t);
    } else {
      NodeRowDone(cfg, w1, rest, k, t);
    }
  }

  /** A walk is under way, has passed `n`, and nothing but `n`'s own row, if still there, is as old as that row. */
  ghost predicate Passed(w: World, n: string, t: nat) {
    && n in w.nodes && Shape(w.jobs, t)
    && FullKey in w.jobs && w.jobs[FullKey].cursor.Some? && !Less(w.jobs[FullKey].cursor.value, n)
    && (NodeKey(n) in w.jobs ==>
          && w.jobs[NodeKey(n)].createdAt == 3 && Due(w.jobs[NodeKey(n)], t)
          && forall k | k in w.jobs && k != NodeKey(n) :: w.jobs[k].createdAt > 3)
  }

  /** The first job of the claim: the whole estate in one chunk, and a row that continues after its last node. */
  lemma ChunkPasses(cfg: Config, w: World, n: string, t: nat)
    requires ValidConfig(cfg) && Queued(w, n, t) && Shape(w.jobs, t) && t > 3
    requires AllSafe(w.nodes.Keys) && |w.nodes.Keys| == cfg.chunkSize && n in w.nodes
    ensures Passed(StepJob(cfg, w, FullKey, {}, t), n, t) && StepJob(cfg, w, FullKey, {}, t).groups == w.groups
  {
    ChunkSucceeds(cfg, w, t);
    ChunkRow(cfg, w, n, t);
    StepShape(cfg, w, FullKey, {}, t);
  }

  lemma ChunkRow(cfg: Config, w: World, n: string, t: nat)
    requires ValidConfig(cfg) && Shape(w.jobs, t) && FullKey in w.jobs && w.jobs[FullKey].cursor == None
    requires !JobFails(cfg, w.nodes.Keys, FullKey, w.jobs[FullKey], {}) && |w.nodes.Keys| == cfg.chunkSize
             && n in w.nodes
    ensures var w' := StepJob(cfg, w, FullKey, {}, t);
            && FullKey in w'.jobs && w'.jobs[FullKey].cursor.Some? && !Less(w'.jobs[FullKey].cursor.value, n)
            && w'.jobs[FullKey].createdAt == t && w'.nodes == w.nodes
  {
    FullStepQueue(cfg, w, {}, t);
    ChunkOfAll(w.nodes.Keys, cfg.chunkSize, n);
  }

  /** Running other rows keeps it so. */
  lemma RowsKeepPassed(cfg: Config, w: World, keys: seq<JobKey>, n: string, t0: nat, t: nat)
    requires Passed(w, n, t0) && t0 <= t && t > 3 && FullKey !in keys && SafeCertname(n)
    requires forall i | 0 <= i < |keys| :: keys[i] in w.jobs
    requires forall i, j | 0 <= i < j < |keys| :: keys[i] != keys[j]
    ensures Passed(Batch(cfg, w, keys, {}, t), n, t) && Batch(cfg, w, keys, {}, t).groups == w.groups
    ensures NodeKey(n) in keys ==> NodeKey(n) !in Batch(cfg, w, keys, {}, t).jobs
    ensures NodeKey(n) !in w.jobs ==> NodeKey(n) !in Batch(cfg, w, keys, {}, t).jobs
  {
    ShapeLater(w.jobs, t0, t);
    BatchRows(cfg, w, keys, {}, t);
    BatchKeepsGroups(cfg, w.(jobs := w.jobs - KeySet(keys)), keys, w.jobs, {}, t);
    if NodeKey(n) in keys { NodeRowDone(cfg, w, keys, NodeKey(n), t); }
  }

  lemma WalkPasses(cfg: Config, w: World, keys: seq<JobKey>, n: string, t: nat)
    requires ValidConfig(cfg) && Queued(w, n, t) && Shape(w.jobs, t) && t > 3 && IsBatch(cfg, w.jobs, keys, t)
    requires AllSafe(w.nodes.Keys) && |w.nodes.Keys| == cfg.chunkSize && n in w.nodes
    ensures var w' := Batch(cfg, w, keys, {}, t);
            Passed(w', n, t) && w'.groups == w.groups && (NodeKey(n) in w'.jobs ==> cfg.batchSize == 1)
  {
    ClaimOfQueued(cfg, w, keys, n, t);
    ChunkPasses(cfg, w, n, t);
    BatchStepByStep(cfg, w, keys, {}, t);
    assert NodeKey(n) in keys ==> NodeKey(n) in keys[1..];
    FromSecond(cfg, StepJob(cfg, w, FullKey, {}, t), keys, n, t);
  }

  lemma FromSecond(cfg: Config, w: World, keys: seq<JobKey>, n: string, t: nat)
    requires Passed(w, n, t) && t > 3 && SafeCertname(n) && keys != [] && keys[0] == FullKey
    requires forall i | 0 <= i < |keys[1..]| :: keys[1..][i] in w.jobs
    requires forall i, j | 0 <= i < j < |keys| :: keys[i] != keys[j]
    ensures Passed(Batch(cfg, w, keys[1..], {}, t), n, t) && Batch(cfg, w, keys[1..], {}, t).groups == w.groups
    ensures NodeKey(n) in keys[1..] ==> NodeKey(n) !in Batch(cfg, w, keys[1..], {}, t).jobs
  {
    assert FullKey !in keys[1..];
    RowsKeepPassed(cfg, w, keys[1..], n, t, t);
  }

  lemma QueuedLater(w: World, n: string, t: nat)
    requires Queued(w, n, t) && Shape(w.jobs, t)
    ensures Queued(w, n, t + 1) && Shape(w.jobs, t + 1)
  {
    ShapeLater(w.jobs, t, t + 1);
  }

  lemma OneSafe(names: set<string>, n: string)
    requires AllSafe(names) && n in names
    ensures AllSafe({n})
  {
  }

  /** Whatever run follows `r`, there is one that first performs `e`. */
  ghost predicate Leads(cfg: Config, w: World, t: nat, e: Event, r: World) {
    forall rest | Runs(cfg, r, e.at, rest) ::
      Runs(cfg, w, t, [e] + rest) && Final(cfg, w, t, [e] + rest) == Final(cfg, r, e.at, rest)
  }

  lemma DrainLeads(cfg: Config, w: World, t: nat, keys: seq<JobKey>, at: nat)
    requires t < at && IsBatch(cfg, w.jobs, keys, at)
    ensures Leads(cfg, w, t, Event(DrainBatch(keys, {}), at), Batch(cfg, w, keys, {}, at))
  {
    var r := Batch(cfg, w, keys, {}, at);
    forall rest | Runs(cfg, r, at, rest)
      ensures Runs(cfg, w, t, [Event(DrainBatch(keys, {}), at)] + rest)
      ensures Final(cfg, w, t, [Event(DrainBatch(keys, {}), at)] + rest) == Final(cfg, r, at, rest)
    {
      DrainCons(cfg, w, t, keys, {}, at, r, rest);
    }
  }

  /** The first claim of a queued estate. */
  lemma FirstDrain(cfg: Config, w: World, n: string, t: nat, at: nat) returns (e: Event, r: World)
    requires ValidConfig(cfg) && Queued(w, n, at) && Shape(w.jobs, at) && at > 3 && t < at
    requires AllSafe(w.nodes.Keys) && |w.nodes.Keys| == cfg.chunkSize && n in w.nodes
    ensures e.at == at && Leads(cfg, w, t, e, r)
    ensures Passed(r, n, at) && r.groups == w.groups && (NodeKey(n) in r.jobs ==> cfg.batchSize == 1)
  {
    var keys := BatchExists(cfg, w.jobs, at);
    DrainLeads(cfg, w, t, keys, at);
    WalkPasses(cfg, w, keys, n, at);
    e, r := Event(DrainBatch(keys, {}), at), Batch(cfg, w, keys, {}, at);
  }

  /** One more claim, of the one row it can hold. */
  lemma SecondDrain(cfg: Config, w: World, n: string, t: nat) returns (e: Event, r: World)
    requires ValidConfig(cfg) && Passed(w, n, t) && t > 3 && AllSafe({n}) && NodeKey(n) in w.jobs && cfg.batchSize == 1
    ensures e.at == t + 1 && Leads(cfg, w, t, e, r)
    ensures Passed(r, n, t + 1) && r.groups == w.groups && NodeKey(n) !in r.jobs
  {
    var keys := BatchExists(cfg, w.jobs, t + 1);
    DrainLeads(cfg, w, t, keys, t + 1);
    OldestAlone(cfg, w.jobs, keys, NodeKey(n), t + 1);
    RowsKeepPassed(cfg, w, keys, n, t, t + 1);
    e, r := Event(DrainBatch(keys, {}), t + 1), Batch(cfg, w, keys, {}, t + 1);
  }

  /** If the rewrite of `n` is still queued, one more drain removes it. */
  lemma RewriteDone(cfg: Config, w: World, n: string, t: nat) returns (events: seq<Event>)
    requires ValidConfig(cfg) && Passed(w, n, t) && t > 3 && AllSafe({n})
             && (NodeKey(n) in w.jobs ==> cfg.batchSize == 1)
    ensures Runs(cfg, w, t, events)
    ensures var (r, end) := Final(cfg, w, t, events); Passed(r, n, end) && NodeKey(n) !in r.jobs && r.groups == w.groups
  {
    events := [];
    if NodeKey(n) in w.jobs {
      var e, r := SecondDrain(cfg, w, n, t);
      assert Runs(cfg, r, t + 1, []) && Final(cfg, r, t + 1, []) == (r, t + 1);
      events := [e] + [];
    }
  }

  /** From a queued estate of one chunk, the drains after which the walk has passed `n` and nothing else covers it. */
  lemma WalkUnderWay(cfg: Config, w: World, n: string, t: nat) returns (events: seq<Event>)
    requires ValidConfig(cfg) && Queued(w, n, t + 1) && Shape(w.jobs, t + 1) && t >= 3
    requires AllSafe(w.nodes.Keys) && |w.nodes.Keys| == cfg.chunkSize && n in w.nodes
    ensures Runs(cfg, w, t, events)
    ensures var (r, end) := Final(cfg, w, t, events); Passed(r, n, end) && NodeKey(n) !in r.jobs && r.groups == w.groups
  {
    OneSafe(w.nodes.Keys, n);
    var e, first := FirstDrain(cfg, w, n, t, t + 1);
    var rest := RewriteDone(cfg, first, n, t + 1);
    events := [e] + rest;
  }

  lemma PassedReached(cfg: Config, names: set<string>, n: string) returns (r: World, end: nat)
    requires ValidConfig(cfg) && AllSafe(names) && |names| == cfg.chunkSize && n in names
    ensures Reaches(cfg, EMPTY, 0, r, end) && Passed(r, n, end) && NodeKey(n) !in r.jobs && Inv(cfg, r, end)
            && r.groups == Production(n)
  {
    var w, t := EstateQueued(cfg, n, names);
    EmptyInv(cfg);
    ReachedInv(cfg, EMPTY, 0, w, t);
    QueuedLater(w, n, t);
    var events := WalkUnderWay(cfg, w, n, t);
    r, end := Final(cfg, w, t, events).0, Final(cfg, w, t, events).1;
    ReachesOn(cfg, EMPTY, 0, w, t, r, end);
    ReachedInv(cfg, EMPTY, 0, r, end);
  }

  /**
   * For every estate as large as a chunk, with valid names, and every node of it, a run from an empty
   * installation reaches a state in which disabling the node's group leaves its file stale with nothing
   * queued that would rewrite it: the request joins a walk that has already passed the node.
   */
  lemma PartWayWalkSwallowsEdit(cfg: Config, names: set<string>, n: string) returns (w: World, end: nat)
    requires ValidConfig(cfg) && AllSafe(names) && |names| == cfg.chunkSize && n in names
    ensures Reaches(cfg, EMPTY, 0, w, end) && Update(w, "g", DISABLE, end + 1).Done?
    ensures var w' := Update(w, "g", DISABLE, end + 1).value;
            n in w'.nodes && !Covers(w'.jobs, n) && n in w'.disk && w'.disk[n] != DocOf(cfg, w', n)
  {
    w, end := PassedReached(cfg, names, n);
    EditSwallowed(cfg, w, n, end);
  }

  /**
   * The sweep with a list of nodes that is older than the directory it lists: for every such estate a run
   * reaches a state in which the sweep takes away the current file of a managed node, and leaves nothing
   * queued that would write it. The list is the one of the empty installation the run starts from.
   */
  lemma SweepRemovesCurrentFile(cfg: Config, names: set<string>, n: string) returns (w: World, end: nat)
    requires ValidConfig(cfg) && AllSafe(names) && |names| == cfg.chunkSize && n in names
    ensures Reaches(cfg, EMPTY, 0, w, end) && n in w.nodes && Fresh(cfg, w, n)
    ensures var w' := SweepOrphans(w, EMPTY.nodes.Keys, {}); n in w'.nodes && n !in w'.disk && !Covers(w'.jobs, n)
  {
    w, end := PassedReached(cfg, names, n);
    assert Fresh(cfg, w, n) || Covers(w.jobs, n);
  }

  lemma DisableIsDone(w: World, n: string, t: nat)
    requires w.groups == Production(n)
    ensures Update(w, "g", DISABLE, t).Done?
    ensures var w' := Update(w, "g", DISABLE, t).value;
            && w' == w.(groups := Production(n)["g" := Patched(Production(n)["g"], DISABLE)],
                        jobs := UpsertAll(w.jobs, {FullKey}, t))
  {
  }

  lemma EditSwallowed(cfg: Config, w: World, n: string, t: nat)
    requires Inv(cfg, w, t) && Passed(w, n, t) && NodeKey(n) !in w.jobs && w.groups == Production(n)
    ensures Update(w, "g", DISABLE, t + 1).Done?
    ensures var w' := Update(w, "g", DISABLE, t + 1).value;
            n in w'.nodes && !Covers(w'.jobs, n) && n in w'.disk && w'.disk[n] != DocOf(cfg, w', n)
  {
    PassedIsFresh(cfg, w, n, t);
    DisableIsDone(w, n, t + 1);
    LeftStale(cfg, w, n, Update(w, "g", DISABLE, t + 1).value, UpsertAll(w.jobs, {FullKey}, t + 1));
    StillPassed(w.jobs, n, t + 1);
  }

  /** The request keeps the cursor, so the walk it joins does not cover the node. */
  lemma StillPassed(jobs: Jobs, n: string, t: nat)
    requires FullKey in jobs && jobs[FullKey].cursor.Some? && !Less(jobs[FullKey].cursor.value, n)
             && NodeKey(n) !in jobs
    ensures !Covers(UpsertAll(jobs, {FullKey}, t), n)
  {
  }

  lemma LeftStale(cfg: Config, w: World, n: string, w': World, jobs: Jobs)
    requires w' == w.(groups := Production(n)["g" := Patched(Production(n)["g"], DISABLE)], jobs := jobs)
    requires n in w.disk && w.disk[n] == DocFor(cfg, Production(n), n, FactsOf(w, n))
    ensures w'.disk[n] != DocOf(cfg, w', n)
  {
    assert FactsOf(w', n) == FactsOf(w, n);
    PinnedDocument(cfg, n, FactsOf(w, n));
    DisabledDocument(cfg, n, FactsOf(w, n));
  }

  lemma PassedIsFresh(cfg: Config, w: World, n: string, t: nat)
    requires Inv(cfg, w, t) && Passed(w, n, t) && NodeKey(n) !in w.jobs && w.groups == Production(n)
    ensures n in w.disk && w.disk[n] == DocFor(cfg, Production(n), n, FactsOf(w, n))
  {
    assert Fresh(cfg, w, n) || Covers(w.jobs, n);
  }

  // ---- a failed deletion ----

  /** The row of a claimed node job that throws. */
  lemma {:induction false} FailedRow(cfg: Config, w: World, keys: seq<JobKey>, k: JobKey, faults: Faults, t: nat)
    requires Shape(w.jobs, t) && k in keys && k != FullKey && Throws(k, k.certname, faults)
    requires forall i | 0 <= i < |keys| :: keys[i] in w.jobs
    requires forall i, j | 0 <= i < j < |keys| :: keys[i] != keys[j]
    ensures k in w.jobs
    ensures var w' := Batch(cfg, w, keys, faults, t); k in w'.jobs && w'.jobs[k] == FailureRow(cfg, w.jobs[k], t)
    decreases |keys|
  {
    BatchStepByStep(cfg, w, keys, faults, t);
    var rest := keys[1..];
    var w1 := StepJob(cfg, w, keys[0], faults, t);
    StepShape(cfg, w, keys[0], faults, t);
    if keys[0] == k {
      assert RowShape(k, w.jobs[k], t);
      NodeJobStep(cfg, w, k, faults, t);
      BatchRows(cfg, w1, rest, faults, t);
    } else {
      FailedRow(cfg, w1, rest, k, faults, t);
    }
  }

  lemma StepKeepsFile(cfg: Config, w: World, k: JobKey, faults: Faults, t: nat, c: string)
    requires Shape(w.jobs, t) && k in w.jobs && k != DeleteKey(c) && c in w.disk && w.recs.Keys <= w.nodes.Keys
    ensures c in StepJob(cfg, w, k, faults, t).disk
  {
    assert RowShape(k, w.jobs[k], t);
    if k == FullKey {
      var names := Chunk(w.nodes.Keys, w.jobs[k].cursor, cfg.chunkSize);
      PutsResult(cfg, w.(jobs := w.jobs - {k}), names[..Written(k, names, faults)], c);
    } else {
      NodeJobStep(cfg, w, k, faults, t);
    }
  }

  /** A claimed rewrite under the deletion's key that meets no fault leaves the file. */
  lemma {:induction false} ClaimedRewrite(cfg: Config, w: World, keys: seq<JobKey>, c: string, faults: Faults, t: nat)
    requires Shape(w.jobs, t) && w.recs.Keys <= w.nodes.Keys
    requires DeleteKey(c) in keys ==>
               DeleteKey(c) in w.jobs && w.jobs[DeleteKey(c)].kind == Materialize && !Throws(DeleteKey(c), c, faults)
    requires DeleteKey(c) in keys || c in w.disk
    requires forall i | 0 <= i < |keys| :: keys[i] in w.jobs
    requires forall i, j | 0 <= i < j < |keys| :: keys[i] != keys[j]
    ensures c in Batch(cfg, w, keys, faults, t).disk
    decreases |keys|
  {
    BatchStepByStep(cfg, w, keys, faults, t);
    if keys != [] {
      var k, rest := keys[0], keys[1..];
      var w1 := StepJob(cfg, w, k, faults, t);
      StepShape(cfg, w, k, faults, t);
      EffectsKeepRecs(cfg, w.(jobs := w.jobs - {k}), JobEffects(cfg, w.nodes.Keys, k, w.jobs[k], faults));
      if k == DeleteKey(c) {
        assert RowShape(k, w.jobs[k], t);
        NodeJobStep(cfg, w, k, faults, t);
      } else if c in w.disk {
        StepKeepsFile(cfg, w, k, faults, t, c);
      }
      assert DeleteKey(c) in rest <==> DeleteKey(c) in keys && k != DeleteKey(c);
      ClaimedRewrite(cfg, w1, rest, c, faults, t);
    }
  }

  /**
   * A claimed deletion of an unmanaged name that fails comes back as a write. It may be claimed again
   * exactly when attempts are left and its backoff is over, and a claim that meets no fault then leaves a
   * file for the name.
   */
  lemma FailedDeletionRewritesExactly(cfg: Config, w: World, keys: seq<JobKey>, c: string, faults: Faults, t: nat,
      later: nat)
    requires Inv(cfg, w, t) && IsBatch(cfg, w.jobs, keys, t) && Deletes(w.jobs, c) && DeleteKey(c) in keys
    requires Throws(DeleteKey(c), c, faults) && c !in w.nodes && t <= later
    ensures var k := DeleteKey(c);
            var w1 := Batch(cfg, w, keys, faults, t);
            var attempts := w.jobs[k].attempts + 1;
            && c !in w1.nodes && k in w1.jobs && w1.jobs[k].kind == Materialize && w1.jobs[k].attempts == attempts
            && (Due(w1.jobs[k], later) <==> attempts < cfg.maxAttempts && t + Backoff(attempts) <= later)
    ensures var k := DeleteKey(c);
            var w1 := Batch(cfg, w, keys, faults, t);
            forall keys', faults' | IsBatch(cfg, w1.jobs, keys', later) && k in keys' && !Throws(k, c, faults') ::
              c in Batch(cfg, w1, keys', faults', later).disk
  {
    var k := DeleteKey(c);
    var w1 := Batch(cfg, w, keys, faults, t);
    FailedRow(cfg, w, keys, k, faults, t);
    BatchRows(cfg, w, keys, faults, t);
    BatchKeepsRecs(cfg, w, keys, faults, t);
    ShapeLater(w1.jobs, t, later);
    forall keys', faults' | IsBatch(cfg, w1.jobs, keys', later) && k in keys' && !Throws(k, c, faults')
      ensures c in Batch(cfg, w1, keys', faults', later).disk
    {
      ClaimedRewrite(cfg, w1, keys', c, faults', later);
    }
  }

  // ---- a run in which a deletion fails ----

  /** Draining the only row there is. */
  lemma DrainOnly(cfg: Config, w: World, k: JobKey, faults: Faults, t: nat, at: nat)
    requires ValidConfig(cfg) && w.jobs.Keys == {k} && Due(w.jobs[k], at) && t < at
    ensures Reaches(cfg, w, t, StepJob(cfg, w, k, faults, at), at)
  {
    assert IsBatch(cfg, w.jobs, [k], at);
    BatchStepByStep(cfg, w, [k], faults, at);
    assert [k][1..] == [];
    BatchStepByStep(cfg, StepJob(cfg, w, k, faults, at), [], faults, at);
    ReachesNext(cfg, w, t, DrainBatch([k], faults), at);
  }

  lemma ProjectOnly(cfg: Config, w: World, m: string, t: nat) returns (queued: World)
    requires w.jobs == map[] && m !in w.nodes
    ensures Reaches(cfg, w, t, queued, t + 1)
    ensures queued.jobs == map[NodeKey(m) := FreshJob(NodeKey(m), t + 1)] && queued.nodes.Keys == w.nodes.Keys + {m}
  {
    queued := UpsertNode(w, m, None, NO_FACTS, t + 1);
    ReachesNext(cfg, w, t, Project(m, None, NO_FACTS), t + 1);
  }

  lemma RewriteWrites(cfg: Config, w: World, m: string, t: nat)
    requires SafeCertname(m) && w.jobs == map[NodeKey(m) := FreshJob(NodeKey(m), t)]
    ensures var r := StepJob(cfg, w, NodeKey(m), {}, t + 1); r.jobs == map[] && r.nodes == w.nodes
  {
    NodeJobStep(cfg, w, NodeKey(m), {}, t + 1);
    assert w.jobs - {NodeKey(m)} == map[];
  }

  /** Project a node and drain its rewrite. */
  lemma ProjectAndWrite(cfg: Config, w: World, m: string, t: nat) returns (r: World)
    requires ValidConfig(cfg) && w.jobs == map[] && m !in w.nodes && SafeCertname(m)
    ensures Reaches(cfg, w, t, r, t + 2) && r.jobs == map[] && r.nodes.Keys == w.nodes.Keys + {m}
  {
    var queued := ProjectOnly(cfg, w, m, t);
    DrainOnly(cfg, queued, NodeKey(m), {}, t + 1, t + 2);
    RewriteWrites(cfg, queued, m, t + 1);
    r := StepJob(cfg, queued, NodeKey(m), {}, t + 2);
    ReachesOn(cfg, w, t, queued, t + 1, r, t + 2);
  }

  /** The row a failed deletion comes back as: no kind, one attempt, a backoff. */
  function Retry(c: string, t: nat): Job {
    Job(Some(c), Materialize, Pending, 1, None, t, t + Backoff(1))
  }

  lemma DeletionFails(cfg: Config, w: World, c: string, t: nat) returns (failed: World)
    requires ValidConfig(cfg) && cfg.maxAttempts > 1 && w.jobs == map[DeleteKey(c) := FreshJob(DeleteKey(c), t)]
    ensures Reaches(cfg, w, t, failed, t + 1) && failed == w.(jobs := map[DeleteKey(c) := Retry(c, t + 1)])
  {
    var k := DeleteKey(c);
    DrainOnly(cfg, w, k, {(k, c)}, t, t + 1);
    NodeJobStep(cfg, w, k, {(k, c)}, t + 1);
    failed := StepJob(cfg, w, k, {(k, c)}, t + 1);
  }

  lemma RetryWrites(cfg: Config, w: World, c: string, t: nat) returns (r: World)
    requires ValidConfig(cfg) && SafeCertname(c) && w.jobs == map[DeleteKey(c) := Retry(c, t)]
    ensures Reaches(cfg, w, t, r, t + Backoff(1)) && r.jobs == map[] && r.nodes == w.nodes && c in r.disk
  {
    var k, end := DeleteKey(c), t + Backoff(1);
    DrainOnly(cfg, w, k, {}, t, end);
    NodeJobStep(cfg, w, k, {}, end);
    r := StepJob(cfg, w, k, {}, end);
  }

  /** The deletion fails, backs off, and is claimed again. */
  lemma DeletionRetried(cfg: Config, w: World, c: string, t: nat) returns (r: World, end: nat)
    requires ValidConfig(cfg) && cfg.maxAttempts > 1 && SafeCertname(c)
    requires w.jobs == map[DeleteKey(c) := FreshJob(DeleteKey(c), t)]
    ensures Reaches(cfg, w, t, r, end) && r.jobs == map[] && r.nodes == w.nodes && c in r.disk
  {
    var failed := DeletionFails(cfg, w, c, t);
    r := RetryWrites(cfg, failed, c, t + 1);
    end := t + 1 + Backoff(1);
    ReachesOn(cfg, w, t, failed, t + 1, r, end);
  }

  lemma TwoWritten(cfg: Config, c: string, other: string) returns (w: World)
    requires ValidConfig(cfg) && SafeCertname(c) && SafeCertname(other) && c != other
    ensures Reaches(cfg, EMPTY, 0, w, 4) && w.nodes.Keys == {c, other} && w.jobs == map[]
  {
    var one := ProjectAndWrite(cfg, EMPTY, c, 0);
    w := ProjectAndWrite(cfg, one, other, 2);
    ReachesOn(cfg, EMPTY, 0, one, 2, w, 4);
  }

  /**
   * From an empty installation: two nodes are projected and written, one of them is purged, which the guard
   * allows, and its deletion fails once. The queue runs dry with a file for the purged node.
   */
  lemma FailedDeletionLeavesFile(cfg: Config, c: string, other: string) returns (w: World, t: nat, r: World, end: nat)
    requires ValidConfig(cfg) && cfg.maxAttempts > 1 && SafeCertname(c) && SafeCertname(other) && c != other
    ensures Reaches(cfg, EMPTY, 0, w, t) && c in w.nodes && PruneSafe(w, {other})
    ensures var purged := GuardedPrune(w, {other}, 1, t + 1);
            c !in purged.nodes && Deletes(purged.jobs, c) && Reaches(cfg, purged, t + 1, r, end)
    ensures r.jobs == map[] && c !in r.nodes && c in r.disk
  {
    w := TwoWritten(cfg, c, other);
    t := 4;
    var purged := GuardedPrune(w, {other}, 1, 5);
    OneOfTwoPurged(w, c, other, purged);
    r, end := DeletionRetried(cfg, purged, c, 5);
  }

  lemma OneOfTwoPurged(w: World, c: string, other: string, purged: World)
    requires w.nodes.Keys == {c, other} && c != other && w.jobs == map[] && purged == GuardedPrune(w, {other}, 1, 5)
    ensures c !in purged.nodes && purged.jobs == map[DeleteKey(c) := FreshJob(DeleteKey(c), 5)]
  {
    assert |w.nodes| == |w.nodes.Keys| == 2;
    assert Doomed(w, {other}) == {c};
    assert DeleteKey(c) in DeleteKeys({c});
  }

  lemma {:induction false} BatchKeepsRecs(cfg: Config, w: World, keys: seq<JobKey>, faults: Faults, t: nat)
    requires w.recs.Keys <= w.nodes.Keys
    requires forall i | 0 <= i < |keys| :: keys[i] in w.jobs
    requires forall i, j | 0 <= i < j < |keys| :: keys[i] != keys[j]
    ensures Batch(cfg, w, keys, faults, t).recs.Keys <= Batch(cfg, w, keys, faults, t).nodes.Keys
    decreases |keys|
  {
    BatchStepByStep(cfg, w, keys, faults, t);
    if keys != [] {
      EffectsKeepRecs(cfg, w.(jobs := w.jobs - {keys[0]}),
          JobEffects(cfg, w.nodes.Keys, keys[0], w.jobs[keys[0]], faults));
      BatchKeepsRecs(cfg, StepJob(cfg, w, keys[0], faults, t), keys[1..], faults, t);
    }
  }
}
