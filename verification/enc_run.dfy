/** Whole runs: every interleaving of edits, projections, drains, rollbacks and reconciles. */
module EncRun {
  import opened Json
  import opened Options
  import opened Order
  import opened EncModel
  import opened EncDocument
  import opened EncOutbox
  import opened EncEdits
  import opened EncProjection
  import opened EncDrain
  import opened EncDrainInv
  import opened EncReconcile

  datatype Action =
    | CreateGroup(id: string, input: NewGroup)
    | UpdateGroup(id: string, patch: GroupPatch)
    | RemoveGroup(id: string)
    | SetRules(id: string, rules: seq<Rule>)
    | PutClass(id: string, class_: string, params: map<string, Meaning>)
    | DropClass(id: string, class_: string)
    | PutParameter(id: string, key: string, value: Meaning)
    | DropParameter(id: string, key: string)
    | Pin(id: string, names: set<string>)
    | Unpin(id: string, name: string)
    | ForceFull
    | Project(name: string, environment: Option<string>, facts: Facts)
    | Deactivate(name: string)
    | Purge(known: set<string>)
    | DrainBatch(keys: seq<JobKey>, faults: Faults)
    | AbortBatch(keys: seq<JobKey>, faults: Faults, done: nat)
    | Reconcile
    | Sweep(known: set<string>, stuck: set<string>)

  datatype Event = Event(action: Action, at: nat)

  function OrSame(e: Edit<World>, w: World): World {
    if e.Done? then e.value else w
  }

  /** What the source's own mechanisms guarantee of an action: fresh ids, and what a claim may select. */
  ghost predicate Enabled(cfg: Config, w: World, a: Action, t: nat) {
    match a
    case CreateGroup(id, _) => id !in w.groups
    case DrainBatch(keys, _) => IsBatch(cfg, w.jobs, keys, t)
    case AbortBatch(keys, _, _) => forall i | 0 <= i < |keys| :: keys[i] in w.jobs
    case _ => true
  }

  /** When the code's choice of what to re-queue is enough. */
  ghost predicate Guarded(cfg: Config, w: World, a: Action, t: nat) {
    match a
    case UpdateGroup(id, p) =>
      Update(w, id, p, t).Done? && AffectsMatching(p) ==> !WalkMisses(cfg, w, w.groups[id := Patched(w.groups[id], p)])
    case SetRules(id, rules) => id in w.groups ==> !WalkMisses(cfg, w, w.groups[id := w.groups[id].(rules := rules)])
    case Purge(known) => PruneSafe(w, known)
    case Sweep(known, stuck) => forall n | n in w.nodes && n in Orphans(w, known, stuck) :: Covers(w.jobs, n)
    case _ => true
  }

  function Next(cfg: Config, w: World, a: Action, t: nat): World
    requires a.DrainBatch? || a.AbortBatch? ==> forall i | 0 <= i < |a.keys| :: a.keys[i] in w.jobs
  {
    match a
    case CreateGroup(id, input) => OrSame(Create(w, id, input), w)
    case UpdateGroup(id, p) => OrSame(Update(w, id, p, t), w)
    case RemoveGroup(id) => OrSame(Remove(w, id, t), w)
    case SetRules(id, rules) => OrSame(ReplaceRules(w, id, rules, t), w)
    case PutClass(id, c, params) => OrSame(AssignClass(w, id, c, params, t), w)
    case DropClass(id, c) => OrSame(RemoveClass(w, id, c, t), w)
    case PutParameter(id, key, value) => OrSame(SetParameter(w, id, key, value, t), w)
    case DropParameter(id, key) => OrSame(RemoveParameter(w, id, key, t), w)
    case Pin(id, names) => OrSame(AddPins(w, id, names, t), w)
    case Unpin(id, name) => OrSame(RemovePin(w, id, name, t), w)
    case ForceFull => ForceReconcile(w, t)
    case Project(n, environment, facts) => UpsertNode(w, n, environment, facts, t)
    case Deactivate(n) => MarkDeactivated(w, n)
    case Purge(known) => Prune(w, known, t)
    case DrainBatch(keys, faults) => Batch(cfg, w, keys, faults, t)
    case AbortBatch(keys, faults, done) => Abort(cfg, w, keys, faults, done)
    case Reconcile => RequestReconcile(w, t)
    case Sweep(known, stuck) => SweepOrphans(w, known, stuck)
  }

  // ---- one step ----

  /** Group edits and projections. */
  predicate Edits(a: Action) {
    !a.UpdateGroup? && !a.SetRules? && !a.DrainBatch? && !a.AbortBatch? && !a.Reconcile? && !a.Sweep? && !a.Purge?
  }

  lemma EditStepKeepsInv(cfg: Config, w: World, a: Action, t0: nat, t: nat)
    requires ValidConfig(cfg) && Inv(cfg, w, t0) && t0 < t && Enabled(cfg, w, a, t) && Edits(a)
    ensures Inv(cfg, Next(cfg, w, a, t), t)
  {
    InvLater(cfg, w, t0, t);
    match a {
      case CreateGroup(id, input) => if Create(w, id, input).Done? { CreateKeepsInv(cfg, w, id, input, t0, t); }
      case RemoveGroup(id) => if Remove(w, id, t).Done? { RemoveKeepsInv(cfg, w, id, t0, t); }
      case PutClass(id, c, params) =>
        if id in w.groups {
          ContributeKeepsInv(cfg, w, id, w.groups[id].(classes := w.groups[id].classes[c := params]), t0, t);
        }
      case DropClass(id, c) =>
        if RemoveClass(w, id, c, t).Done? {
          ContributeKeepsInv(cfg, w, id, w.groups[id].(classes := w.groups[id].classes - {c}), t0, t);
        }
      case PutParameter(id, key, value) =>
        if id in w.groups {
          ContributeKeepsInv(cfg, w, id, w.groups[id].(parameters := w.groups[id].parameters[key := value]), t0, t);
        }
      case DropParameter(id, key) =>
        if RemoveParameter(w, id, key, t).Done? {
          ContributeKeepsInv(cfg, w, id, w.groups[id].(parameters := w.groups[id].parameters - {key}), t0, t);
        }
      case Pin(id, names) =>
        if id in w.groups { RepinKeepsInv(cfg, w, id, w.groups[id].pins + names, names, t0, t); }
      case Unpin(id, name) =>
        if RemovePin(w, id, name, t).Done? { RepinKeepsInv(cfg, w, id, w.groups[id].pins - {name}, {name}, t0, t); }
      case ForceFull => ForceReconcileKeepsInv(cfg, w, t0, t);
      case Project(n, environment, facts) => UpsertNodeKeepsInv(cfg, w, n, environment, facts, t0, t);
      case Deactivate(n) => MarkDeactivatedKeepsInv(cfg, w, n, t);
      case _ =>
    }
  }

  lemma GuardedEditExactly(cfg: Config, w: World, a: Action, t0: nat, t: nat)
    requires Inv(cfg, w, t0) && t0 < t && (a.UpdateGroup? || a.SetRules?)
    ensures Inv(cfg, Next(cfg, w, a, t), t) <==> Guarded(cfg, w, a, t)
  {
    InvLater(cfg, w, t0, t);
    match a {
      case UpdateGroup(id, p) => if Update(w, id, p, t).Done? { UpdateKeepsInvExactly(cfg, w, id, p, t0, t); }
      case SetRules(id, rules) => if id in w.groups { ReplaceRulesKeepsInvExactly(cfg, w, id, rules, t0, t); }
      case _ =>
    }
  }

  /**
   * Stale implies queued, one step, exactly: every action keeps it, and the four that may not keep it just when
   * their condition holds.
   */
  lemma StepKeepsInvExactly(cfg: Config, w: World, a: Action, t0: nat, t: nat)
    requires ValidConfig(cfg) && Inv(cfg, w, t0) && t0 < t && Enabled(cfg, w, a, t)
    ensures Inv(cfg, Next(cfg, w, a, t), t) <==> Guarded(cfg, w, a, t)
  {
    if Edits(a) {
      EditStepKeepsInv(cfg, w, a, t0, t);
    } else {
      match a {
        case Purge(known) => PruneKeepsInvExactly(cfg, w, known, t0, t);
        case DrainBatch(keys, faults) => BatchKeepsInv(cfg, w, keys, faults, t0, t);
        case AbortBatch(keys, faults, done) =>
          InvLater(cfg, w, t0, t);
          AbortKeepsInv(cfg, w, keys, faults, done, t);
        case Reconcile => RequestKeepsInv(cfg, w, t0, t);
        case Sweep(known, stuck) =>
          InvLater(cfg, w, t0, t);
          SweepKeepsInvExactly(cfg, w, known, stuck, t);
        case _ => GuardedEditExactly(cfg, w, a, t0, t);
      }
    }
  }

  // ---- runs ----

  /** A run whose actions happen at strictly increasing times. */
  ghost predicate Runs(cfg: Config, w: World, t: nat, events: seq<Event>)
    decreases |events|
  {
    events == [] ||
    (var e := events[0];
     && t < e.at && Enabled(cfg, w, e.action, e.at) && Guarded(cfg, w, e.action, e.at)
     && Runs(cfg, Next(cfg, w, e.action, e.at), e.at, events[1..]))
  }

  ghost function Final(cfg: Config, w: World, t: nat, events: seq<Event>): (World, nat)
    requires Runs(cfg, w, t, events)
    decreases |events|
  {
    if events == [] then (w, t)
    else Final(cfg, Next(cfg, w, events[0].action, events[0].at), events[0].at, events[1..])
  }

  /** One event, then the rest. */
  lemma RunCons(cfg: Config, w: World, t: nat, e: Event, after: World, rest: seq<Event>)
    requires t < e.at && Enabled(cfg, w, e.action, e.at) && Guarded(cfg, w, e.action, e.at)
    requires after == Next(cfg, w, e.action, e.at) && Runs(cfg, after, e.at, rest)
    ensures Runs(cfg, w, t, [e] + rest) && Final(cfg, w, t, [e] + rest) == Final(cfg, after, e.at, rest)
  {
    assert ([e] + rest)[0] == e && ([e] + rest)[1..] == rest;
  }

  lemma {:induction false} RunsConcat(cfg: Config, w: World, t: nat, first: seq<Event>, m: World, mid: nat,
      second: seq<Event>)
    requires Runs(cfg, w, t, first) && Final(cfg, w, t, first) == (m, mid) && Runs(cfg, m, mid, second)
    ensures Runs(cfg, w, t, first + second) && Final(cfg, w, t, first + second) == Final(cfg, m, mid, second)
    decreases |first|
  {
    if first == [] {
      assert first + second == second;
    } else {
      var e, rest := first[0], first[1..];
      var next := Next(cfg, w, e.action, e.at);
      assert first + second == [e] + (rest + second);
      RunsConcat(cfg, next, e.at, rest, m, mid, second);
      RunCons(cfg, w, t, e, next, rest + second);
    }
  }

  /** Stale implies queued, in every state of every guarded run. */
  lemma {:induction false} RunsKeepInv(cfg: Config, w: World, t: nat, events: seq<Event>)
    requires ValidConfig(cfg) && Inv(cfg, w, t) && Runs(cfg, w, t, events)
    ensures Inv(cfg, Final(cfg, w, t, events).0, Final(cfg, w, t, events).1)
    decreases |events|
  {
    if events != [] {
      var e := events[0];
      StepKeepsInvExactly(cfg, w, e.action, t, e.at);
      RunsKeepInv(cfg, Next(cfg, w, e.action, e.at), e.at, events[1..]);
    }
  }

  /** Some guarded run leads from one state to the other. */
  ghost predicate Reaches(cfg: Config, w: World, t: nat, r: World, end: nat) {
    exists events :: Runs(cfg, w, t, events) && Final(cfg, w, t, events) == (r, end)
  }

  lemma ReachesSelf(cfg: Config, w: World, t: nat)
    ensures Reaches(cfg, w, t, w, t)
  {
    assert Runs(cfg, w, t, []) && Final(cfg, w, t, []) == (w, t);
  }

  lemma ReachesNext(cfg: Config, w: World, t: nat, a: Action, at: nat)
    requires t < at && Enabled(cfg, w, a, at) && Guarded(cfg, w, a, at)
    ensures Reaches(cfg, w, t, Next(cfg, w, a, at), at)
  {
    RunCons(cfg, w, t, Event(a, at), Next(cfg, w, a, at), []);
    assert Runs(cfg, w, t, [Event(a, at)] + []);
  }

  lemma ReachesOn(cfg: Config, w: World, t: nat, m: World, mid: nat, r: World, end: nat)
    requires Reaches(cfg, w, t, m, mid) && Reaches(cfg, m, mid, r, end)
    ensures Reaches(cfg, w, t, r, end)
  {
    var first :| Runs(cfg, w, t, first) && Final(cfg, w, t, first) == (m, mid);
    var second :| Runs(cfg, m, mid, second) && Final(cfg, m, mid, second) == (r, end);
    RunsConcat(cfg, w, t, first, m, mid, second);
    assert Runs(cfg, w, t, first + second);
  }

  lemma ReachedInv(cfg: Config, w: World, t: nat, r: World, end: nat)
    requires ValidConfig(cfg) && Inv(cfg, w, t) && Reaches(cfg, w, t, r, end)
    ensures Inv(cfg, r, end)
  {
    var events :| Runs(cfg, w, t, events) && Final(cfg, w, t, events) == (r, end);
    RunsKeepInv(cfg, w, t, events);
  }

  const EMPTY := World(map[], map[], map[], map[], map[])

  /** From an empty installation: once nothing queued covers a node, its file is the document its groups describe. */
  lemma SettledNodeIsCurrent(cfg: Config, t: nat, events: seq<Event>, n: string)
    requires ValidConfig(cfg) && Runs(cfg, EMPTY, t, events)
    requires n in Final(cfg, EMPTY, t, events).0.nodes && !Covers(Final(cfg, EMPTY, t, events).0.jobs, n)
    ensures var w := Final(cfg, EMPTY, t, events).0;
            && n in w.disk && w.disk[n] == DocOf(cfg, w, n)
            && n in w.recs && w.recs[n].applied == AppliedOf(cfg, w, n)
  {
    assert Inv(cfg, EMPTY, t);
    RunsKeepInv(cfg, EMPTY, t, events);
  }

  /**
   * Whatever happened to the files and records, a request has every node current or queued again unless a walk
   * had passed it.
   */
  lemma RequestRestoresExactly(cfg: Config, w: World, t0: nat, t: nat)
    requires Shape(w.jobs, t0) && t0 < t && DeletesFirst(w) && w.recs.Keys <= w.nodes.Keys
    ensures Inv(cfg, RequestReconcile(w, t), t)
            <==> (NoCursor(w.jobs) || forall n | n in w.nodes :: Fresh(cfg, w, n) || Covers(w.jobs, n))
  {
    var w' := RequestReconcile(w, t);
    assert w'.jobs == UpsertAll(w.jobs, {FullKey}, t);
    UpsertShape(w.jobs, {FullKey}, t0, t);
    UpsertKeepsDeletesFirst(w, {FullKey}, t0, t);
    assert w'.jobs == w.(jobs := UpsertAll(w.jobs, {FullKey}, t)).jobs && DeletesFirst(w');
    forall n ensures Fresh(cfg, w', n) == Fresh(cfg, w, n) { QueueIrrelevant(cfg, w, w'.jobs, n); }
    forall n ensures Covers(w'.jobs, n) <==> NoCursor(w.jobs) || Covers(w.jobs, n) { RequestCovers(w.jobs, t, n); }
  }

  lemma RequestCovers(jobs: Jobs, t: nat, n: string)
    ensures Covers(EnqueueFullReconcile(jobs, t), n) <==> NoCursor(jobs) || Covers(jobs, n)
  {
  }

  /**
   * Self-healing over runs: from any files and records, with no walk part-way, a reconcile is requested and
   * anything may follow. Whenever nothing queued covers a node, its file and record are current.
   */
  lemma HealsOverRuns(cfg: Config, w: World, t0: nat, t: nat, events: seq<Event>, n: string)
    requires ValidConfig(cfg) && Shape(w.jobs, t0) && t0 < t && DeletesFirst(w) && w.recs.Keys <= w.nodes.Keys
    requires NoCursor(w.jobs) && Runs(cfg, RequestReconcile(w, t), t, events)
    requires var r := Final(cfg, RequestReconcile(w, t), t, events).0; n in r.nodes && !Covers(r.jobs, n)
    ensures Fresh(cfg, Final(cfg, RequestReconcile(w, t), t, events).0, n)
  {
    RequestRestoresExactly(cfg, w, t0, t);
    RunsKeepInv(cfg, RequestReconcile(w, t), t, events);
  }

  /**
   * And that document says what the rank order says: a parameter in the file is that of the matching group with
   * the highest rank, and of those with that rank the one with the greatest id.
   */
  lemma SettledFileFollowsRank(cfg: Config, t: nat, events: seq<Event>, n: string, id: string, key: string)
    requires ValidConfig(cfg) && Runs(cfg, EMPTY, t, events)
    requires var w := Final(cfg, EMPTY, t, events).0;
             && n in w.nodes && !Covers(w.jobs, n) && id in w.groups && key in w.groups[id].parameters
             && GroupMatches(cfg, w.groups[id], n, Den(w.nodes[n].facts))
             && forall o | o in w.groups && o != id && GroupMatches(cfg, w.groups[o], n, Den(w.nodes[n].facts))
                           && key in w.groups[o].parameters ::
                  w.groups[o].rank < w.groups[id].rank || (w.groups[o].rank == w.groups[id].rank && Less(o, id))
    ensures var w := Final(cfg, EMPTY, t, events).0;
            n in w.disk && key in w.disk[n].parameters && w.disk[n].parameters[key] == w.groups[id].parameters[key]
  {
    SettledNodeIsCurrent(cfg, t, events, n);
    var w := Final(cfg, EMPTY, t, events).0;
    HighestRankSetsParameter(cfg, w.groups, n, Den(w.nodes[n].facts), id, key);
  }

  /**
   * Purge, then return: whatever else runs after a safe purge, a purged node that is back and no longer
   * queued has its current file, and no deletion is left that could take it away.
   */
  lemma ReturnedNodeKeepsFile(cfg: Config, w: World, known: set<string>, t0: nat, t: nat, events: seq<Event>, n: string)
    requires ValidConfig(cfg) && Inv(cfg, w, t0) && t0 < t
    requires n in Doomed(w, known) && PruneSafe(w, known)
    requires Runs(cfg, Prune(w, known, t), t, events)
    requires var r := Final(cfg, Prune(w, known, t), t, events).0; n in r.nodes && !Covers(r.jobs, n)
    ensures var r := Final(cfg, Prune(w, known, t), t, events).0;
            n in r.disk && r.disk[n] == DocOf(cfg, r, n) && !Deletes(r.jobs, n)
  {
    PruneKeepsInvExactly(cfg, w, known, t0, t);
    RunsKeepInv(cfg, Prune(w, known, t), t, events);
    var last := Final(cfg, Prune(w, known, t), t, events);
    assert Inv(cfg, last.0, last.1);
    assert Fresh(cfg, last.0, n);
  }

  // ---- a name that is no file name ----

  /** Anything but a drained batch keeps the full reconcile's row and its cursor. */
  lemma OthersKeepCursor(cfg: Config, w: World, a: Action, t: nat)
    requires !a.DrainBatch? && Enabled(cfg, w, a, t) && FullKey in w.jobs
    ensures FullKey in Next(cfg, w, a, t).jobs && Next(cfg, w, a, t).jobs[FullKey].cursor == w.jobs[FullKey].cursor
  {
    if Edits(a) { EditsKeepCursor(cfg, w, a, t); }
  }

  lemma EditsKeepCursor(cfg: Config, w: World, a: Action, t: nat)
    requires Edits(a) && Enabled(cfg, w, a, t) && FullKey in w.jobs
    ensures FullKey in Next(cfg, w, a, t).jobs && Next(cfg, w, a, t).jobs[FullKey].cursor == w.jobs[FullKey].cursor
  {
  }

  /** Nothing but a purge of it takes a node away. */
  lemma OthersKeepNode(cfg: Config, w: World, a: Action, t: nat, n: string)
    requires !a.DrainBatch? && Enabled(cfg, w, a, t) && n in w.nodes && (a.Purge? ==> n in a.known)
    ensures n in Next(cfg, w, a, t).nodes
  {
  }

  /**
   * For ever: while a certname that is no file name is managed, a full reconcile that has yet to reach it
   * stays in the queue over every run, until a purge takes the node away.
   */
  lemma {:induction false} UnsafeNameBlocksForever(cfg: Config, w: World, t: nat, events: seq<Event>, n: string)
    requires ValidConfig(cfg) && Inv(cfg, w, t) && Runs(cfg, w, t, events)
    requires n in w.nodes && !SafeCertname(n) && FullCovers(w.jobs, n)
    requires forall i | 0 <= i < |events| && events[i].action.Purge? :: n in events[i].action.known
    ensures FullCovers(Final(cfg, w, t, events).0.jobs, n) && n in Final(cfg, w, t, events).0.nodes
    decreases |events|
  {
    if events != [] {
      var e, rest := events[0], events[1..];
      StepKeepsInvExactly(cfg, w, e.action, t, e.at);
      if e.action.DrainBatch? {
        InvLater(cfg, w, t, e.at);
        UnsafeNameBlocksBatch(cfg, w, n, e.action.keys, e.action.faults, e.at);
      } else {
        OthersKeepCursor(cfg, w, e.action, e.at);
        OthersKeepNode(cfg, w, e.action, e.at, n);
      }
      assert forall i | 0 <= i < |rest| :: rest[i] == events[i + 1];
      UnsafeNameBlocksForever(cfg, Next(cfg, w, e.action, e.at), e.at, rest, n);
    }
  }

  // ---- the hierarchy over runs ----

  lemma BatchKeepsGroups(cfg: Config, w: World, keys: seq<JobKey>, rows: Jobs, faults: Faults, t: nat)
    requires forall i | 0 <= i < |keys| :: keys[i] in rows
    ensures RunClaimed(cfg, w, keys, rows, faults, t).groups == w.groups
    decreases |keys|
  {
  }

  /** Every edit keeps the group hierarchy a forest with existing parents. */
  lemma StepKeepsHierarchy(cfg: Config, w: World, a: Action, t: nat)
    requires Hierarchy(w.groups) && Enabled(cfg, w, a, t)
    ensures Hierarchy(Next(cfg, w, a, t).groups)
  {
    match a {
      case CreateGroup(id, input) => if Create(w, id, input).Done? { CreateKeepsHierarchy(w, id, input); }
      case UpdateGroup(id, p) => if Update(w, id, p, t).Done? { UpdateKeepsHierarchy(w, id, p, t); }
      case RemoveGroup(id) => if Remove(w, id, t).Done? { RemoveKeepsHierarchy(w, id, t); }
      case DrainBatch(keys, faults) =>
        BatchKeepsGroups(cfg, w.(jobs := w.jobs - KeySet(keys)), keys, w.jobs, faults, t);
      case SetRules(id, rules) =>
        if id in w.groups { SameParentSameHierarchy(w.groups, id, w.groups[id].(rules := rules)); }
      case Pin(id, names) =>
        if id in w.groups { SameParentSameHierarchy(w.groups, id, w.groups[id].(pins := w.groups[id].pins + names)); }
      case Unpin(id, name) =>
        if id in w.groups { SameParentSameHierarchy(w.groups, id, w.groups[id].(pins := w.groups[id].pins - {name})); }
      case PutClass(id, c, params) =>
        if id in w.groups {
          SameParentSameHierarchy(w.groups, id, w.groups[id].(classes := w.groups[id].classes[c := params]));
        }
      case DropClass(id, c) =>
        if id in w.groups {
          SameParentSameHierarchy(w.groups, id, w.groups[id].(classes := w.groups[id].classes - {c}));
        }
      case PutParameter(id, key, value) =>
        if id in w.groups {
          SameParentSameHierarchy(w.groups, id, w.groups[id].(parameters := w.groups[id].parameters[key := value]));
        }
      case DropParameter(id, key) =>
        if id in w.groups {
          SameParentSameHierarchy(w.groups, id, w.groups[id].(parameters := w.groups[id].parameters - {key}));
        }
      case _ =>
    }
  }

  lemma {:induction false} RunsKeepHierarchy(cfg: Config, w: World, t: nat, events: seq<Event>)
    requires Hierarchy(w.groups) && Runs(cfg, w, t, events)
    ensures Hierarchy(Final(cfg, w, t, events).0.groups)
    decreases |events|
  {
    if events != [] {
      var e := events[0];
      StepKeepsHierarchy(cfg, w, e.action, e.at);
      RunsKeepHierarchy(cfg, Next(cfg, w, e.action, e.at), e.at, events[1..]);
    }
  }
}
