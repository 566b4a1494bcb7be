/**
 * The fact projection (apps/api/src/puppetdb/node-projection.service.ts): refreshing one node,
 * flagging a deactivated node, and pruning nodes PuppetDB no longer lists.
 */
module EncProjection {
  import opened Options
  import opened EncModel
  import opened EncOutbox
  import opened Json

  /** Whether a refresh counts as a change: a new node, another environment, or different facts. */
  predicate Changed(w: World, n: string, environment: Option<string>, facts: Facts) {
    n !in w.nodes || w.nodes[n].environment != environment || !StableEquals(w.nodes[n].facts, facts)
  }

  function UpsertNode(w: World, n: string, environment: Option<string>, facts: Facts, t: nat): World {
    w.(nodes := w.nodes[n := Node(environment, facts, false)],
       jobs := UpsertAll(w.jobs, if Changed(w, n, environment, facts) then {NodeKey(n)} else {}, t))
  }

  function MarkDeactivated(w: World, n: string): World {
    if n in w.nodes then w.(nodes := w.nodes[n := w.nodes[n].(deactivated := true)]) else w
  }

  function Doomed(w: World, known: set<string>): set<string> {
    w.nodes.Keys - known
  }

  /** Deleting a node cascades to its record; the file goes by a queued deletion. */
  function Prune(w: World, known: set<string>, t: nat): World {
    var doomed := Doomed(w, known);
    w.(nodes := w.nodes - doomed, recs := w.recs - doomed, jobs := UpsertAll(w.jobs, DeleteKeys(doomed), t))
  }

  lemma KeepsFresh(cfg: Config, w: World, w': World, n: string)
    requires Fresh(cfg, w, n) && w'.groups == w.groups && w'.disk == w.disk
    requires n in w'.recs && w'.recs[n] == w.recs[n] && FactsOf(w', n) == FactsOf(w, n)
    ensures Fresh(cfg, w', n)
  {
  }

  /** A refresh that queues nothing left the document as it was. */
  lemma UpsertNodeKeepsCurrent(cfg: Config, w: World, n: string, environment: Option<string>, facts: Facts, t: nat)
    requires Current(cfg, w)
    ensures Current(cfg, UpsertNode(w, n, environment, facts, t))
  {
    var w' := UpsertNode(w, n, environment, facts, t);
    forall m | m in w'.nodes ensures Fresh(cfg, w', m) || Covers(w'.jobs, m) {
      if m != n || !Changed(w, n, environment, facts) {
        assert m in w.nodes;
        UnchangedKeepsFresh(cfg, w, n, environment, facts, t, m);
      }
    }
  }

  lemma UnchangedKeepsFresh(
      cfg: Config, w: World, n: string, environment: Option<string>, facts: Facts, t: nat, m: string)
    requires m in w.nodes && (m != n || !Changed(w, n, environment, facts))
    requires Fresh(cfg, w, m) || Covers(w.jobs, m)
    ensures Fresh(cfg, UpsertNode(w, n, environment, facts, t), m)
            || Covers(UpsertNode(w, n, environment, facts, t).jobs, m)
  {
    if n in w.nodes { StableEqualsExact(w.nodes[n].facts, facts); }
    assert FactsOf(UpsertNode(w, n, environment, facts, t), m) == FactsOf(w, m);
    if Fresh(cfg, w, m) { KeepsFresh(cfg, w, UpsertNode(w, n, environment, facts, t), m); }
  }

  lemma UpsertNodeKeepsDeletesFirst(w: World, n: string, node: Node, jobs: Jobs)
    requires DeletesFirst(w.(jobs := jobs)) && (n in w.nodes || NodeKey(n) in jobs)
    ensures DeletesFirst(w.(nodes := w.nodes[n := node], jobs := jobs))
  {
    var mid, w' := w.(jobs := jobs), w.(nodes := w.nodes[n := node], jobs := jobs);
    assert forall m | Deletes(w'.jobs, m) :: Deletes(mid.jobs, m);
  }

  /** Refreshing a node keeps the invariant. */
  lemma UpsertNodeKeepsInv(cfg: Config, w: World, n: string, environment: Option<string>, facts: Facts, t0: nat, t: nat)
    requires Inv(cfg, w, t0) && t0 < t
    ensures Inv(cfg, UpsertNode(w, n, environment, facts, t), t)
  {
    var keys := if Changed(w, n, environment, facts) then {NodeKey(n)} else {};
    UpsertShape(w.jobs, keys, t0, t);
    UpsertKeepsDeletesFirst(w, keys, t0, t);
    UpsertNodeKeepsCurrent(cfg, w, n, environment, facts, t);
    UpsertNodeKeepsDeletesFirst(w, n, Node(environment, facts, false), UpsertAll(w.jobs, keys, t));
  }

  /** The invariant reads a node's facts and nothing else of it. */
  lemma SameFactsKeepInv(cfg: Config, w: World, nodes': map<string, Node>, t: nat)
    requires Inv(cfg, w, t) && nodes'.Keys == w.nodes.Keys
    requires forall m | m in w.nodes :: FactsOf(w.(nodes := nodes'), m) == FactsOf(w, m)
    ensures Inv(cfg, w.(nodes := nodes'), t)
  {
    var w' := w.(nodes := nodes');
    assert Current(cfg, w') by {
      forall m | m in w'.nodes ensures Fresh(cfg, w', m) || Covers(w'.jobs, m) {
        if Fresh(cfg, w, m) { KeepsFresh(cfg, w, w', m); } else { assert Covers(w.jobs, m); }
      }
    }
    assert DeletesFirst(w');
  }

  lemma MarkDeactivatedKeepsInv(cfg: Config, w: World, n: string, t: nat)
    requires Inv(cfg, w, t)
    ensures Inv(cfg, MarkDeactivated(w, n), t)
  {
    if n in w.nodes {
      SameFactsKeepInv(cfg, w, w.nodes[n := w.nodes[n].(deactivated := true)], t);
    }
  }

  /** No purged node leaves a queued rewrite behind, unless its deletion was queued before it. */
  predicate PruneSafe(w: World, known: set<string>) {
    forall n | n in Doomed(w, known) && NodeKey(n) in w.jobs :: DeleteKey(n) in w.jobs
  }

  lemma PruneShape(w: World, known: set<string>, t0: nat, t: nat)
    requires Shape(w.jobs, t0) && t0 < t
    ensures Shape(Prune(w, known, t).jobs, t)
  {
    UpsertShape(w.jobs, DeleteKeys(Doomed(w, known)), t0, t);
  }

  lemma PruneKeepsCurrent(cfg: Config, w: World, known: set<string>, t: nat)
    requires Current(cfg, w)
    ensures Current(cfg, Prune(w, known, t))
  {
    var w' := Prune(w, known, t);
    forall n | n in w'.nodes ensures Fresh(cfg, w', n) || Covers(w'.jobs, n) {
      assert n in w.nodes && n !in Doomed(w, known);
      if Fresh(cfg, w, n) { KeepsFresh(cfg, w, w', n); } else { assert Covers(w.jobs, n); }
    }
  }

  /** Purging keeps the invariant exactly when no purged node has a rewrite queued ahead of its deletion. */
  lemma PruneKeepsInvExactly(cfg: Config, w: World, known: set<string>, t0: nat, t: nat)
    requires Inv(cfg, w, t0) && t0 < t
    ensures Inv(cfg, Prune(w, known, t), t) <==> PruneSafe(w, known)
  {
    var w' := Prune(w, known, t);
    var doomed := Doomed(w, known);
    PruneShape(w, known, t0, t);
    PruneKeepsCurrent(cfg, w, known, t);
    assert w'.recs.Keys <= w'.nodes.Keys;
    if PruneSafe(w, known) {
      forall n | Deletes(w'.jobs, n)
        ensures n in w'.nodes ==> NodeKey(n) in w'.jobs
        ensures NodeKey(n) in w'.jobs ==> w'.jobs[DeleteKey(n)].createdAt < w'.jobs[NodeKey(n)].createdAt
      {
        assert NodeKey(n) !in DeleteKeys(doomed);
        if DeleteKey(n) in w.jobs { assert Deletes(w.jobs, n); } else { assert n in doomed; }
      }
    } else {
      var n :| n in doomed && NodeKey(n) in w.jobs && DeleteKey(n) !in w.jobs;
      assert DeleteKey(n) in DeleteKeys(doomed);
      assert Deletes(w'.jobs, n);
      assert RowShape(NodeKey(n), w.jobs[NodeKey(n)], t0);
      assert NodeKey(n) !in DeleteKeys(doomed);
      assert w'.jobs[NodeKey(n)] == w.jobs[NodeKey(n)];
      assert w'.jobs[DeleteKey(n)].createdAt == t;
    }
  }

  // ---- a whole refresh ----

  /** A node as PuppetDB lists it, with the facts the rules read. */
  datatype Reported = Reported(certname: string, environment: Option<string>, facts: Facts, active: bool)

  function RefreshOne(w: World, r: Reported, t: nat): World {
    if r.active then UpsertNode(w, r.certname, r.environment, r.facts, t) else MarkDeactivated(w, r.certname)
  }

  /**
   * Refreshing nodes in the order listed, one transaction each: `trail` is the world before each and after the
   * last.
   */
  ghost predicate Refreshes(trail: seq<World>, rs: seq<Reported>, t: nat) {
    && |trail| == |rs| + 1
    && forall i {:trigger rs[i]} | 0 <= i < |rs| :: trail[i + 1] == RefreshOne(trail[i], rs[i], t + i + 1)
  }

  function Names(rs: seq<Reported>): set<string> {
    set i | 0 <= i < |rs| :: rs[i].certname
  }

  /** The automatic prune refuses an empty answer and one less than half the size of the estate on record. */
  predicate ShouldPrune(cached: nat, reported: nat) {
    cached > 0 && reported > 0 && 2 * (cached - reported) <= cached
  }

  function GuardedPrune(w: World, known: set<string>, reported: nat, t: nat): World {
    if ShouldPrune(|w.nodes|, reported) then Prune(w, known, t) else w
  }

  lemma LaterInv(cfg: Config, w: World, t0: nat, t: nat)
    requires Inv(cfg, w, t0) && t0 <= t
    ensures Inv(cfg, w, t)
  {
    assert forall k | k in w.jobs :: RowShape(k, w.jobs[k], t0);
  }

  lemma RefreshOneKeepsInv(cfg: Config, w: World, r: Reported, t: nat, w': World)
    requires Inv(cfg, w, t) && w' == RefreshOne(w, r, t + 1)
    ensures Inv(cfg, w', t + 1)
  {
    if r.active {
      UpsertNodeKeepsInv(cfg, w, r.certname, r.environment, r.facts, t, t + 1);
    } else {
      LaterInv(cfg, w, t, t + 1);
      MarkDeactivatedKeepsInv(cfg, w, r.certname, t + 1);
    }
  }

  lemma RefreshesFront(trail: seq<World>, rs: seq<Reported>, t: nat)
    requires Refreshes(trail, rs, t) && rs != []
    ensures Refreshes(trail[..|rs|], rs[..|rs| - 1], t)
  {
    assert forall i | 0 <= i < |rs| - 1 :: rs[..|rs| - 1][i] == rs[i];
  }

  /** A node the answer does not list is as it was. */
  lemma {:induction false} UnlistedStays(trail: seq<World>, rs: seq<Reported>, t: nat, c: string)
    requires Refreshes(trail, rs, t) && forall i | 0 <= i < |rs| :: rs[i].certname != c
    ensures c in trail[|rs|].nodes <==> c in trail[0].nodes
    ensures c in trail[0].nodes ==> trail[|rs|].nodes[c] == trail[0].nodes[c]
    decreases |rs|
  {
    if rs != [] {
      var n := |rs|;
      RefreshesFront(trail, rs, t);
      assert forall i | 0 <= i < n - 1 :: rs[..n - 1][i] == rs[i];
      UnlistedStays(trail[..n], rs[..n - 1], t, c);
      assert trail[n] == RefreshOne(trail[n - 1], rs[n - 1], t + n);
    }
  }

  /**
   * A listed node, where the answer lists it last: an active one is managed with the environment and the facts
   * reported, and not deactivated; an inactive one keeps what it had but for the flag, and is not taken on.
   */
  lemma {:induction false} ListedIsRefreshed(trail: seq<World>, rs: seq<Reported>, t: nat, i: nat)
    requires Refreshes(trail, rs, t) && i < |rs| && forall j | i < j < |rs| :: rs[j].certname != rs[i].certname
    ensures var c, last := rs[i].certname, trail[|rs|];
            && (rs[i].active ==>
                  && c in last.nodes && last.nodes[c].environment == rs[i].environment
                  && last.nodes[c].facts == rs[i].facts && !last.nodes[c].deactivated)
            && (!rs[i].active ==>
                  && (c in last.nodes <==> c in trail[i].nodes)
                  && (c in last.nodes ==> last.nodes[c] == trail[i].nodes[c].(deactivated := true)))
    decreases |rs|
  {
    var n := |rs|;
    assert trail[n] == RefreshOne(trail[n - 1], rs[n - 1], t + n);
    if i < n - 1 {
      RefreshesFront(trail, rs, t);
      assert forall j | 0 <= j < n - 1 :: rs[..n - 1][j] == rs[j];
      ListedIsRefreshed(trail[..n], rs[..n - 1], t, i);
    }
  }

  lemma {:induction false} RefreshKeepsInv(cfg: Config, trail: seq<World>, rs: seq<Reported>, t: nat)
    requires Refreshes(trail, rs, t) && Inv(cfg, trail[0], t)
    ensures Inv(cfg, trail[|rs|], t + |rs|)
    decreases |rs|
  {
    if rs != [] {
      var n := |rs|;
      RefreshesFront(trail, rs, t);
      RefreshKeepsInv(cfg, trail[..n], rs[..n - 1], t);
      RefreshOneKeepsInv(cfg, trail[n - 1], rs[n - 1], t + n - 1, trail[n]);
    }
  }

  lemma GuardedPruneKeepsInvExactly(cfg: Config, w: World, known: set<string>, reported: nat, t: nat)
    requires Inv(cfg, w, t)
    ensures Inv(cfg, GuardedPrune(w, known, reported, t + 1), t + 1)
            <==> (ShouldPrune(|w.nodes|, reported) ==> PruneSafe(w, known))
  {
    if ShouldPrune(|w.nodes|, reported) {
      PruneKeepsInvExactly(cfg, w, known, t, t + 1);
    } else {
      LaterInv(cfg, w, t, t + 1);
    }
  }

  /** A whole projection keeps the invariant exactly when its prune, if it comes to one, is safe. */
  lemma ProjectKeepsInvExactly(cfg: Config, trail: seq<World>, rs: seq<Reported>, t: nat, last: World, end: nat)
    requires Refreshes(trail, rs, t) && Inv(cfg, trail[0], t) && last == trail[|rs|] && end == t + |rs|
    ensures Inv(cfg, GuardedPrune(last, Names(rs), |rs|, end + 1), end + 1)
            <==> (ShouldPrune(|last.nodes|, |rs|) ==> PruneSafe(last, Names(rs)))
  {
    assert Inv(cfg, last, end) by { RefreshKeepsInv(cfg, trail, rs, t); }
    GuardedPruneKeepsInvExactly(cfg, last, Names(rs), |rs|, end);
  }

  /**
   * A prune takes the nodes that are not listed, and their records, and queues their deletion; files and groups
   * stay.
   */
  lemma PruneTakesUnlisted(w: World, known: set<string>, t: nat)
    ensures var r := Prune(w, known, t);
            && (forall n :: n in r.nodes <==> n in w.nodes && n in known)
            && (forall n | n in r.nodes :: r.nodes[n] == w.nodes[n])
            && (forall n | n in w.nodes && n !in known ::
                  n !in r.recs && DeleteKey(n) in r.jobs && r.jobs[DeleteKey(n)].status == Pending
                  && r.jobs[DeleteKey(n)].nextAttemptAt == t)
            && (forall n | n in known :: (n in r.recs <==> n in w.recs) && (n in w.recs ==> r.recs[n] == w.recs[n]))
            && r.disk == w.disk && r.groups == w.groups
  {
    forall n | n in w.nodes && n !in known ensures DeleteKey(n) in DeleteKeys(Doomed(w, known)) {
    }
  }

  lemma SplitSize(a: set<string>, b: set<string>)
    ensures |a| == |a * b| + |a - b|
  {
    assert a == a * b + (a - b);
  }

  /** Names listed more than once, and names that are not on record: what the guard's count takes for nodes. */
  function Miscounted(w: World, rs: seq<Reported>): int {
    |rs| - |Names(rs)| + |Names(rs) - w.nodes.Keys|
  }

  /**
   * What the guard guards: an answer that lists only nodes on record, each once, never costs more than half
   * of the estate. One that does not may: exactly when the guard lets it through and the entries it
   * miscounts are more than the answer has to spare over half of the estate.
   */
  lemma PruneLosesHalfExactly(w: World, rs: seq<Reported>, t: nat)
    ensures Miscounted(w, rs) == 0 ==> 2 * (|w.nodes| - |GuardedPrune(w, Names(rs), |rs|, t).nodes|) <= |w.nodes|
    ensures 2 * (|w.nodes| - |GuardedPrune(w, Names(rs), |rs|, t).nodes|) > |w.nodes|
            <==> ShouldPrune(|w.nodes|, |rs|) && 2 * Miscounted(w, rs) > 2 * |rs| - |w.nodes|
  {
    var known := Names(rs);
    SplitSize(w.nodes.Keys, known);
    SplitSize(known, w.nodes.Keys);
    assert w.nodes.Keys * known == known * w.nodes.Keys;
    assert (w.nodes - Doomed(w, known)).Keys == w.nodes.Keys * known;
    assert |(w.nodes - Doomed(w, known)).Keys| == |w.nodes - Doomed(w, known)| && |w.nodes.Keys| == |w.nodes|;
  }

  /**
   * When the answer lists only nodes on record, each once, the prune runs exactly if it lists any and at least
   * half of the estate, and then exactly the listed nodes are left.
   */
  lemma PlausibleAnswerPrunesExactly(w: World, rs: seq<Reported>, t: nat)
    requires |Names(rs)| == |rs| && Names(rs) <= w.nodes.Keys
    ensures GuardedPrune(w, Names(rs), |rs|, t).nodes.Keys
            == if rs != [] && 2 * |rs| >= |w.nodes| then Names(rs) else w.nodes.Keys
  {
    var known := Names(rs);
    assert |w.nodes.Keys| == |w.nodes|;
    SplitSize(w.nodes.Keys, known);
    assert w.nodes.Keys * known == known;
    assert (w.nodes - Doomed(w, known)).Keys == known;
    if rs != [] { assert rs[0].certname in w.nodes; }
  }

  /**
   * The guard counts every listed node, inactive ones included, and inactive nodes that were never on
   * record stay off it: as many of those as there are nodes on record let the prune remove the whole estate.
   */
  lemma InactiveStrangersDefeatGuard(w: World, rs: seq<Reported>, t: nat)
    requires w.nodes != map[] && |rs| == |w.nodes| && Names(rs) !! w.nodes.Keys
    requires forall i | 0 <= i < |rs| :: !rs[i].active
    ensures Refreshes(seq(|rs| + 1, i => w), rs, t)
    ensures GuardedPrune(w, Names(rs), |rs|, t + |rs| + 1).nodes == map[]
  {
    StrangersChangeNothing(w, rs, t);
    assert |w.nodes| > 0;
    assert Doomed(w, Names(rs)) == w.nodes.Keys;
    assert w.nodes - w.nodes.Keys == map[];
  }

  lemma StrangersChangeNothing(w: World, rs: seq<Reported>, t: nat)
    requires Names(rs) !! w.nodes.Keys && forall i | 0 <= i < |rs| :: !rs[i].active
    ensures Refreshes(seq(|rs| + 1, i => w), rs, t)
  {
    forall i | 0 <= i < |rs| ensures RefreshOne(w, rs[i], t + i + 1) == w {
      assert rs[i].certname in Names(rs);
    }
  }
}
