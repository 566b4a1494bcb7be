/**
 * The classification writes (apps/api/src/classification/classification.service.ts) as functions
 * on the state: which rows they change, which nodes each re-queues, and what each refuses.
 */
module EncEdits {
  import opened Options
  import opened EncModel
  import opened EncOutbox
  import opened Json
  import Forest

  datatype EditError =
    | NoSuchGroup | NameTaken | NoSuchParent | OwnParent | WouldCycle | HasChildren
    | ClassNotAssigned | ParameterNotSet | NotPinned

  datatype Edit<+T> = Done(value: T) | Refused(error: EditError)

  /** The settable fields of a group; `None` leaves a field as it is. */
  datatype GroupPatch = GroupPatch(
    name: Option<string>,
    rank: Option<int>,
    strategy: Option<Strategy>,
    environment: Option<Option<string>>,
    enabled: Option<bool>,
    parent: Option<Option<string>>)

  datatype NewGroup = NewGroup(
    name: string, rank: int, strategy: Strategy, environment: Option<string>, enabled: bool, parent: Option<string>)

  function ParentsOf(groups: Groups): Forest.Parents {
    map id | id in groups :: groups[id].parent
  }

  predicate NameInUse(groups: Groups, name: string, except: Option<string>) {
    exists id | id in groups :: groups[id].name == name && Some(id) != except
  }

  /** Nodes recorded with the group applied, and its pins. */
  function Affected(w: World, id: string): set<string>
    requires id in w.groups
  {
    (set n | n in w.recs && id in w.recs[n].applied) + w.groups[id].pins
  }

  function BlankGroup(input: NewGroup): Group {
    Group(input.name, input.rank, input.strategy, input.environment, input.enabled, input.parent,
          [], map[], map[], {})
  }

  function Create(w: World, id: string, input: NewGroup): Edit<World> {
    if NameInUse(w.groups, input.name, None) then Refused(NameTaken)
    else if input.parent.Some? && input.parent.value !in w.groups then Refused(NoSuchParent)
    else Done(w.(groups := w.groups[id := BlankGroup(input)]))
  }

  function Or<T>(o: Option<T>, d: T): T {
    if o.Some? then o.value else d
  }

  function Patched(g: Group, p: GroupPatch): Group {
    g.(name := Or(p.name, g.name), rank := Or(p.rank, g.rank), strategy := Or(p.strategy, g.strategy),
       environment := Or(p.environment, g.environment), enabled := Or(p.enabled, g.enabled),
       parent := Or(p.parent, g.parent))
  }

  predicate AffectsMatching(p: GroupPatch) {
    p.rank.Some? || p.strategy.Some? || p.environment.Some? || p.enabled.Some? || p.parent.Some?
  }

  function ParentProblem(groups: Groups, id: string, q: string): Option<EditError> {
    if q !in groups then Some(NoSuchParent)
    else if q == id then Some(OwnParent)
    else if !Forest.Walk(ParentsOf(groups), {id}, Some(q)) then Some(WouldCycle)
    else None
  }

  function Update(w: World, id: string, p: GroupPatch, t: nat): Edit<World> {
    if id !in w.groups then Refused(NoSuchGroup)
    else if p.name.Some? && NameInUse(w.groups, p.name.value, Some(id)) then Refused(NameTaken)
    else
      var problem := if p.parent.Some? && p.parent.value.Some?
                     then ParentProblem(w.groups, id, p.parent.value.value) else None;
      if problem.Some? then Refused(problem.value)
      else Done(w.(groups := w.groups[id := Patched(w.groups[id], p)],
                   jobs := UpsertAll(w.jobs, if AffectsMatching(p) then {FullKey} else {}, t)))
  }

  predicate HasChild(groups: Groups, id: string) {
    exists c | c in groups :: groups[c].parent == Some(id)
  }

  function Remove(w: World, id: string, t: nat): Edit<World> {
    if id !in w.groups then Refused(NoSuchGroup)
    else if HasChild(w.groups, id) then Refused(HasChildren)
    else Done(w.(groups := w.groups - {id}, jobs := UpsertAll(w.jobs, NodeKeys(Affected(w, id)), t)))
  }

  function ReplaceRules(w: World, id: string, rules: seq<Rule>, t: nat): Edit<World> {
    if id !in w.groups then Refused(NoSuchGroup)
    else Done(w.(groups := w.groups[id := w.groups[id].(rules := rules)],
                 jobs := UpsertAll(w.jobs, {FullKey}, t)))
  }

  /** A change of what a group contributes, not of whom it matches: re-queue the nodes it classifies. */
  function Contribute(w: World, id: string, g: Group, t: nat): World
    requires id in w.groups
  {
    w.(groups := w.groups[id := g], jobs := UpsertAll(w.jobs, NodeKeys(Affected(w, id)), t))
  }

  function AssignClass(w: World, id: string, name: string, params: map<string, Meaning>, t: nat): Edit<World> {
    if id !in w.groups then Refused(NoSuchGroup)
    else Done(Contribute(w, id, w.groups[id].(classes := w.groups[id].classes[name := params]), t))
  }

  function RemoveClass(w: World, id: string, name: string, t: nat): Edit<World> {
    if id !in w.groups then Refused(NoSuchGroup)
    else if name !in w.groups[id].classes then Refused(ClassNotAssigned)
    else Done(Contribute(w, id, w.groups[id].(classes := w.groups[id].classes - {name}), t))
  }

  function SetParameter(w: World, id: string, key: string, value: Meaning, t: nat): Edit<World> {
    if id !in w.groups then Refused(NoSuchGroup)
    else Done(Contribute(w, id, w.groups[id].(parameters := w.groups[id].parameters[key := value]), t))
  }

  function RemoveParameter(w: World, id: string, key: string, t: nat): Edit<World> {
    if id !in w.groups then Refused(NoSuchGroup)
    else if key !in w.groups[id].parameters then Refused(ParameterNotSet)
    else Done(Contribute(w, id, w.groups[id].(parameters := w.groups[id].parameters - {key}), t))
  }

  /** Replace the pins of a group, re-queueing the nodes whose pin changed and those it classifies. */
  function Repin(w: World, id: string, pins: set<string>, touched: set<string>, t: nat): World
    requires id in w.groups
  {
    var w' := w.(groups := w.groups[id := w.groups[id].(pins := pins)]);
    w'.(jobs := UpsertAll(w.jobs, NodeKeys(touched + Affected(w', id)), t))
  }

  function AddPins(w: World, id: string, names: set<string>, t: nat): Edit<World> {
    if id !in w.groups then Refused(NoSuchGroup)
    else Done(Repin(w, id, w.groups[id].pins + names, names, t))
  }

  function RemovePin(w: World, id: string, name: string, t: nat): Edit<World> {
    if id !in w.groups then Refused(NoSuchGroup)
    else if name !in w.groups[id].pins then Refused(NotPinned)
    else Done(Repin(w, id, w.groups[id].pins - {name}, {name}, t))
  }

  function ForceReconcile(w: World, t: nat): World {
    w.(jobs := UpsertAll(w.jobs, {FullKey}, t))
  }

  // ---- every edit re-queues enough ----

  lemma UpsertNothing(jobs: Jobs, t: nat)
    ensures UpsertAll(jobs, {}, t) == jobs
  {
  }

  /** A new group has neither rules nor pins: it matches nothing. */
  lemma CreateSame(cfg: Config, groups: Groups, id: string, input: NewGroup, n: string, facts: Meaning)
    requires id !in groups
    ensures SameFor(cfg, groups, groups[id := BlankGroup(input)], n, facts)
  {
    assert Matched(cfg, groups, n, facts) == Matched(cfg, groups[id := BlankGroup(input)], n, facts);
  }

  lemma CreateKeepsInv(cfg: Config, w: World, id: string, input: NewGroup, t0: nat, t: nat)
    requires Inv(cfg, w, t0) && t0 < t && id !in w.groups && Create(w, id, input).Done?
    ensures Inv(cfg, Create(w, id, input).value, t)
  {
    var groups' := w.groups[id := BlankGroup(input)];
    forall n | n in w.nodes ensures SameFor(cfg, w.groups, groups', n, FactsOf(w, n)) {
      CreateSame(cfg, w.groups, id, input, n, FactsOf(w, n));
    }
    UpsertNothing(w.jobs, t);
    EditKeepsInv(cfg, w, groups', {}, t0, t);
  }

  /** A rename leaves what the group does to any node. */
  lemma RenameSame(cfg: Config, groups: Groups, id: string, p: GroupPatch, n: string, facts: Meaning)
    requires id in groups && !AffectsMatching(p)
    ensures SameFor(cfg, groups, groups[id := Patched(groups[id], p)], n, facts)
  {
    assert Matched(cfg, groups, n, facts) == Matched(cfg, groups[id := Patched(groups[id], p)], n, facts);
  }

  lemma RenameKeepsInv(cfg: Config, w: World, id: string, p: GroupPatch, t0: nat, t: nat)
    requires Inv(cfg, w, t0) && t0 < t && Update(w, id, p, t).Done? && !AffectsMatching(p)
    ensures Inv(cfg, Update(w, id, p, t).value, t)
  {
    var groups' := w.groups[id := Patched(w.groups[id], p)];
    forall n | n in w.nodes ensures SameFor(cfg, w.groups, groups', n, FactsOf(w, n)) {
      RenameSame(cfg, w.groups, id, p, n, FactsOf(w, n));
    }
    EditKeepsInv(cfg, w, groups', {}, t0, t);
  }

  /**
   * A rename needs no rewrite. Any other field change requests a full reconcile, and keeps the invariant
   * exactly when no node that changes is behind the cursor of one already queued.
   */
  lemma UpdateKeepsInvExactly(cfg: Config, w: World, id: string, p: GroupPatch, t0: nat, t: nat)
    requires Inv(cfg, w, t0) && t0 < t && Update(w, id, p, t).Done?
    ensures Inv(cfg, Update(w, id, p, t).value, t)
            <==> (AffectsMatching(p) ==> !WalkMisses(cfg, w, w.groups[id := Patched(w.groups[id], p)]))
  {
    if AffectsMatching(p) {
      FullEditKeepsInvExactly(cfg, w, w.groups[id := Patched(w.groups[id], p)], t0, t);
    } else {
      RenameKeepsInv(cfg, w, id, p, t0, t);
    }
  }

  lemma ReplaceRulesKeepsInvExactly(cfg: Config, w: World, id: string, rules: seq<Rule>, t0: nat, t: nat)
    requires Inv(cfg, w, t0) && t0 < t && ReplaceRules(w, id, rules, t).Done?
    ensures Inv(cfg, ReplaceRules(w, id, rules, t).value, t)
            <==> !WalkMisses(cfg, w, w.groups[id := w.groups[id].(rules := rules)])
  {
    FullEditKeepsInvExactly(cfg, w, w.groups[id := w.groups[id].(rules := rules)], t0, t);
  }

  /** A current node that the edit does not queue does not have the group applied. */
  lemma UnaffectedUnmatched(cfg: Config, w: World, id: string, n: string)
    requires id in w.groups && n !in Affected(w, id) && Fresh(cfg, w, n)
    ensures id !in Matched(cfg, w.groups, n, FactsOf(w, n))
  {
    assert id !in w.recs[n].applied;
  }

  /** Removing a group that a node does not match changes nothing for the node. */
  lemma UnmatchedGoes(cfg: Config, groups: Groups, id: string, n: string, facts: Meaning)
    requires id !in Matched(cfg, groups, n, facts)
    ensures SameFor(cfg, groups, groups - {id}, n, facts)
  {
    assert Matched(cfg, groups, n, facts) == Matched(cfg, groups - {id}, n, facts);
  }

  /** Neither does changing it, as long as the node still does not match. */
  lemma UnmatchedChanges(cfg: Config, groups: Groups, id: string, g: Group, n: string, facts: Meaning)
    requires id in groups && id !in Matched(cfg, groups, n, facts)
    requires GroupMatches(cfg, g, n, facts) == GroupMatches(cfg, groups[id], n, facts)
    ensures SameFor(cfg, groups, groups[id := g], n, facts)
  {
    assert Matched(cfg, groups, n, facts) == Matched(cfg, groups[id := g], n, facts);
  }

  lemma RemoveKeepsInv(cfg: Config, w: World, id: string, t0: nat, t: nat)
    requires Inv(cfg, w, t0) && t0 < t && Remove(w, id, t).Done?
    ensures Inv(cfg, Remove(w, id, t).value, t)
  {
    var groups' := w.groups - {id};
    forall n | n in w.nodes && Fresh(cfg, w, n) && NodeKey(n) !in NodeKeys(Affected(w, id))
      ensures SameFor(cfg, w.groups, groups', n, FactsOf(w, n))
    {
      UnaffectedUnmatched(cfg, w, id, n);
      UnmatchedGoes(cfg, w.groups, id, n, FactsOf(w, n));
    }
    EditKeepsInv(cfg, w, groups', NodeKeys(Affected(w, id)), t0, t);
  }

  /** Two groups match the same nodes. */
  predicate SameMembership(a: Group, b: Group) {
    a.enabled == b.enabled && a.strategy == b.strategy && a.rules == b.rules && a.pins == b.pins
  }

  /** Editing what a group contributes keeps the invariant: assign or remove a class, set or remove a parameter. */
  lemma ContributeKeepsInv(cfg: Config, w: World, id: string, g: Group, t0: nat, t: nat)
    requires Inv(cfg, w, t0) && t0 < t && id in w.groups && SameMembership(g, w.groups[id])
    ensures Inv(cfg, Contribute(w, id, g, t), t)
  {
    var groups' := w.groups[id := g];
    forall n | n in w.nodes && Fresh(cfg, w, n) && NodeKey(n) !in NodeKeys(Affected(w, id))
      ensures SameFor(cfg, w.groups, groups', n, FactsOf(w, n))
    {
      UnaffectedUnmatched(cfg, w, id, n);
      UnmatchedChanges(cfg, w.groups, id, g, n, FactsOf(w, n));
    }
    EditKeepsInv(cfg, w, groups', NodeKeys(Affected(w, id)), t0, t);
  }

  /** Changing pins keeps the invariant as long as every node whose pin changed is re-queued. */
  lemma RepinKeepsInv(cfg: Config, w: World, id: string, pins: set<string>, touched: set<string>, t0: nat, t: nat)
    requires Inv(cfg, w, t0) && t0 < t && id in w.groups
    requires forall c :: (c in pins <==> c in w.groups[id].pins) || c in touched
    ensures Inv(cfg, Repin(w, id, pins, touched, t), t)
  {
    var g := w.groups[id].(pins := pins);
    var groups' := w.groups[id := g];
    var keys := NodeKeys(touched + Affected(w.(groups := groups'), id));
    forall n | n in w.nodes && Fresh(cfg, w, n) && NodeKey(n) !in keys
      ensures SameFor(cfg, w.groups, groups', n, FactsOf(w, n))
    {
      assert n !in touched && n !in Affected(w.(groups := groups'), id);
      assert id !in w.recs[n].applied;
      var facts := FactsOf(w, n);
      assert id !in Matched(cfg, w.groups, n, facts);
      assert GroupMatches(cfg, g, n, facts) == GroupMatches(cfg, w.groups[id], n, facts);
      UnmatchedChanges(cfg, w.groups, id, g, n, facts);
    }
    EditKeepsInv(cfg, w, groups', keys, t0, t);
  }

  lemma ForceReconcileKeepsInv(cfg: Config, w: World, t0: nat, t: nat)
    requires Inv(cfg, w, t0) && t0 < t
    ensures Inv(cfg, ForceReconcile(w, t), t)
  {
    FullEditKeepsInvExactly(cfg, w, w.groups, t0, t);
  }

  // ---- the hierarchy ----

  ghost predicate Hierarchy(groups: Groups) {
    Forest.IsForest(ParentsOf(groups))
  }

  lemma CreateKeepsHierarchy(w: World, id: string, input: NewGroup)
    requires Hierarchy(w.groups) && id !in w.groups && Create(w, id, input).Done?
    ensures Hierarchy(Create(w, id, input).value.groups)
  {
    Forest.CreateKeepsForest(ParentsOf(w.groups), id, input.parent);
    assert ParentsOf(w.groups[id := BlankGroup(input)]) == ParentsOf(w.groups)[id := input.parent];
  }

  /** A group that keeps its parent leaves the hierarchy as it was. */
  lemma SameParentSameHierarchy(groups: Groups, id: string, g: Group)
    requires id in groups && g.parent == groups[id].parent
    ensures ParentsOf(groups[id := g]) == ParentsOf(groups)
  {
  }

  lemma UpdateKeepsHierarchy(w: World, id: string, p: GroupPatch, t: nat)
    requires Hierarchy(w.groups) && Update(w, id, p, t).Done?
    ensures Hierarchy(Update(w, id, p, t).value.groups)
  {
    var parents := ParentsOf(w.groups);
    var g := Patched(w.groups[id], p);
    if p.parent == None {
      SameParentSameHierarchy(w.groups, id, g);
    } else {
      var q := p.parent.value;
      if q.Some? { Forest.WalkDecides(parents, id, q); }
      Forest.ReparentKeepsAcyclic(parents, id, q);
      assert ParentsOf(w.groups[id := g]) == parents[id := q];
    }
  }

  lemma RemoveKeepsHierarchy(w: World, id: string, t: nat)
    requires Hierarchy(w.groups) && Remove(w, id, t).Done?
    ensures Hierarchy(Remove(w, id, t).value.groups)
  {
    var parents := ParentsOf(w.groups);
    assert forall c | c in parents :: parents[c] == w.groups[c].parent;
    Forest.RemoveKeepsForest(parents, id);
    assert ParentsOf(w.groups - {id}) == parents - {id};
  }

  /** In a forest, a re-parenting to an existing group is refused exactly when it would close a cycle. */
  lemma RefusedReparentingsAreCycles(groups: Groups, id: string, q: string)
    requires Hierarchy(groups) && id in groups && q in groups
    ensures ParentProblem(groups, id, q).Some? <==> !Forest.Acyclic(ParentsOf(groups)[id := Some(q)])
  {
    Forest.CheckIsExact(ParentsOf(groups), id, q);
  }
}
