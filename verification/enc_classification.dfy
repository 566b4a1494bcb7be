/**
 * The classification writes as methods on the tables, each one transaction
 * (apps/api/src/classification/classification.service.ts).
 */
module EncClassification {
  import opened Order
  import opened Json
  import opened Options
  import opened EncModel
  import opened EncEdits
  import opened EncStore

  /** A write either commits what the edit describes, or is refused and changes nothing. */
  ghost predicate Commits(before: World, edit: Edit<World>, error: Option<EditError>, after: World) {
    match edit
    case Done(w) => error == None && after == w
    case Refused(e) => error == Some(e) && after == before
  }

  class ClassificationService {
    const store: Store
    const materialization: MaterializationService

    ghost predicate Valid() {
      materialization.store == store
    }

    constructor (store: Store)
      ensures Valid() && this.store == store
    {
      this.store := store;
      this.materialization := new MaterializationService(store);
    }

    /** The certnames a group is classifying: everything recorded with it applied, and its pins. */
    method AffectedCertnames(id: string) returns (names: seq<string>)
      requires id in store.groups
      ensures forall c :: c in names <==> c in Affected(store.World(), id)
    {
      var materialized := set n | n in store.recs && id in store.recs[n].applied;
      var pins := store.groups[id].pins;
      names := SortedStrings(materialized + pins);
    }

    method Create(id: string, input: NewGroup) returns (error: Option<EditError>)
      requires Valid() && id !in store.groups
      modifies store
      ensures Commits(old(store.World()), EncEdits.Create(old(store.World()), id, input), error, store.World())
    {
      if exists g | g in store.groups :: store.groups[g].name == input.name {
        return Some(NameTaken);
      }
      if input.parent.Some? && input.parent.value !in store.groups {
        return Some(NoSuchParent);
      }
      store.groups := store.groups[id := Group(input.name, input.rank, input.strategy, input.environment, input.enabled,
                                               input.parent, [], map[], map[], {})];
      error := None;
    }

    /** Check a proposed parent, without changing anything. */
    method CheckParent(id: string, q: string) returns (error: Option<EditError>)
      ensures error == ParentProblem(store.groups, id, q)
    {
      if q !in store.groups {
        return Some(NoSuchParent);
      }
      var parents := ParentsOf(store.groups);
      var accepted := Forest.AssertNoCycle(parents, id, q);
      Forest.WalkDecides(parents, id, Some(q));
      if q == id {
        return Some(OwnParent);
      }
      return if accepted then None else Some(WouldCycle);
    }

    method Patch(g: Group, p: GroupPatch) returns (r: Group)
      ensures r == Patched(g, p)
    {
      r := g;
      if p.name.Some? { r := r.(name := p.name.value); }
      if p.rank.Some? { r := r.(rank := p.rank.value); }
      if p.strategy.Some? { r := r.(strategy := p.strategy.value); }
      if p.environment.Some? { r := r.(environment := p.environment.value); }
      if p.enabled.Some? { r := r.(enabled := p.enabled.value); }
      if p.parent.Some? { r := r.(parent := p.parent.value); }
    }

    method Update(id: string, p: GroupPatch, t: nat) returns (error: Option<EditError>)
      requires Valid()
      modifies store
      ensures Commits(old(store.World()), EncEdits.Update(old(store.World()), id, p, t), error, store.World())
    {
      if id !in store.groups {
        return Some(NoSuchGroup);
      }
      if p.name.Some? && exists g | g in store.groups :: store.groups[g].name == p.name.value && g != id {
        return Some(NameTaken);
      }
      if p.parent.Some? && p.parent.value.Some? {
        var problem := CheckParent(id, p.parent.value.value);
        if problem.Some? {
          return problem;
        }
      }
      var g := Patch(store.groups[id], p);
      store.groups := store.groups[id := g];
      UpsertNothing(store.jobs, t);
      if p.rank.Some? || p.strategy.Some? || p.enabled.Some? || p.parent.Some? || p.environment.Some? {
        materialization.EnqueueFullReconcile(t);
      }
      error := None;
    }

    method Remove(id: string, t: nat) returns (error: Option<EditError>)
      requires Valid()
      modifies store
      ensures Commits(old(store.World()), EncEdits.Remove(old(store.World()), id, t), error, store.World())
    {
      if id !in store.groups {
        return Some(NoSuchGroup);
      }
      if exists c | c in store.groups :: store.groups[c].parent == Some(id) {
        return Some(HasChildren);
      }
      var affected := AffectedCertnames(id);
      assert Elems(affected) == Affected(store.World(), id);
      store.groups := store.groups - {id};
      materialization.EnqueueNodes(affected, t);
      error := None;
    }

    method ReplaceRules(id: string, rules: seq<Rule>, t: nat) returns (error: Option<EditError>)
      requires Valid()
      modifies store
      ensures Commits(old(store.World()), EncEdits.ReplaceRules(old(store.World()), id, rules, t), error, store.World())
    {
      if id !in store.groups {
        return Some(NoSuchGroup);
      }
      store.groups := store.groups[id := store.groups[id].(rules := rules)];
      materialization.EnqueueFullReconcile(t);
      error := None;
    }

    /** Store what a group contributes and re-queue the nodes it classifies. */
    method StoreContribution(id: string, g: Group, t: nat)
      requires Valid() && id in store.groups && g.pins == store.groups[id].pins
      modifies store
      ensures store.World() == Contribute(old(store.World()), id, g, t)
    {
      store.groups := store.groups[id := g];
      var affected := AffectedCertnames(id);
      assert Elems(affected) == Affected(old(store.World()), id);
      materialization.EnqueueNodes(affected, t);
    }

    method AssignClass(id: string, name: string, params: map<string, Meaning>, t: nat)
        returns (error: Option<EditError>)
      requires Valid()
      modifies store
      ensures Commits(old(store.World()), EncEdits.AssignClass(old(store.World()), id, name, params, t), error,
              store.World())
    {
      if id !in store.groups {
        return Some(NoSuchGroup);
      }
      var g := store.groups[id];
      StoreContribution(id, g.(classes := g.classes[name := params]), t);
      error := None;
    }

    method RemoveClass(id: string, name: string, t: nat) returns (error: Option<EditError>)
      requires Valid()
      modifies store
      ensures Commits(old(store.World()), EncEdits.RemoveClass(old(store.World()), id, name, t), error, store.World())
    {
      if id !in store.groups {
        return Some(NoSuchGroup);
      }
      var g := store.groups[id];
      if name !in g.classes {
        return Some(ClassNotAssigned);
      }
      StoreContribution(id, g.(classes := g.classes - {name}), t);
      error := None;
    }

    method SetParameter(id: string, key: string, value: Meaning, t: nat) returns (error: Option<EditError>)
      requires Valid()
      modifies store
      ensures Commits(old(store.World()), EncEdits.SetParameter(old(store.World()), id, key, value, t), error,
              store.World())
    {
      if id !in store.groups {
        return Some(NoSuchGroup);
      }
      var g := store.groups[id];
      StoreContribution(id, g.(parameters := g.parameters[key := value]), t);
      error := None;
    }

    method RemoveParameter(id: string, key: string, t: nat) returns (error: Option<EditError>)
      requires Valid()
      modifies store
      ensures Commits(old(store.World()), EncEdits.RemoveParameter(old(store.World()), id, key, t), error,
              store.World())
    {
      if id !in store.groups {
        return Some(NoSuchGroup);
      }
      var g := store.groups[id];
      if key !in g.parameters {
        return Some(ParameterNotSet);
      }
      StoreContribution(id, g.(parameters := g.parameters - {key}), t);
      error := None;
    }

    method AddPins(id: string, certnames: seq<string>, t: nat) returns (error: Option<EditError>)
      requires Valid()
      modifies store
      ensures Commits(old(store.World()), EncEdits.AddPins(old(store.World()), id, Elems(certnames), t), error,
              store.World())
    {
      if id !in store.groups {
        return Some(NoSuchGroup);
      }
      var pins := store.groups[id].pins;
      for i := 0 to |certnames|
        invariant store.World() == old(store.World())
        invariant pins == store.groups[id].pins + Elems(certnames[..i])
      {
        ElemsSnoc(certnames, i);
        pins := pins + {certnames[i]};
      }
      assert certnames[..|certnames|] == certnames;
      store.groups := store.groups[id := store.groups[id].(pins := pins)];
      var affected := AffectedCertnames(id);
      assert Elems(certnames + affected) == Elems(certnames) + Affected(store.World(), id);
      materialization.EnqueueNodes(certnames + affected, t);
      error := None;
    }

    method RemovePin(id: string, certname: string, t: nat) returns (error: Option<EditError>)
      requires Valid()
      modifies store
      ensures Commits(old(store.World()), EncEdits.RemovePin(old(store.World()), id, certname, t), error, store.World())
    {
      if id !in store.groups {
        return Some(NoSuchGroup);
      }
      if certname !in store.groups[id].pins {
        return Some(NotPinned);
      }
      store.groups := store.groups[id := store.groups[id].(pins := store.groups[id].pins - {certname})];
      var affected := AffectedCertnames(id);
      assert Elems([certname] + affected) == {certname} + Affected(store.World(), id);
      materialization.EnqueueNodes([certname] + affected, t);
      error := None;
    }

    method ForceReconcile(t: nat)
      requires Valid()
      modifies store
      ensures store.World() == EncEdits.ForceReconcile(old(store.World()), t)
    {
      materialization.EnqueueFullReconcile(t);
    }
  }
}
