/**
 * What each classification write leaves behind and when it is refused, told from the tables before and after
 * (apps/api/src/classification/classification.service.ts).
 */
module EncEditResults {
  import opened Options
  import opened Order
  import opened Json
  import opened EncModel
  import opened EncOutbox
  import opened EncEdits
  import opened EncDocument
  import Forest

  /** Nothing but the group `id`, which is there before and after, and the queue may differ. */
  ghost predicate OnlyGroup(w: World, w': World, id: string) {
    && id in w.groups && w'.groups.Keys == w.groups.Keys
    && (forall o | o in w.groups && o != id :: w'.groups[o] == w.groups[o])
    && w'.nodes == w.nodes && w'.recs == w.recs && w'.disk == w.disk
  }

  // ---- the queue ----

  /** An enqueue makes its keys pending and due at once, keeps what was queued of them, and touches no other row. */
  lemma EnqueueDues(jobs: Jobs, keys: set<JobKey>, t: nat, k: JobKey)
    ensures var out := UpsertAll(jobs, keys, t);
            && (k in out <==> k in jobs || k in keys)
            && (k in keys ==> out[k].status == Pending && out[k].nextAttemptAt == t)
            && (k in keys && k in jobs ==>
                  && out[k].certname == jobs[k].certname && out[k].kind == jobs[k].kind
                  && out[k].cursor == jobs[k].cursor && out[k].attempts == jobs[k].attempts
                  && out[k].createdAt == jobs[k].createdAt)
            && (k in keys && k !in jobs ==>
                  && out[k].attempts == 0 && out[k].cursor == None && out[k].createdAt == t
                  && (out[k].kind == Delete <==> k.DeleteKey?)
                  && (out[k].certname == if k.FullKey? then None else Some(k.certname)))
            && (k !in keys && k in jobs ==> out[k] == jobs[k])
  {
  }

  // ---- groups ----

  /** A new group holds what was given and nothing else. */
  lemma CreateStores(w: World, id: string, input: NewGroup, w': World)
    requires id !in w.groups && Create(w, id, input) == Done(w')
    ensures w'.groups.Keys == w.groups.Keys + {id} && forall o | o in w.groups :: w'.groups[o] == w.groups[o]
    ensures var g := w'.groups[id];
            && g.name == input.name && g.rank == input.rank && g.strategy == input.strategy
            && g.environment == input.environment && g.enabled == input.enabled && g.parent == input.parent
            && g.rules == [] && g.classes == map[] && g.parameters == map[] && g.pins == {}
    ensures w'.nodes == w.nodes && w'.jobs == w.jobs && w'.recs == w.recs && w'.disk == w.disk
  {
  }

  /** It is refused exactly when its name is taken or its parent does not exist. */
  lemma CreateRefusedExactly(w: World, id: string, input: NewGroup)
    ensures Create(w, id, input) == Refused(NameTaken) <==> exists o :: o in w.groups && w.groups[o].name == input.name
    ensures Create(w, id, input).Done?
            <==> (forall o | o in w.groups :: w.groups[o].name != input.name)
                 && (input.parent.Some? ==> input.parent.value in w.groups)
  {
  }

  /** Each field that the patch gives has the given value; the others, and what is not settable, are as before. */
  lemma UpdateStores(w: World, id: string, p: GroupPatch, t: nat, w': World)
    requires Update(w, id, p, t) == Done(w')
    ensures OnlyGroup(w, w', id)
    ensures var g, r := w.groups[id], w'.groups[id];
            && r.name == (if p.name.Some? then p.name.value else g.name)
            && r.rank == (if p.rank.Some? then p.rank.value else g.rank)
            && r.strategy == (if p.strategy.Some? then p.strategy.value else g.strategy)
            && r.environment == (if p.environment.Some? then p.environment.value else g.environment)
            && r.enabled == (if p.enabled.Some? then p.enabled.value else g.enabled)
            && r.parent == (if p.parent.Some? then p.parent.value else g.parent)
            && r.rules == g.rules && r.classes == g.classes && r.parameters == g.parameters && r.pins == g.pins
  {
  }

  /** A full reconcile is due at once unless the patch gives a name at most; no other row changes. */
  lemma UpdateQueues(w: World, id: string, p: GroupPatch, t: nat, w': World)
    requires Update(w, id, p, t) == Done(w')
    ensures p.rank == None && p.strategy == None && p.environment == None && p.enabled == None && p.parent == None
            ==> w'.jobs == w.jobs
    ensures p.rank.Some? || p.strategy.Some? || p.environment.Some? || p.enabled.Some? || p.parent.Some?
            ==> FullKey in w'.jobs && w'.jobs[FullKey].status == Pending && w'.jobs[FullKey].nextAttemptAt == t
    ensures w'.jobs.Keys <= w.jobs.Keys + {FullKey} && forall k | k in w.jobs && k != FullKey :: w'.jobs[k] == w.jobs[k]
  {
    EnqueueDues(w.jobs, {FullKey}, t, FullKey);
    UpsertNothing(w.jobs, t);
  }

  /**
   * In a forest an update is refused exactly when there is no such group, another group has the name, or
   * the parent does not exist or would close a cycle.
   */
  lemma UpdateRefusedExactly(w: World, id: string, p: GroupPatch, t: nat)
    requires Hierarchy(w.groups)
    ensures Update(w, id, p, t).Done?
            <==> && id in w.groups
                 && (p.name.Some? ==> forall o | o in w.groups && o != id :: w.groups[o].name != p.name.value)
                 && (p.parent.Some? && p.parent.value.Some? ==>
                       p.parent.value.value in w.groups
                       && Forest.Acyclic(ParentsOf(w.groups)[id := p.parent.value]))
  {
    if id in w.groups && p.parent.Some? && p.parent.value.Some? && p.parent.value.value in w.groups {
      RefusedReparentingsAreCycles(w.groups, id, p.parent.value.value);
    }
  }

  /** A removed group is gone, and nothing else is; it is refused exactly while it has children. */
  lemma RemoveStores(w: World, id: string, t: nat)
    ensures Remove(w, id, t).Done? <==> id in w.groups && forall c | c in w.groups :: w.groups[c].parent != Some(id)
    ensures Remove(w, id, t).Done? ==>
              var w' := Remove(w, id, t).value;
              && w'.groups.Keys == w.groups.Keys - {id} && (forall o | o in w'.groups :: w'.groups[o] == w.groups[o])
              && w'.nodes == w.nodes && w'.recs == w.recs && w'.disk == w.disk
  {
  }

  /** The rules are the given ones, and nothing else of the group changes. */
  lemma ReplaceRulesStores(w: World, id: string, rules: seq<Rule>, t: nat)
    ensures ReplaceRules(w, id, rules, t).Done? <==> id in w.groups
    ensures id in w.groups ==>
              var w' := ReplaceRules(w, id, rules, t).value;
              && OnlyGroup(w, w', id) && w'.groups[id].rules == rules
              && w'.groups[id].(rules := w.groups[id].rules) == w.groups[id]
  {
  }

  // ---- classes and parameters ----

  /** The class has the given parameters and no others; other classes and everything else are as before. */
  lemma AssignClassStores(w: World, id: string, c: string, params: map<string, Meaning>, t: nat)
    ensures AssignClass(w, id, c, params, t).Done? <==> id in w.groups
    ensures id in w.groups ==>
              var w' := AssignClass(w, id, c, params, t).value;
              var g, r := w.groups[id], w'.groups[id];
              && OnlyGroup(w, w', id) && r.(classes := g.classes) == g
              && r.classes.Keys == g.classes.Keys + {c} && r.classes[c] == params
              && forall d | d in g.classes && d != c :: r.classes[d] == g.classes[d]
  {
  }

  /** Removing a class that is assigned takes it away and nothing else. */
  lemma RemoveClassStores(w: World, id: string, c: string, t: nat)
    ensures RemoveClass(w, id, c, t).Done? <==> id in w.groups && c in w.groups[id].classes
    ensures RemoveClass(w, id, c, t).Done? ==>
              var w' := RemoveClass(w, id, c, t).value;
              var g, r := w.groups[id], w'.groups[id];
              && OnlyGroup(w, w', id) && r.(classes := g.classes) == g
              && r.classes.Keys == g.classes.Keys - {c} && forall d | d in r.classes :: r.classes[d] == g.classes[d]
  {
  }

  lemma SetParameterStores(w: World, id: string, key: string, value: Meaning, t: nat)
    ensures SetParameter(w, id, key, value, t).Done? <==> id in w.groups
    ensures id in w.groups ==>
              var w' := SetParameter(w, id, key, value, t).value;
              var g, r := w.groups[id], w'.groups[id];
              && OnlyGroup(w, w', id) && r.(parameters := g.parameters) == g
              && r.parameters.Keys == g.parameters.Keys + {key} && r.parameters[key] == value
              && forall k | k in g.parameters && k != key :: r.parameters[k] == g.parameters[k]
  {
  }

  lemma RemoveParameterStores(w: World, id: string, key: string, t: nat)
    ensures RemoveParameter(w, id, key, t).Done? <==> id in w.groups && key in w.groups[id].parameters
    ensures RemoveParameter(w, id, key, t).Done? ==>
              var w' := RemoveParameter(w, id, key, t).value;
              var g, r := w.groups[id], w'.groups[id];
              && OnlyGroup(w, w', id) && r.(parameters := g.parameters) == g
              && r.parameters.Keys == g.parameters.Keys - {key}
              && forall k | k in r.parameters :: r.parameters[k] == g.parameters[k]
  {
  }

  // ---- pins ----

  lemma AddPinsStores(w: World, id: string, names: set<string>, t: nat)
    ensures AddPins(w, id, names, t).Done? <==> id in w.groups
    ensures id in w.groups ==>
              var w' := AddPins(w, id, names, t).value;
              var g, r := w.groups[id], w'.groups[id];
              && OnlyGroup(w, w', id) && r.(pins := g.pins) == g
              && forall n :: n in r.pins <==> n in g.pins || n in names
  {
  }

  lemma RemovePinStores(w: World, id: string, name: string, t: nat)
    ensures RemovePin(w, id, name, t).Done? <==> id in w.groups && name in w.groups[id].pins
    ensures RemovePin(w, id, name, t).Done? ==>
              var w' := RemovePin(w, id, name, t).value;
              var g, r := w.groups[id], w'.groups[id];
              && OnlyGroup(w, w', id) && r.(pins := g.pins) == g
              && forall n :: n in r.pins <==> n in g.pins && n != name
  {
  }

  // ---- undoing ----

  /** Removing what was just assigned, set or pinned, and was not there before, leaves the groups as they were. */
  lemma RemoveClassUndoes(w: World, id: string, c: string, params: map<string, Meaning>, t: nat, later: nat)
    requires id in w.groups && c !in w.groups[id].classes
    ensures var w' := AssignClass(w, id, c, params, t).value;
            RemoveClass(w', id, c, later).Done? && RemoveClass(w', id, c, later).value.groups == w.groups
  {
    var g := w.groups[id];
    assert g.classes[c := params] - {c} == g.classes;
    PutBackGroup(w.groups, id, g.(classes := g.classes[c := params]));
  }

  lemma RemoveParameterUndoes(w: World, id: string, key: string, value: Meaning, t: nat, later: nat)
    requires id in w.groups && key !in w.groups[id].parameters
    ensures var w' := SetParameter(w, id, key, value, t).value;
            RemoveParameter(w', id, key, later).Done?
            && RemoveParameter(w', id, key, later).value.groups == w.groups
  {
    var g := w.groups[id];
    assert g.parameters[key := value] - {key} == g.parameters;
    PutBackGroup(w.groups, id, g.(parameters := g.parameters[key := value]));
  }

  lemma RemovePinUndoes(w: World, id: string, name: string, t: nat, later: nat)
    requires id in w.groups && name !in w.groups[id].pins
    ensures var w' := AddPins(w, id, {name}, t).value;
            RemovePin(w', id, name, later).Done? && RemovePin(w', id, name, later).value.groups == w.groups
  {
    var g := w.groups[id];
    assert g.pins + {name} - {name} == g.pins;
    PutBackGroup(w.groups, id, g.(pins := g.pins + {name}));
  }

  lemma PutBackGroup(groups: Groups, id: string, g: Group)
    requires id in groups
    ensures groups[id := g][id := groups[id]] == groups
  {
  }

  // ---- what a write means for a node ----

  /** What a group contributes has no part in whom it matches. */
  lemma ParametersDoNotMatch(cfg: Config, groups: Groups, groups': Groups, id: string, n: string, facts: Meaning)
    requires id in groups && groups'.Keys == groups.Keys
    requires forall o | o in groups && o != id :: groups'[o] == groups[o]
    requires groups'[id].(parameters := groups[id].parameters) == groups[id]
    ensures forall o | o in groups ::
              GroupMatches(cfg, groups'[o], n, facts) == GroupMatches(cfg, groups[o], n, facts)
              && groups'[o].rank == groups[o].rank
  {
  }

  /**
   * A parameter written to a group shows in the document of every node that the group matches and for which
   * no other matching group with that parameter outranks it.
   */
  lemma ParameterShows(
      cfg: Config, groups: Groups, groups': Groups, id: string, key: string, value: Meaning, n: string, facts: Meaning)
    requires id in groups && groups'.Keys == groups.Keys
    requires forall o | o in groups && o != id :: groups'[o] == groups[o]
    requires groups'[id].(parameters := groups[id].parameters) == groups[id]
    requires key in groups'[id].parameters && groups'[id].parameters[key] == value
    requires GroupMatches(cfg, groups[id], n, facts)
    requires forall o | o in groups && o != id && GroupMatches(cfg, groups[o], n, facts)
                        && key in groups[o].parameters ::
               groups[o].rank < groups[id].rank || (groups[o].rank == groups[id].rank && Less(o, id))
    ensures key in DocFor(cfg, groups', n, facts).parameters && DocFor(cfg, groups', n, facts).parameters[key] == value
  {
    ParametersDoNotMatch(cfg, groups, groups', id, n, facts);
    HighestRankSetsParameter(cfg, groups', n, facts, id, key);
  }

  lemma SetParameterShows(cfg: Config, w: World, id: string, key: string, value: Meaning, t: nat, n: string, w': World)
    requires SetParameter(w, id, key, value, t) == Done(w') && GroupMatches(cfg, w.groups[id], n, FactsOf(w, n))
    requires forall o | o in w.groups && o != id && GroupMatches(cfg, w.groups[o], n, FactsOf(w, n))
                        && key in w.groups[o].parameters ::
               w.groups[o].rank < w.groups[id].rank || (w.groups[o].rank == w.groups[id].rank && Less(o, id))
    ensures key in DocOf(cfg, w', n).parameters && DocOf(cfg, w', n).parameters[key] == value
  {
    SetParameterStores(w, id, key, value, t);
    SameNodesSameFacts(w, w', n);
    ParameterShows(cfg, w.groups, w'.groups, id, key, value, n, FactsOf(w, n));
  }

  lemma SameNodesSameFacts(w: World, w': World, n: string)
    requires w'.nodes == w.nodes
    ensures FactsOf(w', n) == FactsOf(w, n)
  {
  }

  // ---- which nodes a write queues ----

  /** Exactly the rewrites of `names` are made due; no other row changes. */
  ghost predicate QueuesExactly(jobs: Jobs, jobs': Jobs, names: iset<string>, t: nat) {
    && (forall n | n in names ::
          NodeKey(n) in jobs' && jobs'[NodeKey(n)].status == Pending && jobs'[NodeKey(n)].nextAttemptAt == t)
    && (forall k: JobKey | !(k.NodeKey? && k.certname in names) ::
          (k in jobs' <==> k in jobs) && (k in jobs ==> jobs'[k] == jobs[k]))
  }

  lemma QueuesNames(jobs: Jobs, names: set<string>, t: nat, all: iset<string>)
    requires forall n :: n in all <==> n in names
    ensures QueuesExactly(jobs, UpsertAll(jobs, NodeKeys(names), t), all, t)
  {
    var out := UpsertAll(jobs, NodeKeys(names), t);
    forall n | n in all
      ensures NodeKey(n) in out && out[NodeKey(n)].status == Pending && out[NodeKey(n)].nextAttemptAt == t
    {
      assert NodeKey(n) in NodeKeys(names);
    }
    forall k: JobKey | !(k.NodeKey? && k.certname in all) ensures k !in NodeKeys(names) {
    }
  }

  /** A removal, like any change of what a group contributes, queues its pins and the nodes that have it on record. */
  lemma ContributionQueues(w: World, id: string, g: Group, t: nat)
    requires id in w.groups
    ensures QueuesExactly(w.jobs, Contribute(w, id, g, t).jobs,
                          (iset n | n in w.groups[id].pins || (n in w.recs && id in w.recs[n].applied)), t)
    ensures Remove(w, id, t).Done? ==> Remove(w, id, t).value.jobs == Contribute(w, id, g, t).jobs
  {
    QueuesNames(w.jobs, Affected(w, id), t,
                iset n | n in w.groups[id].pins || (n in w.recs && id in w.recs[n].applied));
  }

  /** And the class and parameter edits are such changes. */
  lemma ContributionEdits(w: World, id: string, name: string, params: map<string, Meaning>, value: Meaning, t: nat,
      g: Group)
    requires id in w.groups
    ensures AssignClass(w, id, name, params, t).value.jobs == Contribute(w, id, g, t).jobs
    ensures SetParameter(w, id, name, value, t).value.jobs == Contribute(w, id, g, t).jobs
    ensures RemoveClass(w, id, name, t).Done? ==>
              RemoveClass(w, id, name, t).value.jobs == Contribute(w, id, g, t).jobs
    ensures RemoveParameter(w, id, name, t).Done? ==>
              RemoveParameter(w, id, name, t).value.jobs == Contribute(w, id, g, t).jobs
  {
  }

  /** Pinning queues the pinned names as well, unpinning the one let go. */
  lemma PinsQueue(w: World, id: string, names: set<string>, t: nat)
    requires id in w.groups
    ensures QueuesExactly(w.jobs, AddPins(w, id, names, t).value.jobs,
                          (iset n | n in names || n in w.groups[id].pins
                                    || (n in w.recs && id in w.recs[n].applied)), t)
  {
    var w' := w.(groups := w.groups[id := w.groups[id].(pins := w.groups[id].pins + names)]);
    QueuesNames(w.jobs, names + Affected(w', id), t,
                iset n | n in names || n in w.groups[id].pins || (n in w.recs && id in w.recs[n].applied));
  }

  lemma UnpinQueues(w: World, id: string, name: string, t: nat)
    requires RemovePin(w, id, name, t).Done?
    ensures QueuesExactly(w.jobs, RemovePin(w, id, name, t).value.jobs,
                          (iset n | n in w.groups[id].pins || (n in w.recs && id in w.recs[n].applied)), t)
  {
    var w' := w.(groups := w.groups[id := w.groups[id].(pins := w.groups[id].pins - {name})]);
    QueuesNames(w.jobs, {name} + Affected(w', id), t,
                iset n | n in w.groups[id].pins || (n in w.recs && id in w.recs[n].applied));
  }
}
