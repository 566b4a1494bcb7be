/**
 * What a node's document says, told from the groups themselves: which groups match it, and which of them
 * decides each parameter, class parameter and the environment (pure/rule-evaluator.ts, pure/class-merger.ts).
 */
module EncDocument {
  import opened Order
  import opened Options
  import opened Json
  import opened EncModel

  // ---- which groups match ----

  /** A disabled group matches nothing, whatever its strategy. */
  lemma DisabledMatchesNothing(cfg: Config, g: Group, n: string, facts: Meaning)
    requires !g.enabled
    ensures !GroupMatches(cfg, g, n, facts)
  {
  }

  /** An enabled pinned group matches the nodes pinned to it, and its rules do not matter. */
  lemma PinnedMatchesPins(cfg: Config, g: Group, n: string, facts: Meaning, rules: seq<Rule>)
    requires g.enabled && g.strategy == Pinned
    ensures GroupMatches(cfg, g.(rules := rules), n, facts) <==> n in g.pins
  {
  }

  /**
   * An enabled group with one rule matches where the rule holds, its pins do not matter; one without matches
   * nothing.
   */
  lemma OneRuleMatches(cfg: Config, g: Group, n: string, facts: Meaning, rule: Rule, pins: set<string>)
    requires g.enabled && g.strategy != Pinned
    ensures GroupMatches(cfg, g.(rules := [rule], pins := pins), n, facts) <==> cfg.holds(facts, rule)
    ensures !GroupMatches(cfg, g.(rules := [], pins := pins), n, facts)
  {
    assert [rule][0] == rule;
  }

  /** With two lists of rules, a group for all rules matches what both match, one for any rule what either matches. */
  lemma RulesNarrowOrWiden(cfg: Config, g: Group, n: string, facts: Meaning, a: seq<Rule>, b: seq<Rule>)
    requires a != [] && b != []
    ensures g.strategy == AllRules ==>
              (GroupMatches(cfg, g.(rules := a + b), n, facts)
               <==> GroupMatches(cfg, g.(rules := a), n, facts) && GroupMatches(cfg, g.(rules := b), n, facts))
    ensures g.strategy == AnyRule ==>
              (GroupMatches(cfg, g.(rules := a + b), n, facts)
               <==> GroupMatches(cfg, g.(rules := a), n, facts) || GroupMatches(cfg, g.(rules := b), n, facts))
  {
    var all := a + b;
    assert forall i | 0 <= i < |a| :: all[i] == a[i];
    assert forall i | 0 <= i < |b| :: all[|a| + i] == b[i];
    assert forall i | 0 <= i < |all| :: all[i] in a || all[i] in b;
  }

  // ---- which group decides ----

  /** Of two applied groups the later one has the higher rank, or the same rank and the greater id. */
  lemma LaterOutranks(cfg: Config, groups: Groups, n: string, facts: Meaning, i: nat, j: nat)
    requires i < j < |Applied(cfg, groups, n, facts)|
    ensures var ids := Applied(cfg, groups, n, facts);
            var a, b := ids[i], ids[j];
            && a in groups && b in groups && a != b
            && (groups[a].rank < groups[b].rank || (groups[a].rank == groups[b].rank && Less(a, b)))
  {
    var ids := Applied(cfg, groups, n, facts);
    MergeBeforeOrders(groups, Matched(cfg, groups, n, facts));
    assert MergeBefore(groups)(ids[i], ids[j]);
    LessIrreflexive(ids[i]);
  }

  /** Nobody is both before and after another. */
  lemma OutranksOneWay(groups: Groups, a: string, b: string)
    requires a in groups && b in groups
    requires groups[a].rank < groups[b].rank || (groups[a].rank == groups[b].rank && Less(a, b))
    ensures !(groups[b].rank < groups[a].rank || (groups[b].rank == groups[a].rank && Less(b, a)))
  {
    if Less(a, b) && Less(b, a) {
      LessTrans(a, b, a);
      LessIrreflexive(a);
    }
  }

  lemma AppliedAt(cfg: Config, groups: Groups, n: string, facts: Meaning, id: string) returns (i: nat)
    requires id in groups && GroupMatches(cfg, groups[id], n, facts)
    ensures i < |Applied(cfg, groups, n, facts)| && Applied(cfg, groups, n, facts)[i] == id
  {
    assert id in Matched(cfg, groups, n, facts);
    assert id in Applied(cfg, groups, n, facts);
    i :| 0 <= i < |Applied(cfg, groups, n, facts)| && Applied(cfg, groups, n, facts)[i] == id;
  }

  lemma AppliedMatches(cfg: Config, groups: Groups, n: string, facts: Meaning, i: nat)
    requires i < |Applied(cfg, groups, n, facts)|
    ensures var id := Applied(cfg, groups, n, facts)[i]; id in groups && GroupMatches(cfg, groups[id], n, facts)
  {
    assert Applied(cfg, groups, n, facts)[i] in Applied(cfg, groups, n, facts);
    assert Applied(cfg, groups, n, facts)[i] in Matched(cfg, groups, n, facts);
  }

  /** Whatever the groups set, the one that outranks every other in `setters` comes last of them. */
  lemma LastOfSetters(cfg: Config, groups: Groups, n: string, facts: Meaning, setters: set<string>, id: string)
      returns (i: nat)
    requires id in groups && GroupMatches(cfg, groups[id], n, facts)
    requires forall o | o in groups && o != id && GroupMatches(cfg, groups[o], n, facts) && o in setters ::
               groups[o].rank < groups[id].rank || (groups[o].rank == groups[id].rank && Less(o, id))
    ensures var ids := Applied(cfg, groups, n, facts);
            i < |ids| && ids[i] == id && forall j | i < j < |ids| :: ids[j] !in setters
  {
    var ids := Applied(cfg, groups, n, facts);
    i := AppliedAt(cfg, groups, n, facts, id);
    forall j | i < j < |ids| ensures ids[j] !in setters {
      LaterOutranks(cfg, groups, n, facts, i, j);
      AppliedMatches(cfg, groups, n, facts, j);
      OutranksOneWay(groups, id, ids[j]);
    }
  }

  /**
   * A matching group that sets a parameter decides it when every other matching group that sets it has a
   * lower rank, or the same rank and a smaller id.
   */
  lemma HighestRankSetsParameter(cfg: Config, groups: Groups, n: string, facts: Meaning, id: string, key: string)
    requires id in groups && GroupMatches(cfg, groups[id], n, facts) && key in groups[id].parameters
    requires forall o | o in groups && o != id && GroupMatches(cfg, groups[o], n, facts)
                        && key in groups[o].parameters ::
               groups[o].rank < groups[id].rank || (groups[o].rank == groups[id].rank && Less(o, id))
    ensures key in DocFor(cfg, groups, n, facts).parameters
    ensures DocFor(cfg, groups, n, facts).parameters[key] == groups[id].parameters[key]
  {
    var setters := set o | o in groups && key in groups[o].parameters;
    var i := LastOfSetters(cfg, groups, n, facts, setters, id);
    LastSetsParameter(groups, Applied(cfg, groups, n, facts), setters, key, i);
  }

  lemma LastSetsParameter(groups: Groups, ids: seq<string>, setters: set<string>, key: string, i: nat)
    requires setters == set o | o in groups && key in groups[o].parameters
    requires forall j | 0 <= j < |ids| :: ids[j] in groups
    requires i < |ids| && ids[i] in setters && forall j | i < j < |ids| :: ids[j] !in setters
    ensures key in Merge(groups, ids).parameters
    ensures Merge(groups, ids).parameters[key] == groups[ids[i]].parameters[key]
  {
    LastWriterWins(groups, ids, key);
    TopLayer(ParameterLayers(groups, ids), Merge(groups, ids).parameters, key, i);
  }

  /** A parameter is in the document exactly when a matching group sets it. */
  lemma ParameterSetExactly(cfg: Config, groups: Groups, n: string, facts: Meaning, key: string)
    ensures key in DocFor(cfg, groups, n, facts).parameters
            <==> exists id :: id in groups && GroupMatches(cfg, groups[id], n, facts) && key in groups[id].parameters
  {
    var ids := Applied(cfg, groups, n, facts);
    var layers := ParameterLayers(groups, ids);
    LastWriterWins(groups, ids, key);
    if key in DocFor(cfg, groups, n, facts).parameters {
      var i :| 0 <= i < |layers| && key in layers[i];
      AppliedMatches(cfg, groups, n, facts, i);
    }
    forall id | id in groups && GroupMatches(cfg, groups[id], n, facts) && key in groups[id].parameters
      ensures key in DocFor(cfg, groups, n, facts).parameters
    {
      var i := AppliedAt(cfg, groups, n, facts, id);
      assert layers[i] == groups[id].parameters;
    }
  }

  /** The same of a parameter of a class. */
  lemma HighestRankSetsClassParameter(
      cfg: Config, groups: Groups, n: string, facts: Meaning, id: string, c: string, key: string)
    requires id in groups && GroupMatches(cfg, groups[id], n, facts)
    requires c in groups[id].classes && key in groups[id].classes[c]
    requires forall o | o in groups && o != id && GroupMatches(cfg, groups[o], n, facts)
                        && c in groups[o].classes && key in groups[o].classes[c] ::
               groups[o].rank < groups[id].rank || (groups[o].rank == groups[id].rank && Less(o, id))
    ensures c in DocFor(cfg, groups, n, facts).classes && key in DocFor(cfg, groups, n, facts).classes[c]
    ensures DocFor(cfg, groups, n, facts).classes[c][key] == groups[id].classes[c][key]
  {
    var setters := set o | o in groups && c in groups[o].classes && key in groups[o].classes[c];
    var i := LastOfSetters(cfg, groups, n, facts, setters, id);
    LastSetsClassParameter(groups, Applied(cfg, groups, n, facts), setters, c, key, i);
  }

  lemma LastSetsClassParameter(groups: Groups, ids: seq<string>, setters: set<string>, c: string, key: string, i: nat)
    requires setters == set o | o in groups && c in groups[o].classes && key in groups[o].classes[c]
    requires forall j | 0 <= j < |ids| :: ids[j] in groups
    requires i < |ids| && ids[i] in setters && forall j | i < j < |ids| :: ids[j] !in setters
    ensures c in Merge(groups, ids).classes && key in Merge(groups, ids).classes[c]
    ensures Merge(groups, ids).classes[c][key] == groups[ids[i]].classes[c][key]
  {
    ClassesUnite(groups, ids, c);
    LastClassWriterWins(groups, ids, c, key);
    TopLayer(ClassLayers(groups, ids, c), Get(Merge(groups, ids).classes, c), key, i);
  }

  /** The last layer with a key, told by its position. */
  lemma TopLayer<V>(layers: seq<map<string, V>>, result: map<string, V>, key: string, i: nat)
    requires Decides(layers, result, key) && i < |layers| && key in layers[i]
    requires forall j | i < j < |layers| :: key !in layers[j]
    ensures key in result && result[key] == layers[i][key]
  {
  }

  /** A class is declared exactly when a matching group names it. */
  lemma ClassDeclaredExactly(cfg: Config, groups: Groups, n: string, facts: Meaning, c: string)
    ensures c in DocFor(cfg, groups, n, facts).classes
            <==> exists id :: id in groups && GroupMatches(cfg, groups[id], n, facts) && c in groups[id].classes
  {
    var ids := Applied(cfg, groups, n, facts);
    ClassesUnite(groups, ids, c);
    if c in DocFor(cfg, groups, n, facts).classes {
      var i :| 0 <= i < |ids| && c in groups[ids[i]].classes;
      AppliedMatches(cfg, groups, n, facts, i);
    }
    forall id | id in groups && GroupMatches(cfg, groups[id], n, facts) && c in groups[id].classes
      ensures c in DocFor(cfg, groups, n, facts).classes
    {
      var i := AppliedAt(cfg, groups, n, facts, id);
    }
  }

  /** And a parameter of it is set exactly when a matching group sets it. */
  lemma ClassParameterSetExactly(cfg: Config, groups: Groups, n: string, facts: Meaning, c: string, key: string)
    requires c in DocFor(cfg, groups, n, facts).classes
    ensures key in DocFor(cfg, groups, n, facts).classes[c]
            <==> exists id :: id in groups && GroupMatches(cfg, groups[id], n, facts)
                              && c in groups[id].classes && key in groups[id].classes[c]
  {
    var ids := Applied(cfg, groups, n, facts);
    var layers := ClassLayers(groups, ids, c);
    LastClassWriterWins(groups, ids, c, key);
    if key in DocFor(cfg, groups, n, facts).classes[c] {
      var i :| 0 <= i < |layers| && key in layers[i];
      AppliedMatches(cfg, groups, n, facts, i);
    }
    forall id | id in groups && GroupMatches(cfg, groups[id], n, facts)
                && c in groups[id].classes && key in groups[id].classes[c]
      ensures key in DocFor(cfg, groups, n, facts).classes[c]
    {
      var i := AppliedAt(cfg, groups, n, facts, id);
      assert layers[i] == groups[id].classes[c];
    }
  }

  /** The same of the environment; an empty one is none. */
  lemma HighestRankSetsEnvironment(cfg: Config, groups: Groups, n: string, facts: Meaning, id: string)
    requires id in groups && GroupMatches(cfg, groups[id], n, facts)
    requires groups[id].environment.Some? && groups[id].environment != Some("")
    requires forall o | o in groups && o != id && GroupMatches(cfg, groups[o], n, facts)
                        && groups[o].environment.Some? && groups[o].environment != Some("") ::
               groups[o].rank < groups[id].rank || (groups[o].rank == groups[id].rank && Less(o, id))
    ensures DocFor(cfg, groups, n, facts).environment == groups[id].environment
  {
    var setters := set o | o in groups && groups[o].environment.Some? && groups[o].environment != Some("");
    var i := LastOfSetters(cfg, groups, n, facts, setters, id);
    LastEnvironmentWins(groups, Applied(cfg, groups, n, facts));
  }

  /** There is none exactly when no matching group has one. */
  lemma EnvironmentAbsentExactly(cfg: Config, groups: Groups, n: string, facts: Meaning)
    ensures DocFor(cfg, groups, n, facts).environment == None
            <==> forall id | id in groups && GroupMatches(cfg, groups[id], n, facts) ::
                   groups[id].environment == None || groups[id].environment == Some("")
  {
    var ids := Applied(cfg, groups, n, facts);
    LastEnvironmentWins(groups, ids);
    if DocFor(cfg, groups, n, facts).environment == None {
      forall id | id in groups && GroupMatches(cfg, groups[id], n, facts)
        ensures groups[id].environment == None || groups[id].environment == Some("")
      {
        var i := AppliedAt(cfg, groups, n, facts, id);
        assert !OwnEnvironment(groups[ids[i]]);
      }
    } else {
      var i :| 0 <= i < |ids| && OwnEnvironment(groups[ids[i]]);
      AppliedMatches(cfg, groups, n, facts, i);
    }
  }

  /** A managed node's document is that for its projected facts, an unmanaged name's that for none. */
  lemma DocumentOfNode(cfg: Config, w: World, n: string)
    ensures DocOf(cfg, w, n)
         == DocFor(cfg, w.groups, n, if n in w.nodes then Den(w.nodes[n].facts) else MObj(map[]))
    ensures AppliedOf(cfg, w, n)
         == Applied(cfg, w.groups, n, if n in w.nodes then Den(w.nodes[n].facts) else MObj(map[]))
  {
  }

  // ---- certnames as file names ----

  /** A safe name is a plain file name: short, without a separator, and neither hidden nor a way up. */
  lemma SafeNameStaysInside(c: string)
    requires SafeCertname(c)
    ensures 1 <= |c| <= 254 && '/' !in c && '\\' !in c && '\U{0}' !in c && c[0] !in {'.', '-', '_'}
    ensures forall i | 0 <= i < |c| - 1 && c[i] == '.' :: c[i + 1] != '.'
  {
  }

  /**
   * Nothing of that kind is refused: letters and digits are safe, and so are safe names joined by `.`, `-`, `_`
   * or nothing.
   */
  lemma SafeNamesJoin(a: string, b: string, c: char)
    requires SafeCertname(a) && SafeCertname(b) && |a| + |b| + 1 <= 254
    ensures SafeCertname(a + b) && SafeCertname(a + "." + b) && SafeCertname(a + "-" + b) && SafeCertname(a + "_" + b)
    ensures 'a' <= c <= 'z' || 'A' <= c <= 'Z' || '0' <= c <= '9' ==> SafeCertname([c])
  {
  }
}
