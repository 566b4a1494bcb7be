/**
 * Compiling typed filters to PuppetDB queries (apps/api/src/puppetdb/pql-builder.ts): what a query
 * selects, what a filter promises, and that they are the same.
 */
module Pql {
  import opened Options
  import opened Regex

  /** The part of the v4 query language the compiler emits. */
  datatype Ast =
    | Eq(field: string, value: string)
    | Matches(field: string, pattern: string)
    | Before(field: string, instant: string)
    | After(field: string, instant: string)
    | IsNull(field: string)
    | And(args: seq<Ast>)
    | Or(args: seq<Ast>)
    | Not(arg: Ast)
    | InInventory(condition: Ast)   // certname in (from inventory (extract certname condition))

  /** A row of an endpoint; `None` is null. */
  type Row = string -> Option<string>

  /**
   * What answers a query: the facts of each node in the inventory, the regex engine and the clock's reading of
   * an instant.
   */
  datatype Backend = Backend(facts: map<string, map<string, string>>, regex: (string, string) -> bool,
      time: string -> int)

  /** A structured value under a dotted name. */
  function Dotted(prefix: string, values: map<string, string>): Row {
    (f: string) => if prefix <= f && f[|prefix|..] in values then Some(values[f[|prefix|..]]) else None
  }

  predicate Eval(b: Backend, q: Ast, row: Row) {
    match q
    case Eq(f, v) => row(f) == Some(v)
    case Matches(f, p) => row(f).Some? && Find(b.regex, p, row(f).value)
    case Before(f, t) => row(f).Some? && b.time(row(f).value) < b.time(t)
    case After(f, t) => row(f).Some? && b.time(row(f).value) > b.time(t)
    case IsNull(f) => row(f).None?
    case And(args) => forall i | 0 <= i < |args| :: Eval(b, args[i], row)
    case Or(args) => exists i | 0 <= i < |args| :: Eval(b, args[i], row)
    case Not(arg) => !Eval(b, arg, row)
    case InInventory(c) =>
      row("certname").Some? && row("certname").value in b.facts
          && Eval(b, c, Dotted("facts.", b.facts[row("certname").value]))
  }

  /** PuppetDB rejects a conjunction or disjunction of nothing. */
  predicate WellFormed(q: Ast) {
    match q
    case And(args) => args != [] && forall i | 0 <= i < |args| :: WellFormed(args[i])
    case Or(args) => args != [] && forall i | 0 <= i < |args| :: WellFormed(args[i])
    case Not(arg) => WellFormed(arg)
    case InInventory(c) => WellFormed(c)
    case _ => true
  }

  // ---- filters and what they promise ----

  datatype Operator = Equals(value: string) | NotEquals(value: string) | MatchesRegex(pattern: string)
    | In(values: seq<string>) | Exists | NotExists

  datatype Condition = Condition(path: string, op: Operator)

  datatype Status = Changed | Unchanged | Failed | NeverReported

  datatype NodeFilter = NodeFilter(
    facts: Option<seq<Condition>>,
    certnameContains: Option<string>,
    environments: Option<seq<string>>,
    statuses: Option<seq<Status>>,
    staleBefore: Option<string>,
    factsChangedSince: Option<string>,
    includeInactive: bool)

  datatype Node = Node(
    certname: string,
    reportEnvironment: Option<string>,
    factsEnvironment: Option<string>,
    catalogEnvironment: Option<string>,
    reportTimestamp: Option<string>,
    factsTimestamp: Option<string>,
    latestReportStatus: Option<string>,
    deactivated: Option<string>,
    expired: Option<string>)

  function NodeRow(n: Node): Row {
    (f: string) =>
      if f == "certname" then Some(n.certname)
      else if f == "report_environment" then n.reportEnvironment
      else if f == "facts_environment" then n.factsEnvironment
      else if f == "catalog_environment" then n.catalogEnvironment
      else if f == "report_timestamp" then n.reportTimestamp
      else if f == "facts_timestamp" then n.factsTimestamp
      else if f == "latest_report_status" then n.latestReportStatus
      else if f == "deactivated" then n.deactivated
      else if f == "expired" then n.expired
      else None
  }

  /** A condition on one fact or parameter that may be missing. A missing one is not unequal to anything. */
  predicate Satisfies(b: Backend, value: Option<string>, op: Operator) {
    match op
    case Equals(v) => value == Some(v)
    case NotEquals(v) => value.Some? && value.value != v
    case MatchesRegex(p) => value.Some? && Find(b.regex, p, value.value)
    case In(vs) => value.Some? && value.value in vs
    case Exists => value.Some?
    case NotExists => value.None?
  }

  function ValueAt(values: map<string, string>, path: string): Option<string> {
    if path in values then Some(values[path]) else None
  }

  /** A node's own fact; a node without an inventory row has none. */
  function FactOf(b: Backend, certname: string, path: string): Option<string> {
    if certname in b.facts then ValueAt(b.facts[certname], path) else None
  }

  /** What a fact filter promises: each condition holds of the node's own value. */
  predicate FactsHold(b: Backend, certname: string, conditions: seq<Condition>) {
    forall i | 0 <= i < |conditions| :: Satisfies(b, FactOf(b, certname, conditions[i].path), conditions[i].op)
  }

  /** What one compiled fact condition asks: an inventory row of the node that satisfies it. */
  predicate RowSatisfies(b: Backend, certname: string, c: Condition) {
    certname in b.facts && Satisfies(b, ValueAt(b.facts[certname], c.path), c.op)
  }

  predicate RowsSatisfy(b: Backend, certname: string, conditions: seq<Condition>) {
    forall i | 0 <= i < |conditions| :: RowSatisfies(b, certname, conditions[i])
  }

  /** There are fact conditions, and every one of them asks that a fact be missing. */
  predicate OnlyAbsence(facts: Option<seq<Condition>>) {
    facts.Some? && facts.value != [] && forall i | 0 <= i < |facts.value| :: facts.value[i].op.NotExists?
  }

  /** The status of a node's latest report, as PuppetDB names it. */
  predicate StatusHolds(reported: Option<string>, s: Status) {
    match s
    case Changed => reported == Some("changed")
    case Unchanged => reported == Some("unchanged")
    case Failed => reported == Some("failed")
    case NeverReported => reported == None
  }

  /** A node mid-migration counts for each environment it is in by any measure. */
  predicate InEnvironment(n: Node, e: string) {
    n.reportEnvironment == Some(e) || n.factsEnvironment == Some(e) || n.catalogEnvironment == Some(e)
  }

  /** A filter that asks only for missing facts, and a node that PuppetDB's inventory does not list. */
  predicate Missed(b: Backend, facts: Option<seq<Condition>>, certname: string) {
    OnlyAbsence(facts) && certname !in b.facts
  }

  predicate NodeMatches(b: Backend, f: NodeFilter, n: Node) {
    && (f.facts.Some? ==> FactsHold(b, n.certname, f.facts.value))
    && (f.certnameContains.Some? ==> Contains(n.certname, f.certnameContains.value))
    && (f.environments.Some? && f.environments.value != [] ==>
          exists e | e in f.environments.value :: InEnvironment(n, e))
    && (f.statuses.Some? && f.statuses.value != []
        ==> exists s | s in f.statuses.value :: StatusHolds(n.latestReportStatus, s))
    && (f.staleBefore.Some? && f.staleBefore.value != "" ==>
          (n.reportTimestamp.Some? ==> b.time(n.reportTimestamp.value) < b.time(f.staleBefore.value)))
    && (f.factsChangedSince.Some? && f.factsChangedSince.value != "" ==>
          (n.factsTimestamp.Some? && b.time(n.factsTimestamp.value) > b.time(f.factsChangedSince.value)))
    && (!f.includeInactive ==> n.deactivated == None && n.expired == None)
  }

  // ---- the compiler ----

  /** The condition on one field, shared by facts and resource parameters. */
  function ConditionAst(field: string, op: Operator): Ast {
    match op
    case Equals(v) => Eq(field, v)
    case NotEquals(v) => And([Matches(field, ".*"), Not(Eq(field, v))])
    case MatchesRegex(p) => Matches(field, p)
    case In(vs) => Or(seq(|vs|, i requires 0 <= i < |vs| => Eq(field, vs[i])))
    case Exists => Matches(field, ".*")
    case NotExists => Not(Matches(field, ".*"))
  }

  function FactClauses(conditions: seq<Condition>): seq<Ast> {
    seq(|conditions|, i requires 0 <= i < |conditions| =>
      InInventory(ConditionAst("facts." + conditions[i].path, conditions[i].op)))
  }

  function ParameterClauses(conditions: seq<Condition>): seq<Ast> {
    seq(|conditions|,
        i requires 0 <= i < |conditions| => ConditionAst("parameters." + conditions[i].path, conditions[i].op))
  }

  function EnvironmentClauses(envs: seq<string>): seq<Ast> {
    if envs == [] then []
    else ThreeEnvironments(envs[0]) + EnvironmentClauses(envs[1..])
  }

  function ThreeEnvironments(e: string): seq<Ast> {
    [Eq("report_environment", e), Eq("facts_environment", e), Eq("catalog_environment", e)]
  }

  /** The name a status has in a query. */
  function StatusName(s: Status): string {
    match s
    case Changed => "changed"
    case Unchanged => "unchanged"
    case Failed => "failed"
    case NeverReported => "unknown"
  }

  function StatusClause(s: Status): Ast {
    if s == NeverReported then IsNull("latest_report_status") else Eq("latest_report_status", StatusName(s))
  }

  predicate AllHold(b: Backend, qs: seq<Ast>, row: Row) {
    forall i | 0 <= i < |qs| :: Eval(b, qs[i], row)
  }

  predicate AllWellFormed(qs: seq<Ast>) {
    forall i | 0 <= i < |qs| :: WellFormed(qs[i])
  }

  lemma EvalTwo(b: Backend, x: Ast, y: Ast, row: Row)
    ensures Eval(b, And([x, y]), row) <==> Eval(b, x, row) && Eval(b, y, row)
    ensures Eval(b, Or([x, y]), row) <==> Eval(b, x, row) || Eval(b, y, row)
    ensures WellFormed(And([x, y])) <==> WellFormed(x) && WellFormed(y)
    ensures WellFormed(Or([x, y])) <==> WellFormed(x) && WellFormed(y)
  {
    var args := [x, y];
    assert args[0] == x && args[1] == y;
  }

  lemma InMeaning(b: Backend, row: Row, field: string, vs: seq<string>)
    ensures Eval(b, ConditionAst(field, In(vs)), row) <==> Satisfies(b, row(field), In(vs))
    ensures WellFormed(ConditionAst(field, In(vs))) <==> vs != []
  {
    var args := ConditionAst(field, In(vs)).args;
    forall i | 0 <= i < |vs| ensures Eval(b, args[i], row) <==> row(field) == Some(vs[i]) {
      assert args[i] == Eq(field, vs[i]);
    }
    if row(field).Some? && row(field).value in vs {
      var i :| 0 <= i < |vs| && vs[i] == row(field).value;
      assert Eval(b, args[i], row);
    }
  }

  lemma ConditionMeaning(b: Backend, row: Row, field: string, op: Operator)
    ensures Eval(b, ConditionAst(field, op), row) <==> Satisfies(b, row(field), op)
    ensures WellFormed(ConditionAst(field, op)) <==> (op.In? ==> op.values != [])
  {
    if row(field).Some? { DotStarFindsAll(b.regex, row(field).value); }
    match op
    case In(vs) => InMeaning(b, row, field, vs);
    case NotEquals(v) => EvalTwo(b, Matches(field, ".*"), Not(Eq(field, v)), row);
    case _ =>
  }

  lemma DottedAt(prefix: string, values: map<string, string>, path: string)
    ensures Dotted(prefix, values)(prefix + path) == ValueAt(values, path)
  {
    assert (prefix + path)[|prefix|..] == path;
  }

  predicate ListsGiven(conditions: seq<Condition>) {
    forall i | 0 <= i < |conditions| && conditions[i].op.In? :: conditions[i].op.values != []
  }

  lemma FactMeaning(b: Backend, row: Row, c: Condition)
    requires row("certname").Some?
    ensures Eval(b, InInventory(ConditionAst("facts." + c.path, c.op)), row)
            <==> RowSatisfies(b, row("certname").value, c)
    ensures WellFormed(InInventory(ConditionAst("facts." + c.path, c.op))) <==> (c.op.In? ==> c.op.values != [])
  {
    var name := row("certname").value;
    var field := "facts." + c.path;
    ConditionMeaning(b, row, field, c.op);
    if name in b.facts {
      DottedAt("facts.", b.facts[name], c.path);
      ConditionMeaning(b, Dotted("facts.", b.facts[name]), field, c.op);
    }
  }

  lemma FactsMeaning(b: Backend, row: Row, conditions: seq<Condition>)
    requires row("certname").Some?
    ensures AllHold(b, FactClauses(conditions), row) <==> RowsSatisfy(b, row("certname").value, conditions)
    ensures AllWellFormed(FactClauses(conditions)) <==> ListsGiven(conditions)
  {
    var qs := FactClauses(conditions);
    forall i | 0 <= i < |conditions|
      ensures Eval(b, qs[i], row) <==> RowSatisfies(b, row("certname").value, conditions[i])
      ensures WellFormed(qs[i]) <==> (conditions[i].op.In? ==> conditions[i].op.values != [])
    {
      FactMeaning(b, row, conditions[i]);
    }
    if AllWellFormed(qs) {
      assert forall i | 0 <= i < |conditions| :: WellFormed(qs[i]);
    }
    if AllHold(b, qs, row) {
      assert forall i | 0 <= i < |conditions| :: Eval(b, qs[i], row);
    }
  }

  /**
   * A query on the inventory agrees with the promise exactly unless every condition asks for absence and the
   * node has no row.
   */
  lemma RowsAgreeExactly(b: Backend, certname: string, conditions: seq<Condition>)
    ensures (RowsSatisfy(b, certname, conditions) <==> FactsHold(b, certname, conditions))
            <==> conditions == [] || certname in b.facts
                 || exists i :: 0 <= i < |conditions| && !conditions[i].op.NotExists?
    ensures RowsSatisfy(b, certname, conditions)
            <==> FactsHold(b, certname, conditions) && !(OnlyAbsence(Some(conditions)) && certname !in b.facts)
  {
    forall i | 0 <= i < |conditions| && certname !in b.facts
      ensures Satisfies(b, FactOf(b, certname, conditions[i].path), conditions[i].op) <==> conditions[i].op.NotExists?
      ensures !RowSatisfies(b, certname, conditions[i])
    {
    }
    if certname in b.facts {
      assert forall i | 0 <= i < |conditions| ::
               RowSatisfies(b, certname, conditions[i])
               <==> Satisfies(b, FactOf(b, certname, conditions[i].path), conditions[i].op);
    }
    if conditions != [] { assert RowSatisfies(b, certname, conditions[0]) ==> certname in b.facts; }
  }

  lemma OneEnvironment(b: Backend, n: Node, e: string)
    ensures Eval(b, Or(ThreeEnvironments(e)), NodeRow(n)) <==> InEnvironment(n, e)
    ensures AllWellFormed(ThreeEnvironments(e))
  {
    var args := ThreeEnvironments(e);
    var row := NodeRow(n);
    assert Eval(b, args[0], row) <==> n.reportEnvironment == Some(e);
    assert Eval(b, args[1], row) <==> n.factsEnvironment == Some(e);
    assert Eval(b, args[2], row) <==> n.catalogEnvironment == Some(e);
  }

  lemma {:induction false} EnvironmentsMeaning(b: Backend, n: Node, envs: seq<string>)
    ensures Eval(b, Or(EnvironmentClauses(envs)), NodeRow(n)) <==> exists e | e in envs :: InEnvironment(n, e)
    ensures AllWellFormed(EnvironmentClauses(envs)) && (envs != [] ==> EnvironmentClauses(envs) != [])
  {
    if envs != [] {
      EnvironmentsMeaning(b, n, envs[1..]);
      OneEnvironment(b, n, envs[0]);
      OrConcat(b, ThreeEnvironments(envs[0]), EnvironmentClauses(envs[1..]), NodeRow(n));
      AllConcat(b, ThreeEnvironments(envs[0]), EnvironmentClauses(envs[1..]), NodeRow(n));
    }
  }

  lemma OrConcat(b: Backend, xs: seq<Ast>, ys: seq<Ast>, row: Row)
    ensures Eval(b, Or(xs + ys), row) <==> Eval(b, Or(xs), row) || Eval(b, Or(ys), row)
  {
    if Eval(b, Or(xs), row) {
      var i :| 0 <= i < |xs| && Eval(b, xs[i], row);
      assert (xs + ys)[i] == xs[i];
    }
    if Eval(b, Or(ys), row) {
      var i :| 0 <= i < |ys| && Eval(b, ys[i], row);
      assert (xs + ys)[|xs| + i] == ys[i];
    }
  }

  lemma StatusMeaning(b: Backend, n: Node, s: Status)
    ensures Eval(b, StatusClause(s), NodeRow(n)) <==> StatusHolds(n.latestReportStatus, s)
    ensures WellFormed(StatusClause(s))
  {
  }

  lemma StatusesMeaning(b: Backend, n: Node, statuses: seq<Status>, q: Ast)
    requires q.Or? && |q.args| == |statuses| && forall i | 0 <= i < |statuses| :: q.args[i] == StatusClause(statuses[i])
    ensures Eval(b, q, NodeRow(n)) <==> exists s | s in statuses :: StatusHolds(n.latestReportStatus, s)
    ensures statuses != [] ==> WellFormed(q)
  {
    forall i | 0 <= i < |statuses|
      ensures Eval(b, q.args[i], NodeRow(n)) <==> StatusHolds(n.latestReportStatus, statuses[i])
      ensures WellFormed(q.args[i])
    {
      StatusMeaning(b, n, statuses[i]);
    }
    if s :| s in statuses && StatusHolds(n.latestReportStatus, s) {
      var i :| 0 <= i < |statuses| && statuses[i] == s;
      assert Eval(b, q.args[i], NodeRow(n));
    }
  }

  /** What a query selects, and an absent query: every row. */
  predicate Selects(b: Backend, q: Option<Ast>, row: Row) {
    q.Some? ==> Eval(b, q.value, row)
  }

  function Conjunction(clauses: seq<Ast>): Option<Ast> {
    if clauses == [] then None else if |clauses| == 1 then Some(clauses[0]) else Some(And(clauses))
  }

  lemma ConjunctionMeaning(b: Backend, clauses: seq<Ast>, row: Row)
    ensures Selects(b, Conjunction(clauses), row) <==> AllHold(b, clauses, row)
    ensures Conjunction(clauses).Some? ==> (WellFormed(Conjunction(clauses).value) <==> AllWellFormed(clauses))
  {
  }

  lemma AllConcat(b: Backend, xs: seq<Ast>, ys: seq<Ast>, row: Row)
    ensures AllHold(b, xs + ys, row) <==> AllHold(b, xs, row) && AllHold(b, ys, row)
    ensures AllWellFormed(xs + ys) <==> AllWellFormed(xs) && AllWellFormed(ys)
  {
    forall i | 0 <= i < |ys| ensures (xs + ys)[|xs| + i] == ys[i] {
    }
    if AllHold(b, xs + ys, row) {
      assert forall i | 0 <= i < |xs| :: (xs + ys)[i] == xs[i];
      assert forall i | 0 <= i < |ys| :: (xs + ys)[|xs| + i] == ys[i];
    }
    if AllWellFormed(xs + ys) {
      assert forall i | 0 <= i < |xs| :: (xs + ys)[i] == xs[i];
      assert forall i | 0 <= i < |ys| :: (xs + ys)[|xs| + i] == ys[i];
    }
  }

  // ---- the clauses of a node query, section by section ----

  function FactSection(facts: Option<seq<Condition>>): seq<Ast> {
    if facts.Some? then FactClauses(facts.value) else []
  }

  function ContainsSection(field: string, part: Option<string>): seq<Ast> {
    if part.Some? && part.value != "" then [Matches(field, Escape(part.value))] else []
  }

  function EnvironmentSection(envs: Option<seq<string>>): seq<Ast> {
    if envs.Some? && envs.value != [] then [Or(EnvironmentClauses(envs.value))] else []
  }

  function StatusSection(statuses: Option<seq<Status>>): seq<Ast> {
    if statuses.Some? && statuses.value != []
    then [Or(seq(|statuses.value|, i requires 0 <= i < |statuses.value| => StatusClause(statuses.value[i])))]
    else []
  }

  function StaleSection(before: Option<string>): seq<Ast> {
    if before.Some? && before.value != ""
    then [Or([Before("report_timestamp", before.value), IsNull("report_timestamp")])] else []
  }

  function SinceSection(since: Option<string>): seq<Ast> {
    if since.Some? && since.value != "" then [After("facts_timestamp", since.value)] else []
  }

  function ActiveSection(includeInactive: bool): seq<Ast> {
    if includeInactive then [] else [IsNull("deactivated"), IsNull("expired")]
  }

  function NodeClauses(f: NodeFilter): seq<Ast> {
    FactSection(f.facts) + ContainsSection("certname", f.certnameContains) + EnvironmentSection(f.environments)
    + StatusSection(f.statuses) + StaleSection(f.staleBefore) + SinceSection(f.factsChangedSince)
       + ActiveSection(f.includeInactive)
  }

  lemma ContainsMeaning(b: Backend, row: Row, field: string, part: Option<string>)
    requires row(field).Some?
    ensures AllHold(b, ContainsSection(field, part), row) <==> (part.Some? ==> Contains(row(field).value, part.value))
    ensures AllWellFormed(ContainsSection(field, part))
  {
    if part.Some? {
      EscapedFindsLiteral(b.regex, part.value, row(field).value);
      if part.value == "" {
        assert part.value <= row(field).value[0..];
      } else {
        assert AllHold(b, ContainsSection(field, part), row) <==> Eval(b, ContainsSection(field, part)[0], row);
      }
    }
  }

  lemma StatusSectionMeaning(b: Backend, n: Node, statuses: Option<seq<Status>>)
    ensures AllHold(b, StatusSection(statuses), NodeRow(n))
            <==> (statuses.Some? && statuses.value != []
                 ==> exists s | s in statuses.value :: StatusHolds(n.latestReportStatus, s))
    ensures AllWellFormed(StatusSection(statuses))
  {
    if statuses.Some? && statuses.value != [] {
      var q := StatusSection(statuses)[0];
      StatusesMeaning(b, n, statuses.value, q);
      assert AllHold(b, StatusSection(statuses), NodeRow(n)) <==> Eval(b, q, NodeRow(n));
    }
  }

  lemma EnvironmentSectionMeaning(b: Backend, n: Node, envs: Option<seq<string>>)
    ensures AllHold(b, EnvironmentSection(envs), NodeRow(n))
            <==> (envs.Some? && envs.value != [] ==>
                    exists e | e in envs.value :: InEnvironment(n, e))
    ensures AllWellFormed(EnvironmentSection(envs))
  {
    if envs.Some? && envs.value != [] {
      var q := EnvironmentSection(envs)[0];
      EnvironmentsMeaning(b, n, envs.value);
      assert AllHold(b, EnvironmentSection(envs), NodeRow(n)) <==> Eval(b, q, NodeRow(n));
    }
  }

  lemma StaleMeaning(b: Backend, n: Node, before: Option<string>)
    ensures AllHold(b, StaleSection(before), NodeRow(n))
            <==> (before.Some? && before.value != "" ==>
                    (n.reportTimestamp.Some? ==> b.time(n.reportTimestamp.value) < b.time(before.value)))
    ensures AllWellFormed(StaleSection(before))
  {
    if before.Some? && before.value != "" {
      EvalTwo(b, Before("report_timestamp", before.value), IsNull("report_timestamp"), NodeRow(n));
      assert AllHold(b, StaleSection(before), NodeRow(n)) <==> Eval(b, StaleSection(before)[0], NodeRow(n));
    }
  }

  lemma SinceMeaning(b: Backend, n: Node, since: Option<string>)
    ensures AllHold(b, SinceSection(since), NodeRow(n))
            <==> (since.Some? && since.value != "" ==>
                    (n.factsTimestamp.Some? && b.time(n.factsTimestamp.value) > b.time(since.value)))
    ensures AllWellFormed(SinceSection(since))
  {
    if since.Some? && since.value != "" {
      assert AllHold(b, SinceSection(since), NodeRow(n)) <==> Eval(b, SinceSection(since)[0], NodeRow(n));
    }
  }

  lemma ActiveMeaning(b: Backend, n: Node, includeInactive: bool)
    ensures AllHold(b, ActiveSection(includeInactive), NodeRow(n))
            <==> (!includeInactive ==> n.deactivated == None && n.expired == None)
    ensures AllWellFormed(ActiveSection(includeInactive))
  {
    if !includeInactive {
      var qs := ActiveSection(includeInactive);
      assert AllHold(b, qs, NodeRow(n)) <==> Eval(b, qs[0], NodeRow(n)) && Eval(b, qs[1], NodeRow(n));
    }
  }

  lemma NodeClausesMeaning(b: Backend, f: NodeFilter, n: Node)
    ensures AllHold(b, NodeClauses(f), NodeRow(n)) <==> NodeMatches(b, f, n) && !Missed(b, f.facts, n.certname)
    ensures AllWellFormed(NodeClauses(f)) <==> (f.facts.Some? ==> ListsGiven(f.facts.value))
  {
    var row := NodeRow(n);
    var c1 := FactSection(f.facts);
    var c2 := c1 + ContainsSection("certname", f.certnameContains);
    var c3 := c2 + EnvironmentSection(f.environments);
    var c4 := c3 + StatusSection(f.statuses);
    var c5 := c4 + StaleSection(f.staleBefore);
    var c6 := c5 + SinceSection(f.factsChangedSince);
    AllConcat(b, c1, ContainsSection("certname", f.certnameContains), row);
    AllConcat(b, c2, EnvironmentSection(f.environments), row);
    AllConcat(b, c3, StatusSection(f.statuses), row);
    AllConcat(b, c4, StaleSection(f.staleBefore), row);
    AllConcat(b, c5, SinceSection(f.factsChangedSince), row);
    AllConcat(b, c6, ActiveSection(f.includeInactive), row);
    if f.facts.Some? {
      FactsMeaning(b, row, f.facts.value);
      RowsAgreeExactly(b, n.certname, f.facts.value);
    }
    ContainsMeaning(b, row, "certname", f.certnameContains);
    EnvironmentSectionMeaning(b, n, f.environments);
    StatusSectionMeaning(b, n, f.statuses);
    StaleMeaning(b, n, f.staleBefore);
    SinceMeaning(b, n, f.factsChangedSince);
    ActiveMeaning(b, n, f.includeInactive);
  }

  /** What the compiled node query means, on every backend and every node, and when PuppetDB takes it. */
  lemma NodeQueryMeaning(f: NodeFilter)
    ensures forall b: Backend, n: Node ::
              Selects(b, Conjunction(NodeClauses(f)), NodeRow(n))
              <==> NodeMatches(b, f, n) && !Missed(b, f.facts, n.certname)
    ensures Conjunction(NodeClauses(f)).Some? ==>
              (WellFormed(Conjunction(NodeClauses(f)).value) <==> (f.facts.Some? ==> ListsGiven(f.facts.value)))
  {
    var clauses := NodeClauses(f);
    forall b: Backend, n: Node
      ensures Selects(b, Conjunction(clauses), NodeRow(n)) <==> NodeMatches(b, f, n) && !Missed(b, f.facts, n.certname)
    {
      NodeClausesMeaning(b, f, n);
      ConjunctionMeaning(b, clauses, NodeRow(n));
    }
    var someB := Backend(map[], (p, s) => false, t => 0);
    var someN := Node("", None, None, None, None, None, None, None, None);
    NodeClausesMeaning(someB, f, someN);
    ConjunctionMeaning(someB, clauses, NodeRow(someN));
  }

  /**
   * Translate a node filter; an absent query means every node. The query selects what the filter
   * promises, except for the nodes it misses.
   */
  method BuildNodeQuery(filter: NodeFilter) returns (q: Option<Ast>)
    ensures q == Conjunction(NodeClauses(filter))
    ensures forall b: Backend, n: Node ::
              Selects(b, q, NodeRow(n)) <==> NodeMatches(b, filter, n) && !Missed(b, filter.facts, n.certname)
    ensures q.Some? ==> (WellFormed(q.value) <==> (filter.facts.Some? ==> ListsGiven(filter.facts.value)))
  {
    var clauses := PushConditions(filter);
    ghost var pushed := clauses;
    if filter.staleBefore.Some? && filter.staleBefore.value != "" {
      clauses := clauses + [Or([Before("report_timestamp", filter.staleBefore.value), IsNull("report_timestamp")])];
    }
    assert clauses == pushed + StaleSection(filter.staleBefore);
    pushed := clauses;
    if filter.factsChangedSince.Some? && filter.factsChangedSince.value != "" {
      clauses := clauses + [After("facts_timestamp", filter.factsChangedSince.value)];
    }
    assert clauses == pushed + SinceSection(filter.factsChangedSince);
    pushed := clauses;
    if !filter.includeInactive {
      clauses := clauses + [IsNull("deactivated")];
      clauses := clauses + [IsNull("expired")];
    }
    assert clauses == pushed + ActiveSection(filter.includeInactive);
    NodeQueryMeaning(filter);
    q := Join(clauses);
  }

  /** No query, the only clause, or the conjunction of all. */
  method Join(clauses: seq<Ast>) returns (q: Option<Ast>)
    ensures q == Conjunction(clauses)
  {
    if clauses == [] {
      return None;
    }
    if |clauses| == 1 {
      return Some(clauses[0]);
    }
    q := Some(And(clauses));
  }

  /** The clauses on facts, name, environments and statuses. */
  method PushConditions(filter: NodeFilter) returns (clauses: seq<Ast>)
    ensures clauses == FactSection(filter.facts) + ContainsSection("certname", filter.certnameContains)
                       + EnvironmentSection(filter.environments) + StatusSection(filter.statuses)
  {
    clauses := [];
    if filter.facts.Some? && filter.facts.value != [] {
      clauses := clauses + FactClauses(filter.facts.value);
    }
    assert clauses == FactSection(filter.facts);
    if filter.certnameContains.Some? && filter.certnameContains.value != "" {
      clauses := clauses + [Matches("certname", Escape(filter.certnameContains.value))];
    }
    assert clauses == FactSection(filter.facts) + ContainsSection("certname", filter.certnameContains);
    if filter.environments.Some? && filter.environments.value != [] {
      clauses := clauses + [Or(EnvironmentClauses(filter.environments.value))];
    }
    assert clauses == FactSection(filter.facts) + ContainsSection("certname", filter.certnameContains)
           + EnvironmentSection(filter.environments);
    if filter.statuses.Some? && filter.statuses.value != [] {
      var statuses := filter.statuses.value;
      clauses := clauses + [Or(seq(|statuses|, i requires 0 <= i < |statuses| => StatusClause(statuses[i])))];
    }
  }

  /** The query is absent exactly when the filter accepts every node there could be. */
  lemma AbsentExactlyForTrivialFilter(f: NodeFilter)
    ensures Conjunction(NodeClauses(f)).None? <==> forall b: Backend, n: Node :: NodeMatches(b, f, n)
  {
    if NodeClauses(f) == [] {
      forall b: Backend, n: Node ensures NodeMatches(b, f, n) {
        NodeClausesMeaning(b, f, n);
      }
    } else {
      StrangerFails(f);
    }
  }

  /**
   * One node no clause accepts: an empty name, an unheard-of status, reported at the very instant asked
   * about, without facts or, where a fact is to be missing, with that fact.
   */
  lemma StrangerFails(f: NodeFilter)
    requires NodeClauses(f) != []
    ensures exists b: Backend, n: Node :: !NodeMatches(b, f, n)
  {
    var asked := f.facts.Some? && f.facts.value != [];
    var facts := if asked && f.facts.value[0].op.NotExists? then map["" := map[f.facts.value[0].path := ""]] else map[];
    var b := Backend(facts, (p, s) => false, t => 0);
    var n := Node("", None, None, None, Some(""), None, Some(""), Some(""), None);
    if f.certnameContains.Some? && f.certnameContains.value != "" {
      assert !Contains(n.certname, f.certnameContains.value);
    }
    if f.statuses.Some? {
      forall s | s in f.statuses.value ensures !StatusHolds(n.latestReportStatus, s) {
      }
    }
    if asked {
      assert !Satisfies(b, FactOf(b, "", f.facts.value[0].path), f.facts.value[0].op);
    }
    assert !NodeMatches(b, f, n);
  }

  // ---- what the query misses ----

  /**
   * At one backend and node, the query and the filter agree exactly unless the filter accepts the node and the
   * query misses it.
   */
  lemma NodeQueryAgreesExactly(b: Backend, f: NodeFilter, n: Node)
    ensures (Selects(b, Conjunction(NodeClauses(f)), NodeRow(n)) <==> NodeMatches(b, f, n))
            <==> !(NodeMatches(b, f, n) && Missed(b, f.facts, n.certname))
  {
    NodeQueryMeaning(f);
  }

  /** A node that has everything the filter asks for besides facts, and no inventory row. */
  function Unlisted(f: NodeFilter): (Backend, Node) {
    var since := if f.factsChangedSince.Some? then f.factsChangedSince.value else "";
    (Backend(map[], (p, s) => false, t => if t == since then 0 else 1),
     Node(
       if f.certnameContains.Some? then f.certnameContains.value else "",
       if f.environments.Some? && f.environments.value != [] then Some(f.environments.value[0]) else None,
       None, None, None, Some(since + "."),
       if f.statuses.Some? && f.statuses.value != [] && f.statuses.value[0] != NeverReported
       then Some(StatusName(f.statuses.value[0])) else None,
       None, None))
  }

  lemma UnlistedMatches(f: NodeFilter)
    requires f.facts.Some? ==> forall i | 0 <= i < |f.facts.value| :: f.facts.value[i].op.NotExists?
    ensures NodeMatches(Unlisted(f).0, f, Unlisted(f).1)
  {
    var (b, n) := Unlisted(f);
    if f.certnameContains.Some? { assert f.certnameContains.value <= n.certname[0..]; }
    if f.environments.Some? && f.environments.value != [] { assert InEnvironment(n, f.environments.value[0]); }
    if f.statuses.Some? && f.statuses.value != [] { assert StatusHolds(n.latestReportStatus, f.statuses.value[0]); }
    if f.factsChangedSince.Some? {
      var since := f.factsChangedSince.value;
      assert |since + "."| != |since|;
    }
  }

  /** The query means the filter, everywhere, exactly unless all the filter asks of facts is that they be missing. */
  lemma NodeQueryFaithfulExactly(f: NodeFilter)
    ensures (forall b: Backend, n: Node ::
               Selects(b, Conjunction(NodeClauses(f)), NodeRow(n)) <==> NodeMatches(b, f, n))
            <==> !OnlyAbsence(f.facts)
  {
    NodeQueryMeaning(f);
    if OnlyAbsence(f.facts) {
      UnlistedMatches(f);
      var (b, n) := Unlisted(f);
      assert Missed(b, f.facts, n.certname);
      assert !(Selects(b, Conjunction(NodeClauses(f)), NodeRow(n)) <==> NodeMatches(b, f, n));
    }
  }

  const WITHOUT_FACT := NodeFilter(Some([Condition("os", NotExists)]), None, None, None, None, None, true)
  const EMPTY_INVENTORY := Backend(map[], (p: string, s: string) => false, (t: string) => 0)
  const UNLISTED := Node("web", None, None, None, None, None, None, None, None)

  /** A node that has submitted no facts has no fact `os`, and the query for nodes without it does not find it. */
  lemma NotExistsLosesNode()
    ensures NodeMatches(EMPTY_INVENTORY, WITHOUT_FACT, UNLISTED)
    ensures !Selects(EMPTY_INVENTORY, Conjunction(NodeClauses(WITHOUT_FACT)), NodeRow(UNLISTED))
  {
    NodeQueryMeaning(WITHOUT_FACT);
    assert Missed(EMPTY_INVENTORY, WITHOUT_FACT.facts, UNLISTED.certname);
  }

  // ---- resources ----

  datatype ResourceFilter = ResourceFilter(
    kind: string,
    title: Option<string>,
    titleContains: Option<string>,
    environments: Option<seq<string>>,
    exported: Option<bool>,
    parameters: Option<seq<Condition>>,
    facts: Option<seq<Condition>>)

  datatype Resource = Resource(certname: string, kind: string, title: string, environment: Option<string>,
      exported: bool, parameters: map<string, string>)

  function ResourceRow(r: Resource): Row {
    (f: string) =>
      if f == "certname" then Some(r.certname)
      else if f == "type" then Some(r.kind)
      else if f == "title" then Some(r.title)
      else if f == "environment" then r.environment
      else if f == "exported" then Some(if r.exported then "true" else "false")
      else Dotted("parameters.", r.parameters)(f)
  }

  predicate ResourceMatches(b: Backend, f: ResourceFilter, r: Resource) {
    && r.kind == f.kind
    && (f.title.Some? && f.title.value != "" ==> r.title == f.title.value)
    && (f.titleContains.Some? ==> Contains(r.title, f.titleContains.value))
    && (f.environments.Some? && f.environments.value != []
        ==> r.environment.Some? && r.environment.value in f.environments.value)
    && (f.exported.Some? ==> r.exported == f.exported.value)
    && (f.parameters.Some? ==>
          forall i | 0 <= i < |f.parameters.value| ::
            Satisfies(b, ValueAt(r.parameters, f.parameters.value[i].path), f.parameters.value[i].op))
    && (f.facts.Some? ==> FactsHold(b, r.certname, f.facts.value))
  }

  function EqualSection(field: string, value: Option<string>): seq<Ast> {
    if value.Some? then [Eq(field, value.value)] else []
  }

  function GivenTitle(f: ResourceFilter): Option<string> {
    if f.title.Some? && f.title.value != "" then f.title else None
  }

  /** A flag as it is written in a query. */
  function FlagText(flag: bool): string {
    if flag then "true" else "false"
  }

  function GivenFlag(f: ResourceFilter): Option<string> {
    if f.exported.Some? then Some(FlagText(f.exported.value)) else None
  }

  function ParameterSection(parameters: Option<seq<Condition>>): seq<Ast> {
    if parameters.Some? then ParameterClauses(parameters.value) else []
  }

  function ResourceClauses(f: ResourceFilter): seq<Ast> {
    [Eq("type", f.kind)] + EqualSection("title", GivenTitle(f)) + ContainsSection("title", f.titleContains)
    + OneOfSection(f.environments) + EqualSection("exported", GivenFlag(f)) + ParameterSection(f.parameters)
       + FactSection(f.facts)
  }

  function OneOfSection(envs: Option<seq<string>>): seq<Ast> {
    if envs.Some? && envs.value != []
    then [Or(seq(|envs.value|, i requires 0 <= i < |envs.value| => Eq("environment", envs.value[i])))]
    else []
  }

  lemma OneOfMeaning(b: Backend, r: Resource, envs: Option<seq<string>>)
    ensures AllHold(b, OneOfSection(envs), ResourceRow(r))
            <==> (envs.Some? && envs.value != [] ==> r.environment.Some? && r.environment.value in envs.value)
    ensures AllWellFormed(OneOfSection(envs))
  {
    if envs.Some? && envs.value != [] {
      var q := OneOfSection(envs)[0];
      assert q == ConditionAst("environment", In(envs.value));
      ConditionMeaning(b, ResourceRow(r), "environment", In(envs.value));
      assert AllHold(b, OneOfSection(envs), ResourceRow(r)) <==> Eval(b, q, ResourceRow(r));
    }
  }

  lemma ParametersMeaning(b: Backend, r: Resource, conditions: seq<Condition>)
    ensures AllHold(b, ParameterClauses(conditions), ResourceRow(r))
            <==> forall i | 0 <= i < |conditions| ::
                 Satisfies(b, ValueAt(r.parameters, conditions[i].path), conditions[i].op)
    ensures AllWellFormed(ParameterClauses(conditions)) <==> ListsGiven(conditions)
  {
    var qs := ParameterClauses(conditions);
    forall i | 0 <= i < |conditions|
      ensures Eval(b, qs[i], ResourceRow(r))
              <==> Satisfies(b, ValueAt(r.parameters, conditions[i].path), conditions[i].op)
      ensures WellFormed(qs[i]) <==> (conditions[i].op.In? ==> conditions[i].op.values != [])
    {
      var field := "parameters." + conditions[i].path;
      DottedAt("parameters.", r.parameters, conditions[i].path);
      assert field[9] != "certname"[7] && |field| >= 11;
      assert ResourceRow(r)(field) == ValueAt(r.parameters, conditions[i].path);
      ConditionMeaning(b, ResourceRow(r), field, conditions[i].op);
    }
    if AllHold(b, qs, ResourceRow(r)) {
      forall i | 0 <= i < |conditions|
        ensures Satisfies(b, ValueAt(r.parameters, conditions[i].path), conditions[i].op)
      {
        assert Eval(b, qs[i], ResourceRow(r));
      }
    }
    if AllWellFormed(qs) {
      assert forall i | 0 <= i < |conditions| :: WellFormed(qs[i]);
    }
  }

  lemma EqualMeaning(b: Backend, field: string, value: Option<string>, row: Row)
    ensures AllHold(b, EqualSection(field, value), row) <==> (value.Some? ==> row(field) == value)
    ensures AllWellFormed(EqualSection(field, value))
  {
    if value.Some? {
      assert AllHold(b, EqualSection(field, value), row) <==> Eval(b, EqualSection(field, value)[0], row);
    }
  }

  lemma FlagMeaning(b: Backend, f: ResourceFilter, r: Resource)
    ensures AllHold(b, EqualSection("exported", GivenFlag(f)), ResourceRow(r))
            <==> (f.exported.Some? ==> r.exported == f.exported.value)
    ensures AllWellFormed(EqualSection("exported", GivenFlag(f)))
  {
    EqualMeaning(b, "exported", GivenFlag(f), ResourceRow(r));
    assert |FlagText(true)| != |FlagText(false)|;
  }

  lemma KindMeaning(b: Backend, f: ResourceFilter, r: Resource)
    ensures AllHold(b, [Eq("type", f.kind)], ResourceRow(r)) <==> r.kind == f.kind
  {
    assert AllHold(b, [Eq("type", f.kind)], ResourceRow(r)) <==> Eval(b, [Eq("type", f.kind)][0], ResourceRow(r));
  }

  lemma TitleMeaning(b: Backend, f: ResourceFilter, r: Resource)
    ensures AllHold(b, EqualSection("title", GivenTitle(f)), ResourceRow(r))
            <==> (f.title.Some? && f.title.value != "" ==> r.title == f.title.value)
    ensures AllWellFormed(EqualSection("title", GivenTitle(f)))
    ensures AllHold(b, ContainsSection("title", f.titleContains), ResourceRow(r))
            <==> (f.titleContains.Some? ==> Contains(r.title, f.titleContains.value))
    ensures AllWellFormed(ContainsSection("title", f.titleContains))
  {
    EqualMeaning(b, "title", GivenTitle(f), ResourceRow(r));
    ContainsMeaning(b, ResourceRow(r), "title", f.titleContains);
  }

  lemma InventoryMeaning(b: Backend, f: ResourceFilter, r: Resource)
    ensures AllHold(b, FactSection(f.facts), ResourceRow(r))
            <==> (f.facts.Some? ==> FactsHold(b, r.certname, f.facts.value)) && !Missed(b, f.facts, r.certname)
    ensures AllWellFormed(FactSection(f.facts)) <==> (f.facts.Some? ==> ListsGiven(f.facts.value))
  {
    if f.facts.Some? {
      FactsMeaning(b, ResourceRow(r), f.facts.value);
      RowsAgreeExactly(b, r.certname, f.facts.value);
    }
  }

  lemma SevenSections(b: Backend, c1: seq<Ast>, c2: seq<Ast>, c3: seq<Ast>, c4: seq<Ast>, c5: seq<Ast>, c6: seq<Ast>,
      c7: seq<Ast>, row: Row)
    ensures AllHold(b, c1 + c2 + c3 + c4 + c5 + c6 + c7, row)
            <==> AllHold(b, c1, row) && AllHold(b, c2, row) && AllHold(b, c3, row) && AllHold(b, c4, row)
                 && AllHold(b, c5, row) && AllHold(b, c6, row) && AllHold(b, c7, row)
    ensures AllWellFormed(c1 + c2 + c3 + c4 + c5 + c6 + c7)
            <==> AllWellFormed(c1) && AllWellFormed(c2) && AllWellFormed(c3) && AllWellFormed(c4)
                 && AllWellFormed(c5) && AllWellFormed(c6) && AllWellFormed(c7)
  {
    AllConcat(b, c1, c2, row);
    AllConcat(b, c1 + c2, c3, row);
    AllConcat(b, c1 + c2 + c3, c4, row);
    AllConcat(b, c1 + c2 + c3 + c4, c5, row);
    AllConcat(b, c1 + c2 + c3 + c4 + c5, c6, row);
    AllConcat(b, c1 + c2 + c3 + c4 + c5 + c6, c7, row);
  }

  lemma ResourceClausesMeaning(b: Backend, f: ResourceFilter, r: Resource)
    ensures AllHold(b, ResourceClauses(f), ResourceRow(r))
            <==> ResourceMatches(b, f, r) && !Missed(b, f.facts, r.certname)
    ensures AllWellFormed(ResourceClauses(f))
            <==> (f.parameters.Some? ==> ListsGiven(f.parameters.value))
                 && (f.facts.Some? ==> ListsGiven(f.facts.value))
  {
    SevenSections(b, [Eq("type", f.kind)], EqualSection("title", GivenTitle(f)),
        ContainsSection("title", f.titleContains),
                  OneOfSection(f.environments), EqualSection("exported", GivenFlag(f)), ParameterSection(f.parameters),
                  FactSection(f.facts), ResourceRow(r));
    KindMeaning(b, f, r);
    TitleMeaning(b, f, r);
    OneOfMeaning(b, r, f.environments);
    FlagMeaning(b, f, r);
    if f.parameters.Some? { ParametersMeaning(b, r, f.parameters.value); }
    InventoryMeaning(b, f, r);
  }

  lemma ResourceQueryMeaning(f: ResourceFilter)
    ensures Conjunction(ResourceClauses(f)).Some?
    ensures forall b: Backend, r: Resource ::
              Eval(b, Conjunction(ResourceClauses(f)).value, ResourceRow(r))
              <==> ResourceMatches(b, f, r) && !Missed(b, f.facts, r.certname)
    ensures WellFormed(Conjunction(ResourceClauses(f)).value)
            <==> (f.parameters.Some? ==> ListsGiven(f.parameters.value))
                 && (f.facts.Some? ==> ListsGiven(f.facts.value))
  {
    var clauses := ResourceClauses(f);
    assert clauses[0] == Eq("type", f.kind);
    forall b: Backend, r: Resource
      ensures Eval(b, Conjunction(clauses).value, ResourceRow(r))
              <==> ResourceMatches(b, f, r) && !Missed(b, f.facts, r.certname)
    {
      ResourceClausesMeaning(b, f, r);
      ConjunctionMeaning(b, clauses, ResourceRow(r));
    }
    var someB := Backend(map[], (p, s) => false, t => 0);
    var someR := Resource("", "", "", None, false, map[]);
    ResourceClausesMeaning(someB, f, someR);
    ConjunctionMeaning(someB, clauses, ResourceRow(someR));
  }

  /**
   * The same of resources: the query agrees with the filter exactly unless it misses the node of an accepted
   * resource.
   */
  lemma ResourceQueryAgreesExactly(b: Backend, f: ResourceFilter, r: Resource)
    ensures (Eval(b, Conjunction(ResourceClauses(f)).value, ResourceRow(r)) <==> ResourceMatches(b, f, r))
            <==> !(ResourceMatches(b, f, r) && Missed(b, f.facts, r.certname))
  {
    ResourceQueryMeaning(f);
  }

  /** Translate a resource filter; the type is always given, so there always is a query. */
  method BuildResourceQuery(filter: ResourceFilter) returns (q: Ast)
    ensures q == Conjunction(ResourceClauses(filter)).value
    ensures forall b: Backend, r: Resource ::
              Eval(b, q, ResourceRow(r)) <==> ResourceMatches(b, filter, r) && !Missed(b, filter.facts, r.certname)
    ensures WellFormed(q) <==> (filter.parameters.Some? ==> ListsGiven(filter.parameters.value))
                               && (filter.facts.Some? ==> ListsGiven(filter.facts.value))
  {
    var clauses := PushResourceConditions(filter);
    ghost var pushed := clauses;
    if filter.exported.Some? {
      clauses := clauses + [Eq("exported", FlagText(filter.exported.value))];
    }
    assert clauses == pushed + EqualSection("exported", GivenFlag(filter));
    pushed := clauses;
    if filter.parameters.Some? && filter.parameters.value != [] {
      clauses := clauses + ParameterClauses(filter.parameters.value);
    }
    assert clauses == pushed + ParameterSection(filter.parameters);
    pushed := clauses;
    if filter.facts.Some? && filter.facts.value != [] {
      clauses := clauses + FactClauses(filter.facts.value);
    }
    assert clauses == pushed + FactSection(filter.facts);
    ResourceQueryMeaning(filter);
    if |clauses| == 1 {
      return clauses[0];
    }
    q := And(clauses);
  }

  /** The clauses on type, title and environment. */
  method PushResourceConditions(filter: ResourceFilter) returns (clauses: seq<Ast>)
    ensures clauses == [Eq("type", filter.kind)] + EqualSection("title", GivenTitle(filter))
                       + ContainsSection("title", filter.titleContains) + OneOfSection(filter.environments)
  {
    clauses := [Eq("type", filter.kind)];
    if filter.title.Some? && filter.title.value != "" {
      clauses := clauses + [Eq("title", filter.title.value)];
    }
    assert clauses == [Eq("type", filter.kind)] + EqualSection("title", GivenTitle(filter));
    if filter.titleContains.Some? && filter.titleContains.value != "" {
      clauses := clauses + [Matches("title", Escape(filter.titleContains.value))];
    }
    if filter.environments.Some? && filter.environments.value != [] {
      var envs := filter.environments.value;
      clauses := clauses + [Or(seq(|envs|, i requires 0 <= i < |envs| => Eq("environment", envs[i])))];
    }
  }
}
