/**
 * The state behind the ENC: managed nodes, node groups, the materialization outbox, the
 * materialization records, and the files puppetserver reads. Also the document the database
 * describes for a node: rule matching (pure/rule-evaluator.ts) and merging (pure/class-merger.ts).
 */
module EncModel {
  import opened Options
  import opened Order
  import opened Json

  type Facts = v: Value | WellFormed(v) witness Null

  /** The facts of a node of which PuppetDB lists none. */
  const NO_FACTS: Facts := Obj([])

  datatype Strategy = AllRules | AnyRule | Pinned

  datatype Rule = Rule(factPath: string, operator: string, value: Option<Meaning>)

  datatype Group = Group(
    name: string,
    rank: int,
    strategy: Strategy,
    environment: Option<string>,
    enabled: bool,
    parent: Option<string>,
    rules: seq<Rule>,
    classes: map<string, map<string, Meaning>>,
    parameters: map<string, Meaning>,
    pins: set<string>)

  type Groups = map<string, Group>

  datatype Node = Node(environment: Option<string>, facts: Facts, deactivated: bool)

  datatype Document = Document(
    classes: map<string, map<string, Meaning>>,
    parameters: map<string, Meaning>,
    environment: Option<string>)

  /** The unique key of an outbox row: `node:<certname>`, `delete:<certname>` or `full-reconcile`. */
  datatype JobKey = NodeKey(certname: string) | DeleteKey(certname: string) | FullKey

  datatype Kind = Materialize | Delete
  datatype Status = Pending | Failed

  datatype Job = Job(
    certname: Option<string>,
    kind: Kind,
    status: Status,
    attempts: nat,
    cursor: Option<string>,
    createdAt: nat,
    nextAttemptAt: nat)

  type Jobs = map<JobKey, Job>

  /** What was last recorded for a node: the document written, its revision, and the groups applied. */
  datatype Rec = Rec(document: Document, revision: nat, applied: seq<string>)

  datatype World = World(
    nodes: map<string, Node>,
    groups: Groups,
    jobs: Jobs,
    recs: map<string, Rec>,
    disk: map<string, Document>)

  /**
   * `holds` decides one rule against projected facts. It sees the facts as a meaning: a rule reads
   * facts by key, never by member order.
   */
  datatype Config = Config(holds: (Meaning, Rule) -> bool, batchSize: nat, chunkSize: nat, maxAttempts: nat)

  predicate ValidConfig(cfg: Config) {
    cfg.batchSize >= 1 && cfg.chunkSize >= 1
  }

  // ---- which groups match ----

  predicate GroupMatches(cfg: Config, g: Group, certname: string, facts: Meaning) {
    && g.enabled
    && match g.strategy
       case Pinned => certname in g.pins
       case AllRules => g.rules != [] && forall i | 0 <= i < |g.rules| :: cfg.holds(facts, g.rules[i])
       case AnyRule => g.rules != [] && exists i | 0 <= i < |g.rules| :: cfg.holds(facts, g.rules[i])
  }

  function Matched(cfg: Config, groups: Groups, certname: string, facts: Meaning): set<string> {
    set id | id in groups && GroupMatches(cfg, groups[id], certname, facts)
  }

  function RankOf(groups: Groups, id: string): int {
    if id in groups then groups[id].rank else 0
  }

  /** Merge order: rank ascending, then id ascending. */
  function MergeBefore(groups: Groups): (string, string) -> bool {
    (a: string, b: string) =>
      RankOf(groups, a) < RankOf(groups, b) || (RankOf(groups, a) == RankOf(groups, b) && Less(a, b))
  }

  lemma MergeBeforeOrders(groups: Groups, s: set<string>)
    ensures StrictTotal(MergeBefore(groups), s)
  {
    LessOrders(s);
  }

  /** The matched groups in merge order. */
  function Applied(cfg: Config, groups: Groups, certname: string, facts: Meaning): (r: seq<string>)
    ensures forall id :: id in r <==> id in Matched(cfg, groups, certname, facts)
    ensures forall i | 0 <= i < |r| :: r[i] in groups
  {
    MergeBeforeOrders(groups, Matched(cfg, groups, certname, facts));
    var r := Sorted(MergeBefore(groups), Matched(cfg, groups, certname, facts));
    assert forall i | 0 <= i < |r| :: r[i] in r;
    r
  }

  // ---- merging ----

  function Get<V>(m: map<string, map<string, V>>, k: string): map<string, V> {
    if k in m then m[k] else map[]
  }

  function Layer(d: Document, g: Group): Document {
    Document(
      map k | k in d.classes.Keys + g.classes.Keys :: Get(d.classes, k) + Get(g.classes, k),
      d.parameters + g.parameters,
      if OwnEnvironment(g) then g.environment else d.environment)
  }

  function Merge(groups: Groups, ids: seq<string>): Document
    requires forall i | 0 <= i < |ids| :: ids[i] in groups
  {
    if ids == [] then Document(map[], map[], None)
    else Layer(Merge(groups, ids[..|ids| - 1]), groups[ids[|ids| - 1]])
  }

  lemma LayerClass(d: Document, g: Group, c: string)
    ensures c in Layer(d, g).classes <==> c in d.classes || c in g.classes
    ensures Get(Layer(d, g).classes, c) == Get(d.classes, c) + Get(g.classes, c)
  {
  }

  /** What a group says of the parameters of a class; nothing if it does not name the class. */
  function Says(groups: Groups, id: string, c: string): map<string, Meaning>
    requires id in groups
  {
    Get(groups[id].classes, c)
  }

  /** A class is declared by any group that names it. */
  lemma {:induction false} ClassesUnite(groups: Groups, ids: seq<string>, c: string)
    requires forall i | 0 <= i < |ids| :: ids[i] in groups
    ensures c in Merge(groups, ids).classes <==> exists i :: 0 <= i < |ids| && c in groups[ids[i]].classes
    decreases |ids|
  {
    if ids != [] {
      var front := ids[..|ids| - 1];
      ClassesUnite(groups, front, c);
      LayerClass(Merge(groups, front), groups[ids[|ids| - 1]], c);
      assert forall i | 0 <= i < |front| :: front[i] == ids[i];
    }
  }

  /** Maps laid over each other, later ones on top. */
  function Overlay<V>(layers: seq<map<string, V>>): map<string, V> {
    if layers == [] then map[] else Overlay(layers[..|layers| - 1]) + layers[|layers| - 1]
  }

  /** The top layer that has a key decides it. */
  predicate Decides<V(==)>(layers: seq<map<string, V>>, result: map<string, V>, key: string) {
    && (key in result <==> exists i :: 0 <= i < |layers| && key in layers[i])
    && forall i | 0 <= i < |layers| && key in layers[i] && (forall j | i < j < |layers| :: key !in layers[j]) ::
         key in result && result[key] == layers[i][key]
  }

  lemma {:induction false} OverlayDecides<V>(layers: seq<map<string, V>>, key: string)
    ensures Decides(layers, Overlay(layers), key)
    decreases |layers|
  {
    if layers != [] {
      var front := layers[..|layers| - 1];
      OverlayDecides(front, key);
      assert forall i | 0 <= i < |front| :: front[i] == layers[i];
    }
  }

  function ClassLayers(groups: Groups, ids: seq<string>, c: string): seq<map<string, Meaning>>
    requires forall i | 0 <= i < |ids| :: ids[i] in groups
  {
    seq(|ids|, i requires 0 <= i < |ids| => Says(groups, ids[i], c))
  }

  lemma {:induction false} MergedClassIsOverlay(groups: Groups, ids: seq<string>, c: string)
    requires forall i | 0 <= i < |ids| :: ids[i] in groups
    ensures Get(Merge(groups, ids).classes, c) == Overlay(ClassLayers(groups, ids, c))
    decreases |ids|
  {
    if ids != [] {
      var front := ids[..|ids| - 1];
      MergedClassIsOverlay(groups, front, c);
      LayerClass(Merge(groups, front), groups[ids[|ids| - 1]], c);
      assert ClassLayers(groups, ids, c)[..|ids| - 1] == ClassLayers(groups, front, c);
    }
  }

  /** For each parameter of a class the last group in merge order to set it decides. */
  lemma LastClassWriterWins(groups: Groups, ids: seq<string>, c: string, key: string)
    requires forall i | 0 <= i < |ids| :: ids[i] in groups
    ensures Decides(ClassLayers(groups, ids, c), Get(Merge(groups, ids).classes, c), key)
  {
    MergedClassIsOverlay(groups, ids, c);
    OverlayDecides(ClassLayers(groups, ids, c), key);
  }

  function ParameterLayers(groups: Groups, ids: seq<string>): seq<map<string, Meaning>>
    requires forall i | 0 <= i < |ids| :: ids[i] in groups
  {
    seq(|ids|, i requires 0 <= i < |ids| => groups[ids[i]].parameters)
  }

  lemma {:induction false} MergedParametersAreOverlay(groups: Groups, ids: seq<string>)
    requires forall i | 0 <= i < |ids| :: ids[i] in groups
    ensures Merge(groups, ids).parameters == Overlay(ParameterLayers(groups, ids))
    decreases |ids|
  {
    if ids != [] {
      MergedParametersAreOverlay(groups, ids[..|ids| - 1]);
      assert ParameterLayers(groups, ids)[..|ids| - 1] == ParameterLayers(groups, ids[..|ids| - 1]);
    }
  }

  /** Top-scope parameters: the last group in merge order that sets a key decides it. */
  lemma LastWriterWins(groups: Groups, ids: seq<string>, key: string)
    requires forall i | 0 <= i < |ids| :: ids[i] in groups
    ensures Decides(ParameterLayers(groups, ids), Merge(groups, ids).parameters, key)
  {
    MergedParametersAreOverlay(groups, ids);
    OverlayDecides(ParameterLayers(groups, ids), key);
  }

  /** The environment is that of the last group in merge order with one of its own. */
  lemma {:induction false} LastEnvironmentWins(groups: Groups, ids: seq<string>)
    requires forall i | 0 <= i < |ids| :: ids[i] in groups
    ensures forall i | 0 <= i < |ids| && OwnEnvironment(groups[ids[i]])
                       && (forall j | i < j < |ids| :: !OwnEnvironment(groups[ids[j]])) ::
              Merge(groups, ids).environment == groups[ids[i]].environment
    ensures Merge(groups, ids).environment == None <==> forall i | 0 <= i < |ids| :: !OwnEnvironment(groups[ids[i]])
    decreases |ids|
  {
    if ids != [] {
      LastEnvironmentWins(groups, ids[..|ids| - 1]);
      assert forall i | 0 <= i < |ids| - 1 :: ids[..|ids| - 1][i] == ids[i];
    }
  }

  predicate OwnEnvironment(g: Group) {
    g.environment.Some? && g.environment.value != ""
  }

  /** The document the groups describe for a node with these facts. */
  function DocFor(cfg: Config, groups: Groups, certname: string, facts: Meaning): Document {
    Merge(groups, Applied(cfg, groups, certname, facts))
  }

  // ---- what matching and merging depend on ----

  /** Two groups contribute the same to a merge. */
  predicate SameContribution(a: Group, b: Group) {
    a.rank == b.rank && a.environment == b.environment && a.classes == b.classes && a.parameters == b.parameters
  }

  /** The same groups match this node in both tables, and each contributes the same. */
  ghost predicate SameFor(cfg: Config, g: Groups, h: Groups, certname: string, facts: Meaning) {
    && Matched(cfg, g, certname, facts) == Matched(cfg, h, certname, facts)
    && forall id | id in Matched(cfg, g, certname, facts) :: SameContribution(g[id], h[id])
  }

  lemma {:induction false} MergeCongruent(g: Groups, h: Groups, ids: seq<string>)
    requires forall i | 0 <= i < |ids| :: ids[i] in g && ids[i] in h && SameContribution(g[ids[i]], h[ids[i]])
    ensures Merge(g, ids) == Merge(h, ids)
    decreases |ids|
  {
    if ids != [] { MergeCongruent(g, h, ids[..|ids| - 1]); }
  }

  lemma MergeBeforeCongruent(g: Groups, h: Groups, s: set<string>)
    requires forall id | id in s :: id in g && id in h && SameContribution(g[id], h[id])
    ensures forall a, b | a in s && b in s :: MergeBefore(g)(a, b) == MergeBefore(h)(a, b)
  {
    assert forall id | id in s :: RankOf(g, id) == RankOf(h, id);
  }

  lemma AppliedCongruent(cfg: Config, g: Groups, h: Groups, certname: string, facts: Meaning)
    requires SameFor(cfg, g, h, certname, facts)
    ensures Applied(cfg, g, certname, facts) == Applied(cfg, h, certname, facts)
  {
    var s := Matched(cfg, g, certname, facts);
    MergeBeforeOrders(g, s);
    MergeBeforeOrders(h, s);
    MergeBeforeCongruent(g, h, s);
    SortedCongruent(MergeBefore(g), MergeBefore(h), s);
  }

  lemma DocCongruent(cfg: Config, g: Groups, h: Groups, certname: string, facts: Meaning)
    requires SameFor(cfg, g, h, certname, facts)
    ensures Applied(cfg, g, certname, facts) == Applied(cfg, h, certname, facts)
    ensures DocFor(cfg, g, certname, facts) == DocFor(cfg, h, certname, facts)
  {
    AppliedCongruent(cfg, g, h, certname, facts);
    var r := Applied(cfg, g, certname, facts);
    forall i | 0 <= i < |r| ensures r[i] in g && r[i] in h && SameContribution(g[r[i]], h[r[i]]) {
      assert r[i] in r;
      assert r[i] in Matched(cfg, g, certname, facts);
    }
    MergeCongruent(g, h, r);
  }

  // ---- the document of a node in a world ----

  function FactsOf(w: World, certname: string): Meaning {
    if certname in w.nodes then Den(w.nodes[certname].facts) else MObj(map[])
  }

  function DocOf(cfg: Config, w: World, certname: string): Document {
    DocFor(cfg, w.groups, certname, FactsOf(w, certname))
  }

  function AppliedOf(cfg: Config, w: World, certname: string): seq<string> {
    Applied(cfg, w.groups, certname, FactsOf(w, certname))
  }

  // ---- certnames that may become file names (posix-enc-storage.ts) ----

  predicate Alnum(c: char) {
    'A' <= c <= 'Z' || 'a' <= c <= 'z' || '0' <= c <= '9'
  }

  predicate SafeCertname(c: string) {
    && 1 <= |c| <= 254
    && Alnum(c[0]) && Alnum(c[|c| - 1])
    && (forall i | 0 <= i < |c| :: Alnum(c[i]) || c[i] == '.' || c[i] == '_' || c[i] == '-')
    && (forall i | 0 <= i < |c| - 1 :: !(c[i] == '.' && c[i + 1] == '.'))
  }
}
