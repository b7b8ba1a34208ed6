/** Cypher MATCH and WHERE: the syntax tree the parser yields, and what a query
    means on a store, read off the tree (crates/polargraph-query/src/cypher.rs). */
module Cypher {
  import opened Sequences
  import opened Values
  import opened Store
  import opened Reachability

  /** Joined from two parts so that the verifier can tell its first letter. */
  const RDF_TYPE := "http" + "://www.w3.org/1999/02/22-rdf-syntax-ns#type"

  // ── Syntax ───────────────────────────────────────────────────────────────

  datatype FilterValue = LiteralValue(value: Value) | ParamValue(param: string)

  datatype NodePat = NodePat(variable: Option<string>, nodeLabel: Option<string>, props: seq<(string, FilterValue)>)

  datatype Direction = Out | In

  datatype RelPat = RelPat(variable: Option<string>, pred: string, recursive: bool, maxHops: Option<nat>)

  datatype HopPat = HopPat(rel: RelPat, direction: Direction, end: NodePat)

  datatype CypherPath = CypherPath(start: NodePat, hops: seq<HopPat>)

  /** `variable.prop = value` */
  datatype WhereEq = WhereEq(variable: string, prop: string, value: FilterValue)

  datatype CypherQuery = CypherQuery(paths: seq<CypherPath>, wheres: seq<WhereEq>)

  /** How the store's vocabulary resolves written names. */
  datatype Vocabulary = Vocabulary(resolve: string -> string, classNode: string -> NodeId)

  // ── Variables the query writes ───────────────────────────────────────────

  function Optional(variable: Option<string>): set<string> { if variable.Some? then {variable.value} else {} }

  /** The variable of a single relationship; one of a repeated relationship is not
      bound. */
  function RelNames(rel: RelPat): set<string> { if rel.recursive then {} else Optional(rel.variable) }

  function HopsRels(hops: seq<HopPat>): set<string> {
    if hops == [] then {} else RelNames(hops[0].rel) + HopsRels(hops[1..])
  }

  function HopsEnds(hops: seq<HopPat>): set<string> {
    if hops == [] then {} else Optional(hops[0].end.variable) + HopsEnds(hops[1..])
  }

  function PathNodes(path: CypherPath): set<string> { Optional(path.start.variable) + HopsEnds(path.hops) }

  function WrittenInPath(path: CypherPath): set<string> { PathNodes(path) + HopsRels(path.hops) }

  function WrittenInPaths(paths: seq<CypherPath>): set<string> {
    if paths == [] then {} else WrittenInPath(paths[0]) + WrittenInPaths(paths[1..])
  }

  function WhereNames(ws: seq<WhereEq>): set<string> {
    if ws == [] then {} else {ws[0].variable} + WhereNames(ws[1..])
  }

  function Written(q: CypherQuery): set<string> { WrittenInPaths(q.paths) + WhereNames(q.wheres) }

  // ── Meaning ──────────────────────────────────────────────────────────────

  /** Nodes for node variables, edge ids for relationship variables. */
  type Row = map<string, NodeId>

  /** A node is what some visible triple starts from or leads to. */
  ghost predicate IsNode(snap: Snapshot, n: NodeId) {
    exists t :: t in snap.UnionTriples() && (t.subject == n || (t.Relation? && t.obj == n))
  }

  ghost predicate HasProperty(snap: Snapshot, n: NodeId, p: string, v: Value) {
    exists t :: t in snap.UnionTriples() && t.Property? && t.subject == n && t.pred == p && t.value == v
  }

  /** `n` has an rdf:type entry whose object slot is `classNode`. */
  ghost predicate HasClass(snap: Snapshot, n: NodeId, classNode: NodeId) {
    exists t :: t in snap.UnionTriples() && t.subject == n && t.pred == RDF_TYPE && snap.ObjectSlot(t) == classNode
  }

  /** An unsubstituted parameter equals nothing. */
  ghost predicate ConditionHolds(snap: Snapshot, n: NodeId, p: string, value: FilterValue) {
    value.LiteralValue? && HasProperty(snap, n, p, value.value)
  }

  ghost predicate NodeFits(v: Vocabulary, snap: Snapshot, node: NodePat, n: NodeId) {
    (node.nodeLabel.Some? ==> HasClass(snap, n, v.classNode(node.nodeLabel.value))) &&
    forall i :: 0 <= i < |node.props| ==> ConditionHolds(snap, n, v.resolve(node.props[i].0), node.props[i].1)
  }

  predicate Names(variable: Option<string>, n: NodeId, row: Row) {
    variable.Some? ==> variable.value in row && row[variable.value] == n
  }

  ghost predicate NodeMatches(v: Vocabulary, snap: Snapshot, node: NodePat, n: NodeId, row: Row) {
    IsNode(snap, n) && Names(node.variable, n, row) && NodeFits(v, snap, node, n)
  }

  /** One edge, whose id the relationship variable names. */
  ghost predicate EdgeHolds(snap: Snapshot, p: string, variable: Option<string>, s: NodeId, o: NodeId, row: Row) {
    exists t :: t in snap.UnionTriples() && t.Relation? && t.pred == p && t.subject == s && t.obj == o &&
                Names(variable, t.edge, row)
  }

  /** From `s` to `o`: one edge, a walk of bounded length, or any walk. */
  ghost predicate Leads(v: Vocabulary, snap: Snapshot, rel: RelPat, s: NodeId, o: NodeId, row: Row) {
    var p := v.resolve(rel.pred);
    if !rel.recursive then EdgeHolds(snap, p, rel.variable, s, o, row)
    else if rel.maxHops.Some? then exists n :: 1 <= n <= rel.maxHops.value && Connected(snap, p, s, o, n)
    else Reaches(snap, p, s, o)
  }

  ghost predicate RelMatches(v: Vocabulary, snap: Snapshot, rel: RelPat, direction: Direction, n: NodeId, m: NodeId,
      row: Row) {
    if direction.Out? then Leads(v, snap, rel, n, m, row) else Leads(v, snap, rel, m, n, row)
  }

  ghost predicate HopsMatch(v: Vocabulary, snap: Snapshot, hops: seq<HopPat>, n: NodeId, row: Row) {
    hops == [] || exists m :: HopMatches(v, snap, hops[0], n, m, row) && HopsMatch(v, snap, hops[1..], m, row)
  }

  ghost predicate HopMatches(v: Vocabulary, snap: Snapshot, hop: HopPat, n: NodeId, m: NodeId, row: Row) {
    RelMatches(v, snap, hop.rel, hop.direction, n, m, row) && NodeMatches(v, snap, hop.end, m, row)
  }

  ghost predicate PathMatches(v: Vocabulary, snap: Snapshot, path: CypherPath, row: Row) {
    exists n :: NodeMatches(v, snap, path.start, n, row) && HopsMatch(v, snap, path.hops, n, row)
  }

  ghost predicate PathsMatch(v: Vocabulary, snap: Snapshot, paths: seq<CypherPath>, row: Row) {
    forall i :: 0 <= i < |paths| ==> PathMatches(v, snap, paths[i], row)
  }

  ghost predicate WheresHold(v: Vocabulary, snap: Snapshot, ws: seq<WhereEq>, row: Row) {
    forall i :: 0 <= i < |ws| ==> WhereHolds(v, snap, ws[i], row)
  }

  ghost predicate WhereHolds(v: Vocabulary, snap: Snapshot, w: WhereEq, row: Row) {
    w.variable in row && ConditionHolds(snap, row[w.variable], v.resolve(w.prop), w.value)
  }

  /** The rows of a query: assignments to the written variables under which every
      path can be laid into the store, anonymous positions anywhere, and every
      condition holds. */
  ghost predicate QueryMatches(v: Vocabulary, snap: Snapshot, q: CypherQuery, row: Row) {
    row.Keys == Written(q) && PathsMatch(v, snap, q.paths, row) && WheresHold(v, snap, q.wheres, row)
  }
}
