/** Conjunctive queries: patterns, partial solutions and one evaluation step
    (crates/polargraph-query/src/datalog.rs). */
module Datalog {
  import opened Sequences
  import opened Values
  import opened Store

  datatype Term =
    | Bound(id: NodeId)
    | Var(name: string)
    | Any
    | Param(param: string)
    | Literal(value: Value)

  datatype GraphTerm =
    | InUnion
    | InDefault
    | InGraph(graph: GraphId)
    | InIri(iri: string)
    | InVar(name: string)
    | InSet(graphs: seq<GraphId>)

  datatype VarPattern = VarPattern(
    subject: Term,
    pred: Option<string>,
    predVar: Option<string>,
    obj: Term,
    edgeVar: Option<string>,
    maxHops: Option<nat>,
    graph: GraphTerm)

  /** One solution: node, predicate and value bindings. */
  datatype Solution = Solution(nodes: map<string, NodeId>, preds: map<string, string>, values: map<string, Value>) {
    /** A variable is bound to a node or to a value, never to both. */
    predicate Valid() { nodes.Keys !! values.Keys }
  }

  const EMPTY := Solution(map[], map[], map[])

  type NodePair = (NodeId, NodeId)
  type DerivedFacts = map<string, set<NodePair>>

  /** The edge id drawn for a derived pair when a pattern is read for one partial
      solution; every such read draws anew. */
  type EdgeDraw = (VarPattern, Solution, NodeId, NodeId) -> EdgeId

  /** The draws of a single read. */
  type PairDraw = (NodeId, NodeId) -> EdgeId

  /** Where ungraphed patterns read: storage alone, or storage with the derived
      predicates held in memory. */
  datatype View = Storage | Hybrid(derived: DerivedFacts, edgeOf: EdgeDraw)

  datatype Context = Context(snapshot: Snapshot, view: View, bindValues: bool)

  // ── Substitution ─────────────────────────────────────────────────────────

  function ResolveTerm(term: Term, sol: Solution, snap: Snapshot): Option<NodeId> {
    match term
    case Bound(id) => Some(id)
    case Var(name) =>
      if name in sol.nodes then Some(sol.nodes[name])
      else if name in sol.values then Some(snap.ValueObject(sol.values[name]))
      else None
    case Any => None
    case Param(_) => None
    case Literal(v) => Some(snap.ValueObject(v))
  }

  function ResolvePredicate(vp: VarPattern, sol: Solution): Option<string> {
    match (vp.pred, vp.predVar)
    case (Some(p), _) => Some(p)
    case (None, Some(v)) => if v in sol.preds then Some(sol.preds[v]) else None
    case (None, None) => None
  }

  function Substitute(vp: VarPattern, sol: Solution, snap: Snapshot): Pattern {
    Pattern(
      ResolveTerm(vp.subject, sol, snap),
      ResolvePredicate(vp, sol),
      ResolveTerm(vp.obj, sol, snap))
  }

  // ── Extending a solution by one match ────────────────────────────────────

  predicate Bindable(v: Value) { !v.Vector? }

  /** Bind `term` to a node, or check it. `None` when it does not match. */
  function BindNode(term: Term, node: NodeId, sol: Solution): Option<Solution> {
    match term
    case Any => Some(sol)
    case Bound(_) => Some(sol)
    case Param(_) => Some(sol)
    case Literal(_) => None
    case Var(name) =>
      if name in sol.values then None
      else if name in sol.nodes then (if sol.nodes[name] == node then Some(sol) else None)
      else Some(sol.(nodes := sol.nodes[name := node]))
  }

  function BindObject(t: Triple, obj: Term, sol: Solution, bindValues: bool): Option<Solution> {
    match obj
    case Any => Some(sol)
    case Param(_) => Some(sol)
    case Bound(_) => Some(sol)
    case Literal(v) => if t.Property? && t.value == v then Some(sol) else None
    case Var(name) =>
      match t
      case Relation(_, _, o, _) => BindNode(obj, o, sol)
      case Property(_, _, v) =>
        if !(bindValues && Bindable(v)) || name in sol.nodes then None
        else if name in sol.values then (if sol.values[name] == v then Some(sol) else None)
        else Some(sol.(values := sol.values[name := v]))
  }

  function BindEdge(t: Triple, edgeVar: Option<string>, sol: Solution): Option<Solution> {
    if edgeVar.Some? && t.Relation? then BindNode(Var(edgeVar.value), t.edge, sol) else Some(sol)
  }

  function BindPredicate(t: Triple, predVar: Option<string>, sol: Solution): Option<Solution> {
    match predVar
    case None => Some(sol)
    case Some(v) =>
      if v in sol.preds then (if sol.preds[v] == t.pred then Some(sol) else None)
      else Some(sol.(preds := sol.preds[v := t.pred]))
  }

  function BindEnds(t: Triple, vp: VarPattern, sol: Solution, bindValues: bool): Option<Solution> {
    match BindNode(vp.subject, t.subject, sol)
    case None => None
    case Some(s1) => BindObject(t, vp.obj, s1, bindValues)
  }

  function BindLabels(t: Triple, vp: VarPattern, sol: Solution): Option<Solution> {
    match BindEdge(t, vp.edgeVar, sol)
    case None => None
    case Some(s3) => BindPredicate(t, vp.predVar, s3)
  }

  function ExtendFull(t: Triple, vp: VarPattern, sol: Solution, bindValues: bool): Option<Solution> {
    match BindEnds(t, vp, sol, bindValues)
    case None => None
    case Some(s2) => BindLabels(t, vp, s2)
  }

  // ── Matching one pattern ─────────────────────────────────────────────────

  function ScopeOf(term: GraphTerm, sol: Solution, snap: Snapshot): GraphScope
    requires !term.InUnion?
  {
    match term
    case InDefault => One(DEFAULT_GRAPH)
    case InGraph(g) => One(g)
    case InIri(iri) => if iri in snap.graphIds then One(snap.graphIds[iri]) else Set([])
    case InSet(gs) => Set(gs)
    case InVar(name) =>
      if name in sol.nodes then
        match snap.GraphForNode(sol.nodes[name])
        case Some(g) => One(g)
        case None => Set([])
      else if name in sol.values then Set([])
      else Named
  }

  /** Derived pairs as relations, in some iteration order. */
  ghost function DerivedTriples(p: string, pairs: set<NodePair>, edgeOf: PairDraw): seq<Triple> {
    FilterMap(PairTriple(p, edgeOf), Listed(pairs))
  }

  predicate ReadsDerived(p: Option<string>, view: View) {
    view.Hybrid? && p.Some? && p.value in view.derived
  }

  predicate PairMatches(pattern: Pattern, pair: NodePair) {
    (pattern.subject.Some? ==> pair.0 == pattern.subject.value) &&
    (pattern.obj.Some? ==> pair.1 == pattern.obj.value)
  }

  function PairMatching(pattern: Pattern): Triple -> bool {
    (t: Triple) => t.Relation? && PairMatches(pattern, (t.subject, t.obj))
  }

  function PairTriple(p: string, edgeOf: PairDraw): NodePair -> Option<Triple> {
    (pair: NodePair) => Some(Relation(pair.0, p, pair.1, edgeOf(pair.0, pair.1)))
  }

  function Drawn(vp: VarPattern, sol: Solution, view: View): PairDraw {
    if view.Hybrid? then (s: NodeId, o: NodeId) => view.edgeOf(vp, sol, s, o) else (s: NodeId, o: NodeId) => 0
  }

  /** The ungraphed scan: a derived predicate reads memory, any other storage. */
  ghost function Ungraphed(pattern: Pattern, ctx: Context, edgeOf: PairDraw): seq<Triple> {
    if ReadsDerived(pattern.pred, ctx.view) then
      var pairs := ctx.view.derived[pattern.pred.value];
      Filter(PairMatching(pattern), DerivedTriples(pattern.pred.value, pairs, edgeOf))
    else ctx.snapshot.Evaluate(pattern)
  }

  function Extender(vp: VarPattern, sol: Solution, bindValues: bool): Triple -> Option<Solution> {
    (t: Triple) => ExtendFull(t, vp, sol, bindValues)
  }

  /** Bind a graph variable to the node naming the match's graph. */
  function BindGraph(g: GraphId, term: GraphTerm, sol: Solution, snap: Snapshot): Option<Solution> {
    if term.InVar? then
      match snap.GraphNode(g)
      case None => None
      case Some(node) => BindNode(Var(term.name), node, sol)
    else Some(sol)
  }

  function ExtendQuad(q: Quad, vp: VarPattern, sol: Solution, ctx: Context): Option<Solution> {
    match ExtendFull(q.triple, vp, sol, ctx.bindValues)
    case None => None
    case Some(next) => BindGraph(q.graph, vp.graph, next, ctx.snapshot)
  }

  function QuadExtender(vp: VarPattern, sol: Solution, ctx: Context): Quad -> Option<Solution> {
    (q: Quad) => ExtendQuad(q, vp, sol, ctx)
  }

  ghost function MatchPattern(vp: VarPattern, sol: Solution, ctx: Context): seq<Solution> {
    var pattern := Substitute(vp, sol, ctx.snapshot);
    if vp.graph.InUnion? then
      FilterMap(Extender(vp, sol, ctx.bindValues), Ungraphed(pattern, ctx, Drawn(vp, sol, ctx.view)))
    else
      FilterMap(QuadExtender(vp, sol, ctx), ctx.snapshot.ScanScoped(pattern, ScopeOf(vp.graph, sol, ctx.snapshot)))
  }

  // ── Bounded transitive patterns ──────────────────────────────────────────

  /** Nodes one `p` edge away from a node of `from`, among `ts`. */
  function Neighbours(ts: seq<Triple>, p: string, from: set<NodeId>): set<NodeId> {
    if ts == [] then {}
    else if ts[0].Relation? && ts[0].pred == p && ts[0].subject in from then {ts[0].obj} + Neighbours(ts[1..], p, from)
    else Neighbours(ts[1..], p, from)
  }

  function Successors(snap: Snapshot, p: string, from: set<NodeId>): set<NodeId> {
    Neighbours(snap.UnionTriples(), p, from)
  }

  /** Nodes reached from `start` by between 1 and `hops` edges. */
  function ReachWithin(snap: Snapshot, p: string, start: NodeId, hops: nat): set<NodeId> {
    if hops == 0 then {} else Successors(snap, p, {start} + ReachWithin(snap, p, start, hops - 1))
  }

  /** Subjects of `p` relations, each once. */
  function DistinctSubjects(ts: seq<Triple>, seen: set<NodeId>): seq<NodeId> {
    if ts == [] then []
    else if ts[0].Relation? && ts[0].subject !in seen then
      [ts[0].subject] + DistinctSubjects(ts[1..], seen + {ts[0].subject})
    else DistinctSubjects(ts[1..], seen)
  }

  function BindTarget(vp: VarPattern, base: Solution, target: NodeId): Option<Solution> {
    match vp.obj
    case Bound(id) => if id == target then Some(base) else None
    case Literal(_) => None
    case _ => BindNode(vp.obj, target, base)
  }

  function TargetBinder(vp: VarPattern, base: Solution): NodeId -> Option<Solution> {
    (target: NodeId) => BindTarget(vp, base, target)
  }

  ghost function HopsFrom(vp: VarPattern, sol: Solution, snap: Snapshot, start: NodeId): seq<Solution>
    requires vp.maxHops.Some? && vp.pred.Some?
  {
    match BindNode(vp.subject, start, sol)
    case None => []
    case Some(base) =>
      FilterMap(TargetBinder(vp, base), Listed(ReachWithin(snap, vp.pred.value, start, vp.maxHops.value)))
  }

  ghost function Hopper(vp: VarPattern, sol: Solution, snap: Snapshot): NodeId -> seq<Solution>
    requires vp.maxHops.Some? && vp.pred.Some?
  {
    (start: NodeId) => HopsFrom(vp, sol, snap, start)
  }

  /** The nodes a bounded walk may start from under `sol`. */
  function Starts(vp: VarPattern, sol: Solution, snap: Snapshot): seq<NodeId>
    requires vp.pred.Some?
  {
    match ResolveTerm(vp.subject, sol, snap)
    case Some(id) => [id]
    case None => DistinctSubjects(snap.ScanByPredicate(vp.pred.value), {})
  }

  ghost function HopPattern(vp: VarPattern, sol: Solution, snap: Snapshot): seq<Solution>
    requires vp.maxHops.Some?
  {
    if vp.pred.None? || (vp.subject.Var? && vp.subject.name in sol.values) then []
    else FlatMap(Hopper(vp, sol, snap), Starts(vp, sol, snap))
  }

  // ── Evaluation ───────────────────────────────────────────────────────────

  /** Every extension of `sol` by one match of `vp`. */
  ghost function Step(vp: VarPattern, sol: Solution, ctx: Context): seq<Solution> {
    if vp.maxHops.Some? then HopPattern(vp, sol, ctx.snapshot) else MatchPattern(vp, sol, ctx)
  }

  ghost function Stepper(vp: VarPattern, ctx: Context): Solution -> seq<Solution> {
    (sol: Solution) => Step(vp, sol, ctx)
  }

  /** Patterns applied left to right to a list of partial solutions. */
  ghost function Solve(ps: seq<VarPattern>, sols: seq<Solution>, ctx: Context): seq<Solution> {
    if ps == [] then sols else Solve(ps[1..], FlatMap(Stepper(ps[0], ctx), sols), ctx)
  }
}
