/** What a query sees of the triple store: the live quads of a snapshot and the
    scans over them (crates/polargraph-storage/src/store.rs, mvcc.rs), together
    with index choice and execution (crates/polargraph-query/src/planner.rs,
    eval.rs). */
module Store {
  import opened Sequences
  import opened Values

  type NodeId = nat
  type EdgeId = nat
  type GraphId = nat

  const DEFAULT_GRAPH: GraphId := 0

  datatype Triple =
    | Relation(subject: NodeId, pred: string, obj: NodeId, edge: EdgeId)
    | Property(subject: NodeId, pred: string, value: Value)

  datatype Quad = Quad(graph: GraphId, triple: Triple)

  /** A triple pattern; `None` in a slot matches anything. A bound object is a
      node or the hash of a property value. */
  datatype Pattern = Pattern(subject: Option<NodeId>, pred: Option<string>, obj: Option<NodeId>)

  datatype GraphScope = One(graph: GraphId) | Set(graphs: seq<GraphId>) | Named {
    predicate Admits(g: GraphId) {
      match this
      case One(want) => want == g
      case Set(gs) => g in gs
      case Named => g != DEFAULT_GRAPH
    }
  }

  datatype Snapshot = Snapshot(
    quads: seq<Quad>,
    digest: Bytes -> NodeId,
    graphIds: map<string, GraphId>,
    graphNodes: map<GraphId, NodeId>,
    nodeGraphs: map<NodeId, GraphId>)
  {
    /** The object slot of a property: the hash of its value's encoding. */
    function ValueObject(v: Value): NodeId { digest(CanonicalBytes(v)) }

    function ObjectSlot(t: Triple): NodeId {
      match t
      case Relation(_, _, o, _) => o
      case Property(_, _, v) => ValueObject(v)
    }

    predicate SameSpo(a: Triple, b: Triple) {
      a.subject == b.subject && a.pred == b.pred && ObjectSlot(a) == ObjectSlot(b)
    }

    predicate DistinctKeys(qs: seq<Quad>) {
      forall i, j :: 0 <= i < j < |qs| && qs[i].graph == qs[j].graph ==> !SameSpo(qs[i].triple, qs[j].triple)
    }

    /** One live quad per key, and graph nodes naming graphs one to one. */
    ghost predicate Valid() {
      DistinctKeys(quads) &&
      DEFAULT_GRAPH !in graphNodes &&
      (forall g :: g in graphNodes ==> graphNodes[g] in nodeGraphs && nodeGraphs[graphNodes[g]] == g) &&
      (forall n :: n in nodeGraphs ==> nodeGraphs[n] in graphNodes && graphNodes[nodeGraphs[n]] == n)
    }

    /** `q` is the copy of its triple in the lowest graph that holds one. */
    predicate LowestCopy(q: Quad) {
      forall i :: 0 <= i < |quads| && SameSpo(quads[i].triple, q.triple) ==> q.graph <= quads[i].graph
    }

    /** Every graph at once, each (subject, predicate, object) taken once. */
    function UnionTriples(): seq<Triple> {
      FilterMap(LowestTriple(), quads)
    }

    function LowestTriple(): Quad -> Option<Triple> {
      (q: Quad) => if LowestCopy(q) then Some(q.triple) else None
    }

    lemma UnionTriple(t: Triple)
      ensures t in UnionTriples() <==> exists q :: q in quads && LowestCopy(q) && q.triple == t
    {
      FilterMapMember(LowestTriple(), quads, t);
      assert forall q :: LowestTriple()(q) == Some(t) <==> LowestCopy(q) && q.triple == t;
    }

    /** No copy of `q` among the first `n` quads is in a lower graph than `low`. */
    predicate LowestAmong(low: Quad, q: Quad, n: nat)
      requires n <= |quads|
    {
      forall i :: 0 <= i < n && SameSpo(quads[i].triple, q.triple) ==> low.graph <= quads[i].graph
    }

    lemma {:induction false} LowestOfFirst(q: Quad, n: nat) returns (low: Quad)
      requires n <= |quads| && q in quads
      ensures low in quads && SameSpo(low.triple, q.triple) && LowestAmong(low, q, n)
    {
      low := q;
      if n > 0 {
        var before := LowestOfFirst(q, n - 1);
        var last := quads[n - 1];
        low := if SameSpo(last.triple, q.triple) && last.graph < before.graph then last else before;
        assert forall i :: 0 <= i < n ==> i < n - 1 || quads[i] == last;
      }
    }

    /** The union shows a triple exactly when some graph holds it and no graph with a
        lower id holds one of the same subject, predicate and object slot. */
    lemma UnionShows(t: Triple)
      ensures t in UnionTriples() <==> exists g :: Quad(g, t) in quads && NoneLower(g, t)
    {
      UnionTriple(t);
      if q :| q in quads && LowestCopy(q) && q.triple == t { assert q == Quad(q.graph, t); }
      if g :| Quad(g, t) in quads && NoneLower(g, t) { assert LowestCopy(Quad(g, t)); }
    }

    predicate NoneLower(g: GraphId, t: Triple) {
      forall i :: 0 <= i < |quads| && quads[i].graph < g ==>
        !(quads[i].triple.subject == t.subject && quads[i].triple.pred == t.pred &&
          ObjectSlot(quads[i].triple) == ObjectSlot(t))
    }

    /** Every stored subject, predicate and object is in the union. */
    lemma UnionRepresents(q: Quad)
      requires q in quads
      ensures exists t :: t in UnionTriples() && SameSpo(t, q.triple)
    {
      var low := LowestOfFirst(q, |quads|);
      assert LowestCopy(low);
      UnionTriple(low.triple);
    }

    /** ... and no two triples of the union share all three. */
    lemma UnionOnce(i: nat, j: nat)
      requires DistinctKeys(quads) && i < j < |UnionTriples()|
      ensures !SameSpo(UnionTriples()[i], UnionTriples()[j])
    {
      var a, b := FilterMapIndices(LowestTriple(), quads, i, j);
      assert LowestCopy(quads[a]) && LowestCopy(quads[b]);
    }

    predicate Stored(p: string) {
      exists i :: 0 <= i < |quads| && quads[i].triple.pred == p
    }

    predicate Matches(pattern: Pattern, t: Triple) {
      (pattern.subject.Some? ==> t.subject == pattern.subject.value) &&
      (pattern.pred.Some? ==> t.pred == pattern.pred.value) &&
      (pattern.obj.Some? ==> ObjectSlot(t) == pattern.obj.value)
    }

    function Matching(pattern: Pattern): Triple -> bool { (t: Triple) => Matches(pattern, t) }

    // ── Scans ──────────────────────────────────────────────────────────────

    function BySubject(s: NodeId): Triple -> bool { (t: Triple) => t.subject == s }
    function ByPredicate(p: string): Triple -> bool { (t: Triple) => t.pred == p }
    function ByObject(o: NodeId): Triple -> bool { (t: Triple) => ObjectSlot(t) == o }
    function BySubjectPredicate(s: NodeId, p: string): Triple -> bool { (t: Triple) => t.subject == s && t.pred == p }
    function BySubjectObject(s: NodeId, o: NodeId): Triple -> bool {
      (t: Triple) => t.subject == s && ObjectSlot(t) == o
    }
    function ByPredicateObject(p: string, o: NodeId): Triple -> bool {
      (t: Triple) => t.pred == p && ObjectSlot(t) == o
    }

    function ScanAll(): seq<Triple> { UnionTriples() }
    function ScanBySubject(s: NodeId): seq<Triple> { Filter(BySubject(s), UnionTriples()) }
    function ScanByPredicate(p: string): seq<Triple> { Filter(ByPredicate(p), UnionTriples()) }
    function ScanByObject(o: NodeId): seq<Triple> { Filter(ByObject(o), UnionTriples()) }
    function ScanBySubjectPredicate(s: NodeId, p: string): seq<Triple> {
      Filter(BySubjectPredicate(s, p), UnionTriples())
    }
    function ScanBySubjectObject(s: NodeId, o: NodeId): seq<Triple> { Filter(BySubjectObject(s, o), UnionTriples()) }
    function ScanByPredicateObject(p: string, o: NodeId): seq<Triple> {
      Filter(ByPredicateObject(p, o), UnionTriples())
    }

    function InScope(pattern: Pattern, scope: GraphScope): Quad -> bool {
      (q: Quad) => scope.Admits(q.graph) && Matches(pattern, q.triple)
    }

    /** Quads in `scope`, one result per graph. */
    function ScanScoped(pattern: Pattern, scope: GraphScope): seq<Quad> {
      Filter(InScope(pattern, scope), quads)
    }

    // ── Index choice and execution ─────────────────────────────────────────

    function Execute(choice: IndexChoice): seq<Triple> {
      match choice
      case SpoExact(s, p, o) => Filter(ByObject(o), ScanBySubjectPredicate(s, p))
      case SpoPrefixSP(s, p) => ScanBySubjectPredicate(s, p)
      case SpoPrefixS(s) => ScanBySubject(s)
      case SopPrefixSO(s, o) => ScanBySubjectObject(s, o)
      case PosPrefixPO(p, o) => ScanByPredicateObject(p, o)
      case PsoPrefixP(p) => ScanByPredicate(p)
      case OspPrefixO(o) => ScanByObject(o)
      case FullScan => ScanAll()
    }

    function Evaluate(pattern: Pattern): seq<Triple> { Execute(ChooseIndex(pattern)) }

    /** Whichever index is chosen, the scan returns exactly the visible triples
        that match every bound slot, as often as they are there. */
    lemma EvaluateIsFilter(pattern: Pattern, t: Triple)
      ensures multiset(Evaluate(pattern))[t] == if Matches(pattern, t) then multiset(UnionTriples())[t] else 0
    {
      EvaluateFilters(pattern);
      FilterCount(Matching(pattern), UnionTriples(), t);
    }

    /** ... here in the one order that every scan of this model keeps. */
    lemma EvaluateFilters(pattern: Pattern)
      ensures Evaluate(pattern) == Filter(Matching(pattern), UnionTriples())
    {
      var all := UnionTriples();
      match ChooseIndex(pattern) {
        case SpoExact(s, p, o) => FilterTwice(ByObject(o), BySubjectPredicate(s, p), Matching(pattern), all);
        case SpoPrefixSP(s, p) => FilterSame(BySubjectPredicate(s, p), Matching(pattern), all);
        case SpoPrefixS(s) => FilterSame(BySubject(s), Matching(pattern), all);
        case SopPrefixSO(s, o) => FilterSame(BySubjectObject(s, o), Matching(pattern), all);
        case PosPrefixPO(p, o) => FilterSame(ByPredicateObject(p, o), Matching(pattern), all);
        case PsoPrefixP(p) => FilterSame(ByPredicate(p), Matching(pattern), all);
        case OspPrefixO(o) => FilterSame(ByObject(o), Matching(pattern), all);
        case FullScan => FilterAll(Matching(pattern), all);
      }
    }

    function GraphForNode(n: NodeId): Option<GraphId> { if n in nodeGraphs then Some(nodeGraphs[n]) else None }

    function GraphNode(g: GraphId): Option<NodeId> { if g in graphNodes then Some(graphNodes[g]) else None }
  }

  datatype IndexChoice =
    | SpoExact(s: NodeId, p: string, o: NodeId)
    | SpoPrefixSP(s: NodeId, p: string)
    | SpoPrefixS(s: NodeId)
    | SopPrefixSO(s: NodeId, o: NodeId)
    | PosPrefixPO(p: string, o: NodeId)
    | PsoPrefixP(p: string)
    | OspPrefixO(o: NodeId)
    | FullScan

  function ChooseIndex(pattern: Pattern): IndexChoice {
    match (pattern.subject, pattern.pred, pattern.obj)
    case (Some(s), Some(p), Some(o)) => SpoExact(s, p, o)
    case (Some(s), Some(p), None) => SpoPrefixSP(s, p)
    case (Some(s), None, Some(o)) => SopPrefixSO(s, o)
    case (Some(s), None, None) => SpoPrefixS(s)
    case (None, Some(p), Some(o)) => PosPrefixPO(p, o)
    case (None, Some(p), None) => PsoPrefixP(p)
    case (None, None, Some(o)) => OspPrefixO(o)
    case (None, None, None) => FullScan
  }
}
