/** Cypher MERGE: look for a node, write it when there is none, and what a
    second MERGE then finds (crates/polargraph-query/src/cypher.rs; the write
    modes are those of crates/polargraph-storage/src/store.rs). */
module Merge {
  import opened Sequences
  import opened Values
  import opened Store
  import opened Cypher

  type PlainFloat = f: Float64 | !IsNaN(f) && (IsZero(f) ==> f == 0)

  datatype CypherValue =
    | StrValue(text: Bytes)
    | IntValue(i: Int64)
    | FloatValue(f: PlainFloat)
    | BoolValue(b: bool)
    | ParamLeft(param: string)
  {
    /** A parameter nobody substituted falls back to null. */
    function ToCoreValue(): Value {
      match this
      case StrValue(s) => Text(s)
      case IntValue(i) => Int(i)
      case FloatValue(f) => Float(f)
      case BoolValue(b) => Bool(b)
      case ParamLeft(_) => Null
    }
  }

  type Props = seq<(string, CypherValue)>

  datatype MergeStmt = MergeStmt(variable: Option<string>, nodeLabel: Option<string>, props: Props)

  /** Name resolution, id parsing and the deterministic id of a label's edge. */
  datatype Naming = Naming(
    vocab: Vocabulary,
    parseUuid: Bytes -> Option<NodeId>,
    labelEdge: (NodeId, string) -> EdgeId)

  // ── Reading ──────────────────────────────────────────────────────────────

  function QuadTriple(): Quad -> Option<Triple> { (q: Quad) => Some(q.triple) }

  /** Live triples by subject and/or predicate, in one graph or across all. */
  function ReadScoped(snap: Snapshot, subject: Option<NodeId>, pred: Option<string>,
      graph: Option<GraphId>): seq<Triple> {
    match (graph, subject, pred)
    case (Some(g), s, p) => FilterMap(QuadTriple(), snap.ScanScoped(Pattern(s, p, None), One(g)))
    case (None, Some(s), Some(p)) => snap.ScanBySubjectPredicate(s, p)
    case (None, Some(s), None) => snap.ScanBySubject(s)
    case (None, None, Some(p)) => snap.ScanByPredicate(p)
    case (None, None, None) => snap.ScanAll()
  }

  ghost predicate VisibleIn(snap: Snapshot, graph: Option<GraphId>, t: Triple) {
    match graph
    case Some(g) => Quad(g, t) in snap.quads
    case None => t in snap.UnionTriples()
  }

  lemma ReadScopedMember(snap: Snapshot, subject: Option<NodeId>, pred: Option<string>, graph: Option<GraphId>,
      t: Triple)
    ensures t in ReadScoped(snap, subject, pred, graph)
       <==> VisibleIn(snap, graph, t) && snap.Matches(Pattern(subject, pred, None), t)
  {
    match (graph, subject, pred) {
      case (Some(g), s, p) =>
        var inScope := snap.InScope(Pattern(s, p, None), One(g));
        FilterMapMember(QuadTriple(), Filter(inScope, snap.quads), t);
        forall q
          ensures q in Filter(inScope, snap.quads) <==> q in snap.quads && inScope(q)
        {
          FilterMember(inScope, snap.quads, q);
        }
        assert forall q :: QuadTriple()(q) == Some(t) <==> q.triple == t;
        assert Quad(g, t).triple == t;
      case (None, Some(s), Some(p)) => FilterMember(snap.BySubjectPredicate(s, p), snap.UnionTriples(), t);
      case (None, Some(s), None) => FilterMember(snap.BySubject(s), snap.UnionTriples(), t);
      case (None, None, Some(p)) => FilterMember(snap.ByPredicate(p), snap.UnionTriples(), t);
      case (None, None, None) =>
    }
  }

  // ── Finding a node ───────────────────────────────────────────────────────

  function ClassPattern(names: Naming, nodeLabel: string): Pattern {
    Pattern(None, Some(RDF_TYPE), Some(names.vocab.classNode(nodeLabel)))
  }

  function LabelledSubject(snap: Snapshot, pattern: Pattern, graph: Option<GraphId>): Quad -> Option<NodeId> {
    (q: Quad) =>
      if (graph.Some? ==> q.graph == graph.value) && snap.Matches(pattern, q.triple) then Some(q.triple.subject)
      else None
  }

  function ValuedSubject(v: Value): Triple -> Option<NodeId> {
    (t: Triple) => if t.Property? && t.value == v then Some(t.subject) else None
  }

  /** Nodes to try: those with the label, or else those with the first property. */
  function Candidates(snap: Snapshot, names: Naming, nodeLabel: Option<string>, props: Props,
      graph: Option<GraphId>): seq<NodeId> {
    if nodeLabel.Some? then FilterMap(LabelledSubject(snap, ClassPattern(names, nodeLabel.value), graph), snap.quads)
    else if props != [] then
      FilterMap(ValuedSubject(props[0].1.ToCoreValue()),
        ReadScoped(snap, None, Some(names.vocab.resolve(props[0].0)), graph))
    else []
  }

  predicate HasValue(snap: Snapshot, names: Naming, node: NodeId, prop: (string, CypherValue), graph: Option<GraphId>) {
    AnyValue(ReadScoped(snap, Some(node), Some(names.vocab.resolve(prop.0)), graph), prop.1.ToCoreValue())
  }

  predicate AnyValue(ts: seq<Triple>, v: Value) { exists k :: 0 <= k < |ts| && ts[k].Property? && ts[k].value == v }

  predicate HasValues(snap: Snapshot, names: Naming, node: NodeId, props: Props, graph: Option<GraphId>) {
    forall i :: 0 <= i < |props| ==> HasValue(snap, names, node, props[i], graph)
  }

  function FirstWith(nodes: seq<NodeId>, snap: Snapshot, names: Naming, props: Props,
      graph: Option<GraphId>): Option<NodeId> {
    if nodes == [] then None
    else if HasValues(snap, names, nodes[0], props, graph) then Some(nodes[0])
    else FirstWith(nodes[1..], snap, names, props, graph)
  }

  /** The first candidate with every property; with neither a label nor a
      property to go by there is none. */
  function MatchingNode(snap: Snapshot, names: Naming, nodeLabel: Option<string>, props: Props,
      graph: Option<GraphId>): Option<NodeId> {
    FirstWith(Candidates(snap, names, nodeLabel, props, graph), snap, names, props, graph)
  }

  /** Look each property up in turn, giving up at the first that is missing. */
  method MatchesProps(snap: Snapshot, names: Naming, node: NodeId, props: Props,
      graph: Option<GraphId>) returns (matched: bool)
    ensures matched <==> HasValues(snap, names, node, props, graph)
  {
    for k := 0 to |props|
      invariant forall i :: 0 <= i < k ==> HasValue(snap, names, node, props[i], graph)
    {
      if !HasValue(snap, names, node, props[k], graph) {
        return false;
      }
    }
    return true;
  }

  method FindMatchingNode(snap: Snapshot, names: Naming, nodeLabel: Option<string>, props: Props,
      graph: Option<GraphId>) returns (r: Option<NodeId>)
    ensures r == MatchingNode(snap, names, nodeLabel, props, graph)
  {
    var candidates := Candidates(snap, names, nodeLabel, props, graph);
    for i := 0 to |candidates|
      invariant FirstWith(candidates[i..], snap, names, props, graph)
             == MatchingNode(snap, names, nodeLabel, props, graph)
    {
      assert candidates[i..][0] == candidates[i] && candidates[i..][1..] == candidates[i + 1..];
      var matched := MatchesProps(snap, names, candidates[i], props, graph);
      if matched {
        return Some(candidates[i]);
      }
    }
    return None;
  }

  // ── What finding means ───────────────────────────────────────────────────

  ghost predicate HasLabel(snap: Snapshot, names: Naming, node: NodeId, nodeLabel: string, graph: Option<GraphId>) {
    exists q ::
      q in snap.quads && (graph.Some? ==> q.graph == graph.value) && q.triple.subject == node &&
      snap.Matches(ClassPattern(names, nodeLabel), q.triple)
  }

  function PropTriple(names: Naming, node: NodeId, prop: (string, CypherValue)): Triple {
    Property(node, names.vocab.resolve(prop.0), prop.1.ToCoreValue())
  }

  /** `node` carries the label and every property, as visible triples. */
  ghost predicate Meets(snap: Snapshot, names: Naming, node: NodeId, nodeLabel: Option<string>, props: Props,
      graph: Option<GraphId>) {
    (nodeLabel.Some? ==> HasLabel(snap, names, node, nodeLabel.value, graph)) &&
    forall i :: 0 <= i < |props| ==> VisibleIn(snap, graph, PropTriple(names, node, props[i]))
  }

  lemma HasValueMeaning(snap: Snapshot, names: Naming, node: NodeId, prop: (string, CypherValue),
      graph: Option<GraphId>)
    ensures HasValue(snap, names, node, prop, graph) <==> VisibleIn(snap, graph, PropTriple(names, node, prop))
  {
    forall t ensures t in ReadScoped(snap, Some(node), Some(names.vocab.resolve(prop.0)), graph) <==>
                VisibleIn(snap, graph, t) && t.subject == node && t.pred == names.vocab.resolve(prop.0) {
      ReadScopedMember(snap, Some(node), Some(names.vocab.resolve(prop.0)), graph, t);
    }
    var ts, v := ReadScoped(snap, Some(node), Some(names.vocab.resolve(prop.0)), graph), prop.1.ToCoreValue();
    if AnyValue(ts, v) {
      var k :| 0 <= k < |ts| && ts[k].Property? && ts[k].value == v;
      assert ts[k] in ts;
      assert ts[k] == PropTriple(names, node, prop);
    }
    if PropTriple(names, node, prop) in ts {
      var k :| 0 <= k < |ts| && ts[k] == PropTriple(names, node, prop);
      assert ts[k].Property? && ts[k].value == v;
    }
  }

  lemma CandidateMeaning(snap: Snapshot, names: Naming, node: NodeId, nodeLabel: Option<string>, props: Props,
      graph: Option<GraphId>)
    ensures nodeLabel.Some? ==>
              (node in Candidates(snap, names, nodeLabel, props, graph)
          <==> HasLabel(snap, names, node, nodeLabel.value, graph))
    ensures nodeLabel.None? && props != [] ==>
              (node in Candidates(snap, names, nodeLabel, props, graph)
          <==> VisibleIn(snap, graph, PropTriple(names, node, props[0])))
  {
    if nodeLabel.Some? {
      FilterMapMember(LabelledSubject(snap, ClassPattern(names, nodeLabel.value), graph), snap.quads, node);
    } else if props != [] {
      var p, v := names.vocab.resolve(props[0].0), props[0].1.ToCoreValue();
      FilterMapMember(ValuedSubject(v), ReadScoped(snap, None, Some(p), graph), node);
      forall t ensures t in ReadScoped(snap, None, Some(p), graph) <==> VisibleIn(snap, graph, t) && t.pred == p {
        ReadScopedMember(snap, None, Some(p), graph, t);
      }
      assert forall t :: ValuedSubject(v)(t) == Some(node) && t.pred == p <==> t == Property(node, p, v);
    }
  }

  lemma {:induction false} FirstWithMeaning(nodes: seq<NodeId>, snap: Snapshot, names: Naming, props: Props,
      graph: Option<GraphId>)
    ensures var r := FirstWith(nodes, snap, names, props, graph);
            (r.Some? ==> r.value in nodes && HasValues(snap, names, r.value, props, graph)) &&
            (r.None? ==> forall n :: n in nodes ==> !HasValues(snap, names, n, props, graph))
  {
    if nodes != [] { FirstWithMeaning(nodes[1..], snap, names, props, graph); }
  }

  /** Some node is found exactly when one meets the label and every property,
      and then the node found does. */
  lemma MatchingNodeMeaning(snap: Snapshot, names: Naming, nodeLabel: Option<string>, props: Props,
      graph: Option<GraphId>)
    requires nodeLabel.Some? || props != []
    ensures var r := MatchingNode(snap, names, nodeLabel, props, graph);
            (r.Some? ==> Meets(snap, names, r.value, nodeLabel, props, graph)) &&
            (r.None? ==> forall n: NodeId :: !Meets(snap, names, n, nodeLabel, props, graph))
  {
    var nodes := Candidates(snap, names, nodeLabel, props, graph);
    FirstWithMeaning(nodes, snap, names, props, graph);
    forall n: NodeId
      ensures n in nodes && HasValues(snap, names, n, props, graph) <==> Meets(snap, names, n, nodeLabel, props, graph)
    {
      CandidateMeaning(snap, names, n, nodeLabel, props, graph);
      forall i | 0 <= i < |props|
        ensures HasValue(snap, names, n, props[i], graph) <==> VisibleIn(snap, graph, PropTriple(names, n, props[i]))
      {
        HasValueMeaning(snap, names, n, props[i], graph);
      }
    }
  }

  // ── Writing ──────────────────────────────────────────────────────────────

  function Target(graph: Option<GraphId>): GraphId { if graph.Some? then graph.value else DEFAULT_GRAPH }

  function LabelQuad(names: Naming, node: NodeId, nodeLabel: string, g: GraphId): Quad {
    Quad(g, Relation(node, RDF_TYPE, names.vocab.classNode(nodeLabel), names.labelEdge(node, nodeLabel)))
  }

  function PropQuads(names: Naming, node: NodeId, props: Props, g: GraphId): seq<Quad> {
    seq(|props|, i requires 0 <= i < |props| => Quad(g, PropTriple(names, node, props[i])))
  }

  /** The label first, then the properties in order. */
  function NodeQuads(names: Naming, node: NodeId, stmt: MergeStmt, g: GraphId): seq<Quad> {
    (if stmt.nodeLabel.Some? then [LabelQuad(names, node, stmt.nodeLabel.value, g)] else []) +
    PropQuads(names, node, stmt.props, g)
  }

  /** A caller-supplied `id` property: a node, or text that is no id. */
  datatype IdLookup = NoId | Id(node: NodeId) | BadId

  function IdFromProps(props: Props, names: Naming): IdLookup {
    if props == [] then NoId
    else if props[0].0 == "id" then
      match props[0].1
      case StrValue(s) => (match names.parseUuid(s) case Some(n) => Id(n) case None => BadId)
      case _ => BadId
    else IdFromProps(props[1..], names)
  }

  datatype Outcome = Failed | Merged(node: NodeId, writes: seq<Quad>)

  /** With an id, the node exists iff it has any data; without, iff one matches. */
  function Found(snap: Snapshot, names: Naming, stmt: MergeStmt, graph: Option<GraphId>): Option<NodeId> {
    match IdFromProps(stmt.props, names)
    case Id(n) => if ReadScoped(snap, Some(n), None, graph) == [] then None else Some(n)
    case _ => MatchingNode(snap, names, stmt.nodeLabel, stmt.props, graph)
  }

  function MergeOutcome(snap: Snapshot, names: Naming, stmt: MergeStmt, graph: Option<GraphId>,
      minted: NodeId): Outcome {
    var id := IdFromProps(stmt.props, names);
    if id.BadId? then Failed
    else
      match Found(snap, names, stmt, graph)
      case Some(n) => Merged(n, [])
      case None =>
        var node := if id.Id? then id.node else minted;
        Merged(node, NodeQuads(names, node, stmt, Target(graph)))
  }

  /** The variable, if the statement names one, stands for the node. */
  function Rebound(bindings: map<string, NodeId>, variable: Option<string>, node: NodeId): map<string, NodeId> {
    if variable.Some? then bindings[variable.value := node] else bindings
  }

  /** An open transaction with the bindings and counts a statement updates. */
  class WriteState {
    var pending: seq<Quad>
    var bindings: map<string, NodeId>
    var created: seq<NodeId>

    constructor ()
      ensures pending == [] && bindings == map[] && created == []
    {
      pending, bindings, created := [], map[], [];
    }

    /** Buffer the label and then each property. */
    method WriteNode(names: Naming, node: NodeId, stmt: MergeStmt, g: GraphId)
      modifies this`pending
      ensures pending == old(pending) + NodeQuads(names, node, stmt, g)
    {
      if stmt.nodeLabel.Some? {
        pending := pending + [LabelQuad(names, node, stmt.nodeLabel.value, g)];
      }
      ghost var labelled, quads := pending, PropQuads(names, node, stmt.props, g);
      for k := 0 to |stmt.props|
        invariant pending == labelled + quads[..k]
      {
        pending := pending + [Quad(g, PropTriple(names, node, stmt.props[k]))];
        assert quads[..k + 1] == quads[..k] + [quads[k]];
      }
      assert quads[..|stmt.props|] == quads;
    }

    method Merge(snap: Snapshot, names: Naming, stmt: MergeStmt, graph: Option<GraphId>, minted: NodeId)
        returns (ok: bool)
      modifies this
      ensures var r := MergeOutcome(snap, names, stmt, graph, minted);
              ok == r.Merged? &&
              (!ok ==> pending == old(pending) && bindings == old(bindings) && created == old(created)) &&
              (ok ==> pending == old(pending) + r.writes &&
                      created == old(created) + (if Found(snap, names, stmt, graph).Some? then [] else [r.node]) &&
                      bindings == Rebound(old(bindings), stmt.variable, r.node))
    {
      var id := IdFromProps(stmt.props, names);
      if id.BadId? {
        return false;
      }
      var found: Option<NodeId>;
      if id.Id? {
        found := if ReadScoped(snap, Some(id.node), None, graph) == [] then None else Some(id.node);
      } else {
        found := FindMatchingNode(snap, names, stmt.nodeLabel, stmt.props, graph);
      }
      var node;
      if found.Some? {
        node := found.value;
      } else {
        node := if id.Id? then id.node else minted;
        WriteNode(names, node, stmt, Target(graph));
        created := created + [node];
      }
      if stmt.variable.Some? {
        bindings := bindings[stmt.variable.value := node];
      }
      ok := true;
    }
  }

  // ── Committing ───────────────────────────────────────────────────────────

  /** A write takes over its own key; a property write also closes every other
      value of the same subject and predicate in its graph. */
  predicate Displaces(snap: Snapshot, w: Quad, q: Quad) {
    w.graph == q.graph && w.triple.subject == q.triple.subject && w.triple.pred == q.triple.pred &&
    (snap.ObjectSlot(w.triple) == snap.ObjectSlot(q.triple) || (w.triple.Property? && q.triple.Property?))
  }

  function Survivors(snap: Snapshot, w: Quad): Quad -> bool { (q: Quad) => !Displaces(snap, w, q) }

  function Put(snap: Snapshot, w: Quad): Snapshot {
    snap.(quads := Filter(Survivors(snap, w), snap.quads) + [w])
  }

  function Commit(snap: Snapshot, writes: seq<Quad>): Snapshot {
    if writes == [] then snap else Put(Commit(snap, writes[..|writes| - 1]), writes[|writes| - 1])
  }

  lemma PutMember(snap: Snapshot, w: Quad, q: Quad)
    ensures q in Put(snap, w).quads <==> q == w || (q in snap.quads && !Displaces(snap, w, q))
  {
    FilterMember(Survivors(snap, w), snap.quads, q);
  }

  lemma {:induction false} CommitSplits(snap: Snapshot, a: seq<Quad>, w: Quad)
    ensures Commit(snap, a + [w]) == Put(Commit(snap, a), w)
  {
    assert (a + [w])[..|a|] == a;
  }

  lemma {:induction false} CommitKeepsDigest(snap: Snapshot, writes: seq<Quad>)
    ensures Commit(snap, writes).digest == snap.digest
  {
    if writes != [] { CommitKeepsDigest(snap, writes[..|writes| - 1]); }
  }

  lemma PutKeepsKeysDistinct(snap: Snapshot, w: Quad)
    requires snap.DistinctKeys(snap.quads)
    ensures snap.DistinctKeys(Put(snap, w).quads)
  {
    var kept := Filter(Survivors(snap, w), snap.quads);
    FilterKeepsKeysDistinct(snap, Survivors(snap, w), snap.quads);
    forall i | 0 <= i < |kept| ensures !Displaces(snap, w, kept[i]) {
      FilterMember(Survivors(snap, w), snap.quads, kept[i]);
    }
    forall i, j | 0 <= i < j < |kept + [w]| && (kept + [w])[i].graph == (kept + [w])[j].graph
      ensures !snap.SameSpo((kept + [w])[i].triple, (kept + [w])[j].triple) {}
  }

  lemma DigestDecidesKeys(a: Snapshot, b: Snapshot, qs: seq<Quad>)
    requires a.digest == b.digest && a.DistinctKeys(qs)
    ensures b.DistinctKeys(qs)
  {
    forall i, j | 0 <= i < j < |qs| && qs[i].graph == qs[j].graph ensures !b.SameSpo(qs[i].triple, qs[j].triple) {
      assert !a.SameSpo(qs[i].triple, qs[j].triple);
    }
  }

  /** Committing keeps one live quad per key. */
  lemma {:induction false} CommitKeepsKeysDistinct(snap: Snapshot, writes: seq<Quad>)
    requires snap.DistinctKeys(snap.quads)
    ensures snap.DistinctKeys(Commit(snap, writes).quads)
  {
    if writes != [] {
      var before, w := Commit(snap, writes[..|writes| - 1]), writes[|writes| - 1];
      CommitKeepsKeysDistinct(snap, writes[..|writes| - 1]);
      CommitKeepsDigest(snap, writes[..|writes| - 1]);
      DigestDecidesKeys(snap, before, before.quads);
      PutKeepsKeysDistinct(before, w);
      DigestDecidesKeys(before, snap, Put(before, w).quads);
    }
  }

  lemma {:induction false} FilterKeepsKeysDistinct(snap: Snapshot, keep: Quad -> bool, qs: seq<Quad>)
    requires snap.DistinctKeys(qs)
    ensures snap.DistinctKeys(Filter(keep, qs))
  {
    if qs != [] {
      var rest := Filter(keep, qs[1..]);
      FilterKeepsKeysDistinct(snap, keep, qs[1..]);
      forall j | 0 <= j < |rest| ensures rest[j] in qs[1..] { FilterMember(keep, qs[1..], rest[j]); }
    }
  }

  // ── MERGE twice ──────────────────────────────────────────────────────────

  /** Keys that resolve to the same name carry the same value. */
  predicate Consistent(names: Naming, props: Props) {
    forall i, j :: 0 <= i < j < |props| && names.vocab.resolve(props[i].0) == names.vocab.resolve(props[j].0) ==>
      props[i].1.ToCoreValue() == props[j].1.ToCoreValue()
  }

  /** A triple written to the target graph is visible to a later lookup: the
      default graph is the lowest, so no copy elsewhere can hide it. */
  lemma WrittenIsVisible(snap: Snapshot, graph: Option<GraphId>, t: Triple)
    requires Quad(Target(graph), t) in snap.quads
    ensures VisibleIn(snap, graph, t)
  {
    if graph.None? {
      var q := Quad(DEFAULT_GRAPH, t);
      assert snap.LowestCopy(q);
      snap.UnionTriple(t);
    }
  }

  /** Once every triple a MERGE wrote is live, the same MERGE writes nothing: it
      binds the given id, or a node meeting the label and every property. */
  lemma RemergeWritesNothing(snap: Snapshot, later: Snapshot, names: Naming, stmt: MergeStmt, graph: Option<GraphId>,
      minted: NodeId, minted': NodeId)
    requires stmt.nodeLabel.Some? || stmt.props != []
    requires var r := MergeOutcome(snap, names, stmt, graph, minted);
             r.Merged? && Found(snap, names, stmt, graph).None? &&
             forall i :: 0 <= i < |r.writes| ==> r.writes[i] in later.quads
    ensures var r' := MergeOutcome(later, names, stmt, graph, minted');
            r'.Merged? && Found(later, names, stmt, graph) == Some(r'.node) && r'.writes == [] &&
            match IdFromProps(stmt.props, names)
            case Id(n) => r'.node == n
            case _ => Meets(later, names, r'.node, stmt.nodeLabel, stmt.props, graph)
  {
    var r := MergeOutcome(snap, names, stmt, graph, minted);
    assert r.writes == NodeQuads(names, r.node, stmt, Target(graph));
    AllWrittenMeets(later, names, r.node, stmt, graph);
    match IdFromProps(stmt.props, names)
    case Id(n) =>
      var t := PropTriple(names, n, stmt.props[0]);
      ReadScopedMember(later, Some(n), None, graph, t);
    case _ =>
      MatchingNodeMeaning(later, names, stmt.nodeLabel, stmt.props, graph);
  }

  lemma AllWrittenMeets(later: Snapshot, names: Naming, node: NodeId, stmt: MergeStmt, graph: Option<GraphId>)
    requires forall i :: 0 <= i < |NodeQuads(names, node, stmt, Target(graph))| ==>
               NodeQuads(names, node, stmt, Target(graph))[i] in later.quads
    ensures Meets(later, names, node, stmt.nodeLabel, stmt.props, graph)
  {
    var writes, g := NodeQuads(names, node, stmt, Target(graph)), Target(graph);
    var offset := if stmt.nodeLabel.Some? then 1 else 0;
    if stmt.nodeLabel.Some? {
      assert writes[0] == LabelQuad(names, node, stmt.nodeLabel.value, g);
    }
    forall i | 0 <= i < |stmt.props| ensures VisibleIn(later, graph, PropTriple(names, node, stmt.props[i])) {
      assert writes[offset + i] == Quad(g, PropTriple(names, node, stmt.props[i]));
      WrittenIsVisible(later, graph, PropTriple(names, node, stmt.props[i]));
    }
  }

  // ── MERGE, commit, MERGE again ───────────────────────────────────────────

  predicate Unused(snap: Snapshot, node: NodeId) {
    forall i :: 0 <= i < |snap.quads| ==> snap.quads[i].triple.subject != node
  }

  /** `b` has what `a` has about other nodes, and about `node` only quads in `g`. */
  ghost predicate DiffersAt(a: Snapshot, b: Snapshot, node: NodeId, g: GraphId) {
    a.digest == b.digest &&
    (forall q: Quad :: q.triple.subject != node ==> (q in a.quads <==> q in b.quads)) &&
    forall q: Quad :: q in b.quads && q.triple.subject == node ==> q.graph == g
  }

  predicate About(writes: seq<Quad>, node: NodeId, g: GraphId) {
    forall i :: 0 <= i < |writes| ==> writes[i].triple.subject == node && writes[i].graph == g
  }

  lemma {:induction false} CommitDiffersAt(snap: Snapshot, writes: seq<Quad>, node: NodeId, g: GraphId)
    requires Unused(snap, node) && About(writes, node, g)
    ensures DiffersAt(snap, Commit(snap, writes), node, g)
  {
    if writes != [] {
      var before, w := Commit(snap, writes[..|writes| - 1]), writes[|writes| - 1];
      CommitDiffersAt(snap, writes[..|writes| - 1], node, g);
      forall q: Quad
        ensures q in Put(before, w).quads <==> q == w || (q in before.quads && !Displaces(before, w, q))
      {
        PutMember(before, w, q);
      }
    }
  }

  lemma VisibleElsewhere(a: Snapshot, b: Snapshot, node: NodeId, g: GraphId, graph: Option<GraphId>, t: Triple)
    requires DiffersAt(a, b, node, g) && t.subject != node
    ensures VisibleIn(a, graph, t) <==> VisibleIn(b, graph, t)
  {
    match graph
    case Some(want) => assert Quad(want, t).triple == t;
    case None =>
      a.UnionTriple(t);
      b.UnionTriple(t);
      forall q: Quad | q.triple == t ensures a.LowestCopy(q) <==> b.LowestCopy(q) { LowestElsewhere(a, b, node, g, q); }
  }

  lemma LowestElsewhere(a: Snapshot, b: Snapshot, node: NodeId, g: GraphId, q: Quad)
    requires DiffersAt(a, b, node, g) && q.triple.subject != node
    ensures a.LowestCopy(q) <==> b.LowestCopy(q)
  {
    assert forall t: Triple :: a.SameSpo(t, q.triple) == b.SameSpo(t, q.triple);
    forall i | 0 <= i < |a.quads| && a.SameSpo(a.quads[i].triple, q.triple) ensures a.quads[i] in b.quads {}
    forall i | 0 <= i < |b.quads| && b.SameSpo(b.quads[i].triple, q.triple) ensures b.quads[i] in a.quads {}
  }

  /** Writing about `node` changes no other node's label or properties. */
  lemma MeetsElsewhere(a: Snapshot, b: Snapshot, names: Naming, node: NodeId, g: GraphId, n: NodeId, stmt: MergeStmt,
      graph: Option<GraphId>)
    requires DiffersAt(a, b, node, g) && n != node
    ensures Meets(a, names, n, stmt.nodeLabel, stmt.props, graph)
       <==> Meets(b, names, n, stmt.nodeLabel, stmt.props, graph)
  {
    forall i | 0 <= i < |stmt.props|
      ensures VisibleIn(a, graph, PropTriple(names, n, stmt.props[i]))
         <==> VisibleIn(b, graph, PropTriple(names, n, stmt.props[i])) {
      VisibleElsewhere(a, b, node, g, graph, PropTriple(names, n, stmt.props[i]));
    }
    if stmt.nodeLabel.Some? {
      var pattern := ClassPattern(names, stmt.nodeLabel.value);
      assert forall t: Triple :: a.Matches(pattern, t) == b.Matches(pattern, t);
    }
  }

  // What committing a node's properties leaves of them.

  ghost predicate Single(snap: Snapshot, node: NodeId, pred: string, g: GraphId) {
    forall x: Quad, y: Quad ::
      x in snap.quads && y in snap.quads && IsValueOf(x, node, pred, g) && IsValueOf(y, node, pred, g) ==> x == y
  }

  predicate IsValueOf(q: Quad, node: NodeId, pred: string, g: GraphId) {
    q.graph == g && q.triple.Property? && q.triple.subject == node && q.triple.pred == pred
  }

  lemma PutSingle(snap: Snapshot, w: Quad, node: NodeId, pred: string, g: GraphId)
    requires w.triple.Property? && (Single(snap, node, pred, g) || IsValueOf(w, node, pred, g))
    ensures Single(Put(snap, w), node, pred, g)
  {
    forall q: Quad
      ensures q in Put(snap, w).quads <==> q == w || (q in snap.quads && !Displaces(snap, w, q))
    {
      PutMember(snap, w, q);
    }
  }

  lemma {:induction false} PropsSingle(snap: Snapshot, names: Naming, node: NodeId, head: seq<Quad>, props: Props,
      g: GraphId, i: nat)
    requires i < |props|
    ensures Single(Commit(snap, head + PropQuads(names, node, props, g)), node, names.vocab.resolve(props[i].0), g)
    decreases |props|
  {
    var rest, last := props[..|props| - 1], props[|props| - 1];
    var w := Quad(g, PropTriple(names, node, last));
    PropsSnoc(names, node, head, rest, last, g);
    assert rest + [last] == props;
    CommitSplits(snap, head + PropQuads(names, node, rest, g), w);
    if i < |rest| { PropsSingle(snap, names, node, head, rest, g, i); }
    PutSingle(Commit(snap, head + PropQuads(names, node, rest, g)), w, node, names.vocab.resolve(props[i].0), g);
  }

  lemma PropsSnoc(names: Naming, node: NodeId, head: seq<Quad>, rest: Props, last: (string, CypherValue), g: GraphId)
    ensures head + PropQuads(names, node, rest + [last], g)
         == head + PropQuads(names, node, rest, g) + [Quad(g, PropTriple(names, node, last))]
  {}

  lemma {:induction false} PropsLive(snap: Snapshot, names: Naming, node: NodeId, head: seq<Quad>, props: Props,
      g: GraphId, i: nat)
    requires i < |props| && Consistent(names, props)
    ensures Quad(g, PropTriple(names, node, props[i])) in Commit(snap, head + PropQuads(names, node, props, g)).quads
    decreases |props|
  {
    var rest, last := props[..|props| - 1], props[|props| - 1];
    var before := Commit(snap, head + PropQuads(names, node, rest, g));
    var w, q := Quad(g, PropTriple(names, node, last)), Quad(g, PropTriple(names, node, props[i]));
    PropsSnoc(names, node, head, rest, last, g);
    assert rest + [last] == props;
    CommitSplits(snap, head + PropQuads(names, node, rest, g), w);
    if i < |rest| { PropsLive(snap, names, node, head, rest, g, i); }
    PutMember(before, w, q);
  }

  /** A property stored under the label's own key: rdf:type with a value whose
      hash is the class. */
  predicate TakesLabelKey(snap: Snapshot, names: Naming, nodeLabel: string, prop: (string, CypherValue)) {
    names.vocab.resolve(prop.0) == RDF_TYPE &&
    snap.ValueObject(prop.1.ToCoreValue()) == names.vocab.classNode(nodeLabel)
  }

  predicate SomeTakesLabelKey(snap: Snapshot, names: Naming, nodeLabel: string, props: Props) {
    exists i :: 0 <= i < |props| && TakesLabelKey(snap, names, nodeLabel, props[i])
  }

  lemma LabelStep(before: Snapshot, names: Naming, node: NodeId, nodeLabel: string, prop: (string, CypherValue),
      g: GraphId)
    requires LabelQuad(names, node, nodeLabel, g) in before.quads
    ensures LabelQuad(names, node, nodeLabel, g) in Put(before, Quad(g, PropTriple(names, node, prop))).quads ||
            TakesLabelKey(before, names, nodeLabel, prop)
  {
    PutMember(before, Quad(g, PropTriple(names, node, prop)), LabelQuad(names, node, nodeLabel, g));
  }

  lemma LabelOutlives(snap: Snapshot, names: Naming, node: NodeId, nodeLabel: string, rest: Props,
      last: (string, CypherValue), g: GraphId)
    requires LabelQuad(names, node, nodeLabel, g) in
             Commit(snap, [LabelQuad(names, node, nodeLabel, g)] + PropQuads(names, node, rest, g)).quads
    ensures LabelQuad(names, node, nodeLabel, g) in
            Commit(snap, [LabelQuad(names, node, nodeLabel, g)] + PropQuads(names, node, rest + [last], g)).quads ||
            TakesLabelKey(snap, names, nodeLabel, last)
  {
    var labelled := LabelQuad(names, node, nodeLabel, g);
    var writes := [labelled] + PropQuads(names, node, rest, g);
    PropsSnoc(names, node, [labelled], rest, last, g);
    CommitSplits(snap, writes, Quad(g, PropTriple(names, node, last)));
    CommitKeepsDigest(snap, writes);
    LabelStep(Commit(snap, writes), names, node, nodeLabel, last, g);
  }

  lemma {:induction false} LabelLives(snap: Snapshot, names: Naming, node: NodeId, nodeLabel: string, props: Props,
      g: GraphId)
    ensures LabelQuad(names, node, nodeLabel, g) in
            Commit(snap, [LabelQuad(names, node, nodeLabel, g)] + PropQuads(names, node, props, g)).quads ||
            SomeTakesLabelKey(snap, names, nodeLabel, props)
    decreases |props|
  {
    var labelled := LabelQuad(names, node, nodeLabel, g);
    if props == [] {
      assert [labelled] + PropQuads(names, node, props, g) == [] + [labelled];
      CommitSplits(snap, [], labelled);
    } else {
      var rest, last := props[..|props| - 1], props[|props| - 1];
      LabelLives(snap, names, node, nodeLabel, rest, g);
      assert rest + [last] == props;
      if SomeTakesLabelKey(snap, names, nodeLabel, rest) {
        var i :| 0 <= i < |rest| && TakesLabelKey(snap, names, nodeLabel, rest[i]);
        assert props[i] == rest[i];
      } else {
        LabelOutlives(snap, names, node, nodeLabel, rest, last, g);
        assert props[|props| - 1] == last;
      }
    }
  }

  /** Consistent properties and the label all survive the commit. */
  lemma CommitMeets(snap: Snapshot, names: Naming, node: NodeId, stmt: MergeStmt, graph: Option<GraphId>)
    requires Consistent(names, stmt.props)
    ensures Meets(Commit(snap, NodeQuads(names, node, stmt, Target(graph))), names, node, stmt.nodeLabel, stmt.props,
              graph)
  {
    var g := Target(graph);
    var head := if stmt.nodeLabel.Some? then [LabelQuad(names, node, stmt.nodeLabel.value, g)] else [];
    var after := Commit(snap, head + PropQuads(names, node, stmt.props, g));
    forall i | 0 <= i < |stmt.props|
      ensures Quad(g, PropTriple(names, node, stmt.props[i])) in after.quads &&
              VisibleIn(after, graph, PropTriple(names, node, stmt.props[i])) {
      PropsLive(snap, names, node, head, stmt.props, g, i);
      WrittenIsVisible(after, graph, PropTriple(names, node, stmt.props[i]));
    }
    if stmt.nodeLabel.Some? {
      LabelLives(snap, names, node, stmt.nodeLabel.value, stmt.props, g);
      CommitKeepsDigest(snap, head + PropQuads(names, node, stmt.props, g));
      if i :| 0 <= i < |stmt.props| && TakesLabelKey(snap, names, stmt.nodeLabel.value, stmt.props[i]) {
        var q := Quad(g, PropTriple(names, node, stmt.props[i]));
        assert q in after.quads && after.Matches(ClassPattern(names, stmt.nodeLabel.value), q.triple);
      } else {
        var q := LabelQuad(names, node, stmt.nodeLabel.value, g);
        assert q in after.quads && after.Matches(ClassPattern(names, stmt.nodeLabel.value), q.triple);
      }
    }
  }

  /** Two values under one name: the second write closed the first. */
  lemma InconsistentFails(snap: Snapshot, names: Naming, node: NodeId, stmt: MergeStmt, graph: Option<GraphId>)
    requires Unused(snap, node) && !Consistent(names, stmt.props)
    ensures !Meets(Commit(snap, NodeQuads(names, node, stmt, Target(graph))), names, node, stmt.nodeLabel, stmt.props,
              graph)
  {
    var after := Commit(snap, NodeQuads(names, node, stmt, Target(graph)));
    var i, j :| 0 <= i < j < |stmt.props| &&
                names.vocab.resolve(stmt.props[i].0) == names.vocab.resolve(stmt.props[j].0) &&
                stmt.props[i].1.ToCoreValue() != stmt.props[j].1.ToCoreValue();
    CommitDiffersAt(snap, NodeQuads(names, node, stmt, Target(graph)), node, Target(graph));
    OneValueLives(snap, names, node, stmt, Target(graph), i, PropTriple(names, node, stmt.props[i]),
      PropTriple(names, node, stmt.props[j]));
    if Meets(after, names, node, stmt.nodeLabel, stmt.props, graph) {
      VisibleInTarget(snap, after, node, graph, PropTriple(names, node, stmt.props[i]));
      VisibleInTarget(snap, after, node, graph, PropTriple(names, node, stmt.props[j]));
    }
  }

  lemma OneValueLives(snap: Snapshot, names: Naming, node: NodeId, stmt: MergeStmt, g: GraphId, i: nat, s: Triple,
      t: Triple)
    requires i < |stmt.props| && s.Property? && t.Property? && s.subject == t.subject == node
    requires s.pred == t.pred == names.vocab.resolve(stmt.props[i].0) && s != t
    ensures !(Quad(g, s) in Commit(snap, NodeQuads(names, node, stmt, g)).quads &&
              Quad(g, t) in Commit(snap, NodeQuads(names, node, stmt, g)).quads)
  {
    var head := if stmt.nodeLabel.Some? then [LabelQuad(names, node, stmt.nodeLabel.value, g)] else [];
    PropsSingle(snap, names, node, head, stmt.props, g, i);
    assert IsValueOf(Quad(g, s), node, s.pred, g) && IsValueOf(Quad(g, t), node, s.pred, g);
  }

  lemma VisibleInTarget(snap: Snapshot, after: Snapshot, node: NodeId, graph: Option<GraphId>, t: Triple)
    requires DiffersAt(snap, after, node, Target(graph)) && t.subject == node && VisibleIn(after, graph, t)
    ensures Quad(Target(graph), t) in after.quads
  {
    if graph.None? {
      after.UnionTriple(t);
      var q :| q in after.quads && q.triple == t;
      assert q == Quad(DEFAULT_GRAPH, t);
    }
  }

  /** MERGE, commit, and the same MERGE again: the second finds the first's node
      and writes nothing exactly when an id was given, or there is something to
      look for and no name is given two values. Otherwise it writes again. */
  lemma RemergeExact(snap: Snapshot, names: Naming, stmt: MergeStmt, graph: Option<GraphId>, minted: NodeId)
    requires !IdFromProps(stmt.props, names).BadId? && Found(snap, names, stmt, graph).None?
    requires Unused(snap, minted)
    ensures var r := MergeOutcome(snap, names, stmt, graph, minted);
            Found(Commit(snap, r.writes), names, stmt, graph) ==
              if IdFromProps(stmt.props, names).Id? ||
                 ((stmt.nodeLabel.Some? || stmt.props != []) && Consistent(names, stmt.props))
              then Some(r.node) else None
  {
    var r := MergeOutcome(snap, names, stmt, graph, minted);
    if IdFromProps(stmt.props, names).Id? {
      IdFound(snap, names, stmt, graph, r.node);
    } else if stmt.nodeLabel.Some? || stmt.props != [] {
      SearchAgain(snap, names, stmt, graph, minted);
    }
  }

  /** Only the node just written can meet what nothing met before. */
  lemma OnlyNewMeets(snap: Snapshot, names: Naming, stmt: MergeStmt, graph: Option<GraphId>, node: NodeId, n: NodeId)
    requires Unused(snap, node) && n != node && !Meets(snap, names, n, stmt.nodeLabel, stmt.props, graph)
    ensures !Meets(Commit(snap, NodeQuads(names, node, stmt, Target(graph))), names, n, stmt.nodeLabel, stmt.props,
              graph)
  {
    var writes := NodeQuads(names, node, stmt, Target(graph));
    CommitDiffersAt(snap, writes, node, Target(graph));
    MeetsElsewhere(snap, Commit(snap, writes), names, node, Target(graph), n, stmt, graph);
  }

  /** After the commit the search finds the new node if its properties are
      consistent, and nothing otherwise. */
  lemma SearchAgain(snap: Snapshot, names: Naming, stmt: MergeStmt, graph: Option<GraphId>, node: NodeId)
    requires Unused(snap, node) && (stmt.nodeLabel.Some? || stmt.props != [])
    requires MatchingNode(snap, names, stmt.nodeLabel, stmt.props, graph).None?
    ensures MatchingNode(Commit(snap, NodeQuads(names, node, stmt, Target(graph))), names, stmt.nodeLabel, stmt.props,
              graph)
         == if Consistent(names, stmt.props) then Some(node) else None
  {
    var after := Commit(snap, NodeQuads(names, node, stmt, Target(graph)));
    MatchingNodeMeaning(snap, names, stmt.nodeLabel, stmt.props, graph);
    MatchingNodeMeaning(after, names, stmt.nodeLabel, stmt.props, graph);
    forall n: NodeId | n != node ensures !Meets(after, names, n, stmt.nodeLabel, stmt.props, graph) {
      OnlyNewMeets(snap, names, stmt, graph, node, n);
    }
    if Consistent(names, stmt.props) {
      CommitMeets(snap, names, node, stmt, graph);
    } else {
      InconsistentFails(snap, names, node, stmt, graph);
    }
  }

  /** A node given by id is found as soon as anything was written about it. */
  lemma IdFound(snap: Snapshot, names: Naming, stmt: MergeStmt, graph: Option<GraphId>, node: NodeId)
    requires IdFromProps(stmt.props, names).Id?
    ensures ReadScoped(Commit(snap, NodeQuads(names, node, stmt, Target(graph))), Some(node), None, graph) != []
  {
    var writes := NodeQuads(names, node, stmt, Target(graph));
    var last := writes[|writes| - 1];
    var after := Commit(snap, writes);
    PutMember(Commit(snap, writes[..|writes| - 1]), last, last);
    WrittenIsVisible(after, graph, last.triple);
    ReadScopedMember(after, Some(node), None, graph, last.triple);
  }

  // ── What is written and found, literal by literal ────────────────────────

  /** Among the live triples `node` has the literal under `p`; a parameter that was
      never substituted counts as null. */
  ghost predicate Stores(snap: Snapshot, graph: Option<GraphId>, node: NodeId, p: string, c: CypherValue) {
    match c
    case StrValue(s) => VisibleIn(snap, graph, Property(node, p, Text(s)))
    case IntValue(i) => VisibleIn(snap, graph, Property(node, p, Int(i)))
    case FloatValue(f) => VisibleIn(snap, graph, Property(node, p, Float(f)))
    case BoolValue(b) => VisibleIn(snap, graph, Property(node, p, Bool(b)))
    case ParamLeft(_) => VisibleIn(snap, graph, Property(node, p, Null))
  }

  ghost predicate StoresAll(snap: Snapshot, names: Naming, graph: Option<GraphId>, node: NodeId, props: Props) {
    forall i :: 0 <= i < |props| ==> Stores(snap, graph, node, names.vocab.resolve(props[i].0), props[i].1)
  }

  /** Some rdf:type entry of `node` in the graph, or in any, leads to the class. */
  ghost predicate HasClassIn(snap: Snapshot, graph: Option<GraphId>, node: NodeId, class_: NodeId) {
    exists q ::
      q in snap.quads && (graph.Some? ==> q.graph == graph.value) && q.triple.subject == node &&
      q.triple.pred == RDF_TYPE && snap.ObjectSlot(q.triple) == class_
  }

  ghost predicate Carries(snap: Snapshot, names: Naming, graph: Option<GraphId>, node: NodeId,
      nodeLabel: Option<string>, props: Props) {
    (nodeLabel.Some? ==> HasClassIn(snap, graph, node, names.vocab.classNode(nodeLabel.value))) &&
    StoresAll(snap, names, graph, node, props)
  }

  lemma CarriesIsMeets(snap: Snapshot, names: Naming, graph: Option<GraphId>, node: NodeId, nodeLabel: Option<string>,
      props: Props)
    ensures Carries(snap, names, graph, node, nodeLabel, props)
       <==> Meets(snap, names, node, nodeLabel, props, graph)
  {
    hide VisibleIn;
    forall i | 0 <= i < |props|
      ensures Stores(snap, graph, node, names.vocab.resolve(props[i].0), props[i].1)
         <==> VisibleIn(snap, graph, PropTriple(names, node, props[i]))
    {}
    if nodeLabel.Some? {
      assert HasClassIn(snap, graph, node, names.vocab.classNode(nodeLabel.value))
        <==> HasLabel(snap, names, node, nodeLabel.value, graph);
    }
  }

  /** With a label or property to go by, the search returns a node that carries the
      label and stores every literal, if there is one, and nothing otherwise. */
  lemma SearchFindsStored(snap: Snapshot, names: Naming, nodeLabel: Option<string>, props: Props,
      graph: Option<GraphId>)
    requires nodeLabel.Some? || props != []
    ensures match MatchingNode(snap, names, nodeLabel, props, graph)
            case Some(n) => Carries(snap, names, graph, n, nodeLabel, props)
            case None => forall n: NodeId :: !Carries(snap, names, graph, n, nodeLabel, props)
  {
    MatchingNodeMeaning(snap, names, nodeLabel, props, graph);
    forall n: NodeId
      ensures Carries(snap, names, graph, n, nodeLabel, props) <==> Meets(snap, names, n, nodeLabel, props, graph)
    {
      CarriesIsMeets(snap, names, graph, n, nodeLabel, props);
    }
  }

  /** The only values of `node` under `p` in `g` is the literal. */
  ghost predicate HoldsOnly(snap: Snapshot, g: GraphId, node: NodeId, p: string, c: CypherValue) {
    forall v: Value ::
      Quad(g, Property(node, p, v)) in snap.quads <==>
      match c
      case StrValue(s) => v == Text(s)
      case IntValue(i) => v == Int(i)
      case FloatValue(f) => v == Float(f)
      case BoolValue(b) => v == Bool(b)
      case ParamLeft(_) => v == Null
  }

  predicate LastUnderName(names: Naming, props: Props, i: nat)
    requires i < |props|
  {
    forall j :: i < j < |props| ==> names.vocab.resolve(props[j].0) != names.vocab.resolve(props[i].0)
  }

  lemma {:induction false} LastPropLives(snap: Snapshot, names: Naming, node: NodeId, head: seq<Quad>, props: Props,
      g: GraphId, i: nat)
    requires i < |props| && LastUnderName(names, props, i)
    ensures Quad(g, PropTriple(names, node, props[i])) in Commit(snap, head + PropQuads(names, node, props, g)).quads
    decreases |props|
  {
    var rest, last := props[..|props| - 1], props[|props| - 1];
    var before := Commit(snap, head + PropQuads(names, node, rest, g));
    var w, q := Quad(g, PropTriple(names, node, last)), Quad(g, PropTriple(names, node, props[i]));
    PropsSnoc(names, node, head, rest, last, g);
    assert rest + [last] == props;
    CommitSplits(snap, head + PropQuads(names, node, rest, g), w);
    if i < |rest| { LastPropLives(snap, names, node, head, rest, g, i); }
    PutMember(before, w, q);
  }

  function Head(names: Naming, node: NodeId, stmt: MergeStmt, g: GraphId): seq<Quad> {
    if stmt.nodeLabel.Some? then [LabelQuad(names, node, stmt.nodeLabel.value, g)] else []
  }

  lemma CreatedHoldsOnly(snap: Snapshot, names: Naming, node: NodeId, stmt: MergeStmt, g: GraphId, i: nat)
    requires i < |stmt.props| && LastUnderName(names, stmt.props, i)
    ensures HoldsOnly(Commit(snap, NodeQuads(names, node, stmt, g)), g, node, names.vocab.resolve(stmt.props[i].0),
              stmt.props[i].1)
  {
    var after, p := Commit(snap, NodeQuads(names, node, stmt, g)), names.vocab.resolve(stmt.props[i].0);
    LastPropLives(snap, names, node, Head(names, node, stmt, g), stmt.props, g, i);
    PropsSingle(snap, names, node, Head(names, node, stmt, g), stmt.props, g, i);
    var q := Quad(g, PropTriple(names, node, stmt.props[i]));
    assert q in after.quads && IsValueOf(q, node, p, g);
    forall v: Value ensures Quad(g, Property(node, p, v)) in after.quads <==> Quad(g, Property(node, p, v)) == q {
      assert IsValueOf(Quad(g, Property(node, p, v)), node, p, g);
    }
  }

  lemma {:induction false} CommitKeepsOthers(snap: Snapshot, writes: seq<Quad>, node: NodeId, g: GraphId, q: Quad)
    requires About(writes, node, g) && (q.triple.subject != node || q.graph != g)
    ensures q in Commit(snap, writes).quads <==> q in snap.quads
  {
    if writes != [] {
      CommitKeepsOthers(snap, writes[..|writes| - 1], node, g, q);
      PutMember(Commit(snap, writes[..|writes| - 1]), writes[|writes| - 1], q);
    }
  }

  ghost predicate LiteralsHeld(after: Snapshot, names: Naming, node: NodeId, props: Props, g: GraphId) {
    forall i :: 0 <= i < |props| && LastUnderName(names, props, i) ==>
      HoldsOnly(after, g, node, names.vocab.resolve(props[i].0), props[i].1)
  }

  /** The label's entry is live, under the edge id the label determines. */
  predicate ClassHeld(after: Snapshot, names: Naming, node: NodeId, nodeLabel: string, g: GraphId) {
    Quad(g, Relation(node, RDF_TYPE, names.vocab.classNode(nodeLabel), names.labelEdge(node, nodeLabel))) in after.quads
  }

  predicate NamesType(names: Naming, props: Props) {
    exists i :: 0 <= i < |props| && names.vocab.resolve(props[i].0) == RDF_TYPE
  }

  ghost predicate OthersKept(before: Snapshot, after: Snapshot, node: NodeId, g: GraphId) {
    forall q: Quad :: q.triple.subject != node || q.graph != g ==> (q in after.quads <==> q in before.quads)
  }

  lemma CreatedHolds(snap: Snapshot, names: Naming, node: NodeId, stmt: MergeStmt, g: GraphId)
    ensures LiteralsHeld(Commit(snap, NodeQuads(names, node, stmt, g)), names, node, stmt.props, g)
  {
    hide HoldsOnly, LastUnderName;
    forall i | 0 <= i < |stmt.props| && LastUnderName(names, stmt.props, i)
      ensures HoldsOnly(Commit(snap, NodeQuads(names, node, stmt, g)), g, node,
                names.vocab.resolve(stmt.props[i].0), stmt.props[i].1)
    {
      CreatedHoldsOnly(snap, names, node, stmt, g, i);
    }
  }

  lemma CreatedHasClass(snap: Snapshot, names: Naming, node: NodeId, stmt: MergeStmt, g: GraphId)
    requires stmt.nodeLabel.Some? && !NamesType(names, stmt.props)
    ensures ClassHeld(Commit(snap, NodeQuads(names, node, stmt, g)), names, node, stmt.nodeLabel.value, g)
  {
    LabelLives(snap, names, node, stmt.nodeLabel.value, stmt.props, g);
    if i :| 0 <= i < |stmt.props| && TakesLabelKey(snap, names, stmt.nodeLabel.value, stmt.props[i]) {
      assert NamesType(names, stmt.props);
    }
  }

  lemma CreatedKeepsOthers(snap: Snapshot, names: Naming, node: NodeId, stmt: MergeStmt, g: GraphId)
    ensures OthersKept(snap, Commit(snap, NodeQuads(names, node, stmt, g)), node, g)
  {
    forall q: Quad | q.triple.subject != node || q.graph != g
      ensures q in Commit(snap, NodeQuads(names, node, stmt, g)).quads <==> q in snap.quads
    {
      CommitKeepsOthers(snap, NodeQuads(names, node, stmt, g), node, g, q);
    }
  }

  /** A MERGE that creates, once committed, leaves under each resolved name the last
      literal given for it and no other value, and the class of the label under
      rdf:type unless a property takes that name; it touches nothing but the node in
      its graph. */
  lemma CreatedStores(snap: Snapshot, names: Naming, stmt: MergeStmt, graph: Option<GraphId>, minted: NodeId)
    requires MergeOutcome(snap, names, stmt, graph, minted).Merged? && Found(snap, names, stmt, graph).None?
    ensures var r, g := MergeOutcome(snap, names, stmt, graph, minted), if graph.Some? then graph.value else 0;
            var after := Commit(snap, r.writes);
            LiteralsHeld(after, names, r.node, stmt.props, g) && OthersKept(snap, after, r.node, g) &&
            (stmt.nodeLabel.Some? && !NamesType(names, stmt.props) ==>
               ClassHeld(after, names, r.node, stmt.nodeLabel.value, g))
  {
    hide LiteralsHeld, ClassHeld, OthersKept, NodeQuads, Commit;
    var r, g := MergeOutcome(snap, names, stmt, graph, minted), Target(graph);
    CreatedHolds(snap, names, r.node, stmt, g);
    CreatedKeepsOthers(snap, names, r.node, stmt, g);
    if stmt.nodeLabel.Some? && !NamesType(names, stmt.props) { CreatedHasClass(snap, names, r.node, stmt, g); }
  }

  /** A first property named `id` decides alone: text that is no id fails, as does any
      other literal; an id is the node, which is written to if nothing visible is
      about it and left alone otherwise. */
  lemma IdDecides(snap: Snapshot, names: Naming, stmt: MergeStmt, graph: Option<GraphId>, minted: NodeId, i: nat)
    requires i < |stmt.props| && stmt.props[i].0 == "id" && forall j :: 0 <= j < i ==> stmt.props[j].0 != "id"
    ensures var r := MergeOutcome(snap, names, stmt, graph, minted);
            if stmt.props[i].1.StrValue? && names.parseUuid(stmt.props[i].1.text).Some? then
              r.Merged? && r.node == names.parseUuid(stmt.props[i].1.text).value &&
              (r.writes == [] <==> exists t :: VisibleIn(snap, graph, t) && t.subject == r.node)
            else r.Failed?
  {
    FirstId(stmt.props, names, i);
    var r := MergeOutcome(snap, names, stmt, graph, minted);
    if r.Merged? {
      var ts := ReadScoped(snap, Some(r.node), None, graph);
      forall t ensures t in ts <==> VisibleIn(snap, graph, t) && t.subject == r.node {
        ReadScopedMember(snap, Some(r.node), None, graph, t);
      }
      if ts != [] { assert ts[0] in ts; }
    }
  }

  lemma {:induction false} FirstId(props: Props, names: Naming, i: nat)
    requires i < |props| && props[i].0 == "id" && forall j :: 0 <= j < i ==> props[j].0 != "id"
    ensures IdFromProps(props, names)
         == if props[i].1.StrValue? then
              (match names.parseUuid(props[i].1.text) case Some(n) => Id(n) case None => BadId)
            else BadId
  {
    if i > 0 { FirstId(props[1..], names, i - 1); }
  }

  lemma {:induction false} NoIdGiven(props: Props, names: Naming)
    requires forall j :: 0 <= j < |props| ==> props[j].0 != "id"
    ensures IdFromProps(props, names) == NoId
  {
    if props != [] { NoIdGiven(props[1..], names); }
  }

  /** Without a property named `id`: a node that carries everything asked for is taken
      as it is; when there is none, or nothing is asked for, the minted node is written
      to. */
  lemma SearchDecides(snap: Snapshot, names: Naming, stmt: MergeStmt, graph: Option<GraphId>, minted: NodeId)
    requires forall j :: 0 <= j < |stmt.props| ==> stmt.props[j].0 != "id"
    ensures var r := MergeOutcome(snap, names, stmt, graph, minted);
            r.Merged? &&
            if (stmt.nodeLabel.Some? || stmt.props != []) &&
               exists n: NodeId :: Carries(snap, names, graph, n, stmt.nodeLabel, stmt.props)
            then r.writes == [] && Carries(snap, names, graph, r.node, stmt.nodeLabel, stmt.props)
            else r.node == minted
  {
    NoIdGiven(stmt.props, names);
    if stmt.nodeLabel.Some? || stmt.props != [] {
      SearchFindsStored(snap, names, stmt.nodeLabel, stmt.props, graph);
    }
  }
}
