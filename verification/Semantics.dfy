/** What a conjunctive query means, with no order and no substitution: an answer
    is an assignment for which every pattern has a visible match that agrees
    with it, and which binds nothing else. */
module Semantics {
  import opened Sequences
  import opened Store
  import opened Datalog
  import opened Reachability

  /** One way to satisfy a pattern: a visible quad, or the ends of a walk. */
  datatype Match = Edge(quad: Quad) | Path(start: NodeId, target: NodeId)

  predicate Extends(r: Solution, sol: Solution) {
    (forall x :: x in sol.nodes ==> x in r.nodes && r.nodes[x] == sol.nodes[x]) &&
    (forall x :: x in sol.preds ==> x in r.preds && r.preds[x] == sol.preds[x]) &&
    (forall x :: x in sol.values ==> x in r.values && r.values[x] == sol.values[x])
  }

  // ── Agreement of a match with an assignment ──────────────────────────────

  predicate SlotIs(term: Term, node: NodeId, r: Solution) {
    match term
    case Any => true
    case Param(_) => true
    case Bound(id) => id == node
    case Literal(_) => false
    case Var(x) => x in r.nodes && r.nodes[x] == node
  }

  predicate ObjectIs(obj: Term, t: Triple, r: Solution, ctx: Context) {
    match t
    case Relation(_, _, o, _) => SlotIs(obj, o, r)
    case Property(_, _, v) =>
      match obj
      case Any => true
      case Param(_) => true
      case Bound(id) => id == ctx.snapshot.ValueObject(v)
      case Literal(w) => v == w
      case Var(x) => ctx.bindValues && Bindable(v) && x in r.values && r.values[x] == v
  }

  predicate PredicateIs(vp: VarPattern, p: string, r: Solution) {
    (vp.pred.Some? ==> vp.pred.value == p) &&
    (vp.predVar.Some? ==> vp.predVar.value in r.preds && r.preds[vp.predVar.value] == p)
  }

  predicate EdgeIs(vp: VarPattern, t: Triple, r: Solution) {
    vp.edgeVar.Some? && t.Relation? ==> SlotIs(Var(vp.edgeVar.value), t.edge, r)
  }

  predicate GraphIs(term: GraphTerm, g: GraphId, r: Solution, snap: Snapshot) {
    match term
    case InUnion => true
    case InDefault => g == DEFAULT_GRAPH
    case InGraph(want) => g == want
    case InIri(iri) => iri in snap.graphIds && g == snap.graphIds[iri]
    case InSet(gs) => g in gs
    case InVar(x) => x in r.nodes && g in snap.graphNodes && snap.graphNodes[g] == r.nodes[x]
  }

  predicate TripleAgrees(vp: VarPattern, t: Triple, r: Solution, ctx: Context) {
    SlotIs(vp.subject, t.subject, r) && ObjectIs(vp.obj, t, r, ctx) && PredicateIs(vp, t.pred, r) && EdgeIs(vp, t, r)
  }

  predicate Agrees(vp: VarPattern, m: Match, r: Solution, ctx: Context) {
    match m
    case Edge(q) => TripleAgrees(vp, q.triple, r, ctx) && GraphIs(vp.graph, q.graph, r, ctx.snapshot)
    case Path(s, t) => SlotIs(vp.subject, s, r) && SlotIs(vp.obj, t, r)
  }

  // ── Variables a match binds ──────────────────────────────────────────────

  function TermVars(term: Term): set<string> { if term.Var? then {term.name} else {} }

  function OptVars(v: Option<string>): set<string> { if v.Some? then {v.value} else {} }

  function GraphVars(g: GraphTerm): set<string> { if g.InVar? then {g.name} else {} }

  function TripleVars(vp: VarPattern, t: Triple): set<string> {
    TermVars(vp.subject) + if t.Relation? then TermVars(vp.obj) + OptVars(vp.edgeVar) else {}
  }

  function NodeVars(vp: VarPattern, m: Match): set<string> {
    match m
    case Edge(q) => TripleVars(vp, q.triple) + GraphVars(vp.graph)
    case Path(_, _) => TermVars(vp.subject) + TermVars(vp.obj)
  }

  function ValueVars(vp: VarPattern, m: Match): set<string> {
    if m.Edge? && m.quad.triple.Property? then TermVars(vp.obj) else {}
  }

  function PredVars(vp: VarPattern, m: Match): set<string> {
    if m.Edge? then OptVars(vp.predVar) else {}
  }

  /** `r` is `sol` plus exactly the bindings that matching `m` forces. */
  predicate Contributes(vp: VarPattern, m: Match, sol: Solution, r: Solution, ctx: Context) {
    r.Valid() && Extends(r, sol) && Agrees(vp, m, r, ctx) &&
    r.nodes.Keys == sol.nodes.Keys + NodeVars(vp, m) &&
    r.preds.Keys == sol.preds.Keys + PredVars(vp, m) &&
    r.values.Keys == sol.values.Keys + ValueVars(vp, m)
  }

  // ── Visibility ───────────────────────────────────────────────────────────

  ghost predicate Visible(vp: VarPattern, m: Match, ctx: Context) {
    match m
    case Path(s, t) =>
      vp.maxHops.Some? && vp.pred.Some? && t in ReachWithin(ctx.snapshot, vp.pred.value, s, vp.maxHops.value)
    case Edge(q) =>
      vp.maxHops.None? &&
      if !vp.graph.InUnion? then q in ctx.snapshot.quads
      else q.graph == DEFAULT_GRAPH && VisibleTriple(vp, q.triple, ctx)
  }

  ghost predicate VisibleTriple(vp: VarPattern, t: Triple, ctx: Context) {
    if ReadsDerived(vp.pred, ctx.view) then
      t.Relation? && t.pred == vp.pred.value &&
      (t.subject, t.obj) in ctx.view.derived[vp.pred.value]
    else t in ctx.snapshot.UnionTriples()
  }

  predicate IsUngraphed(vp: VarPattern) { vp.graph.InUnion? && vp.maxHops.None? }

  /** The pattern names a derived predicate and so reads its facts. */
  predicate NamesDerived(vp: VarPattern, ctx: Context) { IsUngraphed(vp) && ReadsDerived(vp.pred, ctx.view) }

  /** Under `sol` the pattern reads what it would read with nothing bound. */
  predicate SteadyRead(vp: VarPattern, sol: Solution, ctx: Context) {
    IsUngraphed(vp) ==>
      ReadsDerived(Substitute(vp, sol, ctx.snapshot).pred, ctx.view) == ReadsDerived(vp.pred, ctx.view)
  }

  /** The edge of a derived fact, whose id is drawn on every read, is not named. */
  predicate EdgeFree(vp: VarPattern, ctx: Context) { NamesDerived(vp, ctx) ==> vp.edgeVar.None? }

  predicate Steady(vp: VarPattern, sol: Solution, ctx: Context) { SteadyRead(vp, sol, ctx) && EdgeFree(vp, ctx) }

  // ── What one read sees ───────────────────────────────────────────────────

  /** A triple an ungraphed pattern ranges over under `sol`: a derived one carries
      the id drawn for this read. */
  ghost predicate SeenTriple(vp: VarPattern, sol: Solution, t: Triple, ctx: Context) {
    var p := Substitute(vp, sol, ctx.snapshot).pred;
    if ReadsDerived(p, ctx.view) then
      t.Relation? && t.pred == p.value && (t.subject, t.obj) in ctx.view.derived[p.value] &&
      t.edge == ctx.view.edgeOf(vp, sol, t.subject, t.obj)
    else t in ctx.snapshot.UnionTriples()
  }

  ghost predicate Seen(vp: VarPattern, sol: Solution, m: Match, ctx: Context) {
    match m
    case Path(_, _) => Visible(vp, m, ctx)
    case Edge(q) =>
      vp.maxHops.None? &&
      if !vp.graph.InUnion? then q in ctx.snapshot.quads
      else q.graph == DEFAULT_GRAPH && SeenTriple(vp, sol, q.triple, ctx)
  }

  ghost predicate SeesMatch(vp: VarPattern, sol: Solution, r: Solution, ctx: Context) {
    exists m :: Seen(vp, sol, m, ctx) && Contributes(vp, m, sol, r, ctx)
  }

  // ── One step means one agreeing match ────────────────────────────────────

  lemma NodesForced(vp: VarPattern, m: Match, r1: Solution, r2: Solution, ctx: Context)
    requires Agrees(vp, m, r1, ctx) && Agrees(vp, m, r2, ctx)
    ensures forall x :: x in NodeVars(vp, m) ==> x in r1.nodes && x in r2.nodes && r1.nodes[x] == r2.nodes[x]
  {}

  lemma LabelsForced(vp: VarPattern, m: Match, r1: Solution, r2: Solution, ctx: Context)
    requires Agrees(vp, m, r1, ctx) && Agrees(vp, m, r2, ctx)
    ensures forall x :: x in PredVars(vp, m) ==> x in r1.preds && x in r2.preds && r1.preds[x] == r2.preds[x]
    ensures forall x :: x in ValueVars(vp, m) ==> x in r1.values && x in r2.values && r1.values[x] == r2.values[x]
  {}

  lemma ContributionIsUnique(vp: VarPattern, m: Match, sol: Solution, r1: Solution, r2: Solution, ctx: Context)
    requires Contributes(vp, m, sol, r1, ctx) && Contributes(vp, m, sol, r2, ctx)
    ensures r1 == r2
  {
    NodesForced(vp, m, r1, r2, ctx);
    LabelsForced(vp, m, r1, r2, ctx);
    SameBindings(sol, r1, r2, NodeVars(vp, m), PredVars(vp, m), ValueVars(vp, m));
  }

  lemma SameBindings(sol: Solution, r1: Solution, r2: Solution, ns: set<string>, ps: set<string>, vs: set<string>)
    requires Extends(r1, sol) && Extends(r2, sol)
    requires r1.nodes.Keys == r2.nodes.Keys == sol.nodes.Keys + ns
    requires r1.preds.Keys == r2.preds.Keys == sol.preds.Keys + ps
    requires r1.values.Keys == r2.values.Keys == sol.values.Keys + vs
    requires forall x :: x in ns ==> x in r1.nodes && x in r2.nodes && r1.nodes[x] == r2.nodes[x]
    requires forall x :: x in ps ==> x in r1.preds && x in r2.preds && r1.preds[x] == r2.preds[x]
    requires forall x :: x in vs ==> x in r1.values && x in r2.values && r1.values[x] == r2.values[x]
    ensures r1 == r2
  {
    assert r1.nodes == r2.nodes;
    assert r1.preds == r2.preds;
    assert r1.values == r2.values;
  }

  lemma ExtendsTrans(a: Solution, b: Solution, c: Solution)
    requires Extends(b, a) && Extends(c, b)
    ensures Extends(c, a)
  {}

  // Fits: a binding that some extension agrees with never fails.

  lemma BindNodeFits(term: Term, node: NodeId, sol: Solution, r: Solution)
    requires r.Valid() && Extends(r, sol) && SlotIs(term, node, r)
    ensures BindNode(term, node, sol).Some? && Extends(r, BindNode(term, node, sol).value)
  {}

  lemma BindObjectFits(t: Triple, obj: Term, sol: Solution, r: Solution, ctx: Context)
    requires r.Valid() && Extends(r, sol) && ObjectIs(obj, t, r, ctx)
    ensures BindObject(t, obj, sol, ctx.bindValues).Some? && Extends(r, BindObject(t, obj, sol, ctx.bindValues).value)
  {
    if t.Relation? { BindNodeFits(obj, t.obj, sol, r); }
  }

  lemma BindEdgeFits(t: Triple, vp: VarPattern, sol: Solution, r: Solution)
    requires r.Valid() && Extends(r, sol) && EdgeIs(vp, t, r)
    ensures BindEdge(t, vp.edgeVar, sol).Some? && Extends(r, BindEdge(t, vp.edgeVar, sol).value)
  {
    if vp.edgeVar.Some? && t.Relation? { BindNodeFits(Var(vp.edgeVar.value), t.edge, sol, r); }
  }

  lemma BindPredicateFits(t: Triple, vp: VarPattern, sol: Solution, r: Solution)
    requires Extends(r, sol) && PredicateIs(vp, t.pred, r)
    ensures BindPredicate(t, vp.predVar, sol).Some? && Extends(r, BindPredicate(t, vp.predVar, sol).value)
  {}

  lemma ExtendFits(t: Triple, vp: VarPattern, sol: Solution, r: Solution, ctx: Context)
    requires r.Valid() && Extends(r, sol)
    requires SlotIs(vp.subject, t.subject, r) && ObjectIs(vp.obj, t, r, ctx) && PredicateIs(vp, t.pred, r) &&
             EdgeIs(vp, t, r)
    ensures ExtendFull(t, vp, sol, ctx.bindValues).Some?
    ensures Extends(r, ExtendFull(t, vp, sol, ctx.bindValues).value)
  {
    BindNodeFits(vp.subject, t.subject, sol, r);
    var s1 := BindNode(vp.subject, t.subject, sol).value;
    BindObjectFits(t, vp.obj, s1, r, ctx);
    var s2 := BindObject(t, vp.obj, s1, ctx.bindValues).value;
    BindEdgeFits(t, vp, s2, r);
    var s3 := BindEdge(t, vp.edgeVar, s2).value;
    BindPredicateFits(t, vp, s3, r);
  }

  /** The substituted pattern never excludes a triple some extension agrees with. */
  lemma SubstituteFits(t: Triple, vp: VarPattern, sol: Solution, r: Solution, ctx: Context)
    requires r.Valid() && Extends(r, sol)
    requires SlotIs(vp.subject, t.subject, r) && ObjectIs(vp.obj, t, r, ctx) && PredicateIs(vp, t.pred, r)
    ensures ctx.snapshot.Matches(Substitute(vp, sol, ctx.snapshot), t)
  {}

  // Gives: a binding that succeeds agrees with the match and binds only its variables.

  lemma BindNodeGives(term: Term, node: NodeId, sol: Solution)
    requires sol.Valid() && BindNode(term, node, sol).Some?
    ensures var r := BindNode(term, node, sol).value;
            r.Valid() && Extends(r, sol) && r.preds == sol.preds && r.values == sol.values &&
            r.nodes.Keys == sol.nodes.Keys + TermVars(term) && (term.Bound? || SlotIs(term, node, r))
  {}

  lemma BindObjectGives(t: Triple, obj: Term, sol: Solution, ctx: Context)
    requires sol.Valid() && BindObject(t, obj, sol, ctx.bindValues).Some?
    ensures var r := BindObject(t, obj, sol, ctx.bindValues).value;
            r.Valid() && Extends(r, sol) && r.preds == sol.preds && (obj.Bound? || ObjectIs(obj, t, r, ctx)) &&
            r.nodes.Keys == sol.nodes.Keys + (if t.Relation? then TermVars(obj) else {}) &&
            r.values.Keys == sol.values.Keys + (if t.Property? then TermVars(obj) else {})
  {
    if t.Relation? && obj.Var? { BindNodeGives(obj, t.obj, sol); }
  }

  lemma BindEdgeGives(t: Triple, vp: VarPattern, sol: Solution)
    requires sol.Valid() && BindEdge(t, vp.edgeVar, sol).Some?
    ensures var r := BindEdge(t, vp.edgeVar, sol).value;
            r.Valid() && Extends(r, sol) && r.preds == sol.preds && r.values == sol.values && EdgeIs(vp, t, r) &&
            r.nodes.Keys == sol.nodes.Keys + (if t.Relation? then OptVars(vp.edgeVar) else {})
  {
    if vp.edgeVar.Some? && t.Relation? { BindNodeGives(Var(vp.edgeVar.value), t.edge, sol); }
  }

  lemma BindPredicateGives(t: Triple, vp: VarPattern, sol: Solution)
    requires sol.Valid() && BindPredicate(t, vp.predVar, sol).Some?
    ensures var r := BindPredicate(t, vp.predVar, sol).value;
            r.Valid() && Extends(r, sol) && r.nodes == sol.nodes && r.values == sol.values &&
            r.preds.Keys == sol.preds.Keys + OptVars(vp.predVar) &&
            (vp.predVar.Some? ==> r.preds[vp.predVar.value] == t.pred)
  {}

  /** What the substituted pattern itself checks: the constant slots. */
  predicate ConstantsMatch(vp: VarPattern, t: Triple, snap: Snapshot) {
    (vp.subject.Bound? ==> vp.subject.id == t.subject) &&
    (vp.obj.Bound? ==> vp.obj.id == snap.ObjectSlot(t)) &&
    (vp.pred.Some? ==> vp.pred.value == t.pred)
  }

  lemma SubstituteGives(t: Triple, vp: VarPattern, sol: Solution, snap: Snapshot)
    requires snap.Matches(Substitute(vp, sol, snap), t)
    ensures ConstantsMatch(vp, t, snap)
  {}

  lemma BindEndsGives(t: Triple, vp: VarPattern, sol: Solution, ctx: Context)
    requires sol.Valid() && ConstantsMatch(vp, t, ctx.snapshot)
    requires BindEnds(t, vp, sol, ctx.bindValues).Some?
    ensures var r := BindEnds(t, vp, sol, ctx.bindValues).value;
            r.Valid() && Extends(r, sol) && r.preds == sol.preds &&
            SlotIs(vp.subject, t.subject, r) && ObjectIs(vp.obj, t, r, ctx) &&
            r.nodes.Keys == sol.nodes.Keys + TermVars(vp.subject) + (if t.Relation? then TermVars(vp.obj) else {}) &&
            r.values.Keys == sol.values.Keys + (if t.Property? then TermVars(vp.obj) else {})
  {
    BindNodeGives(vp.subject, t.subject, sol);
    var s1 := BindNode(vp.subject, t.subject, sol).value;
    BindObjectGives(t, vp.obj, s1, ctx);
    var s2 := BindObject(t, vp.obj, s1, ctx.bindValues).value;
    ExtendsTrans(sol, s1, s2);
    SlotGrows(vp.subject, t.subject, s1, s2);
  }

  lemma BindLabelsGives(t: Triple, vp: VarPattern, sol: Solution)
    requires sol.Valid() && BindLabels(t, vp, sol).Some?
    requires vp.pred.Some? ==> vp.pred.value == t.pred
    ensures var r := BindLabels(t, vp, sol).value;
            r.Valid() && Extends(r, sol) && r.values == sol.values && EdgeIs(vp, t, r) && PredicateIs(vp, t.pred, r) &&
            r.nodes.Keys == sol.nodes.Keys + (if t.Relation? then OptVars(vp.edgeVar) else {}) &&
            r.preds.Keys == sol.preds.Keys + OptVars(vp.predVar)
  {
    BindEdgeGives(t, vp, sol);
    var s3 := BindEdge(t, vp.edgeVar, sol).value;
    BindPredicateGives(t, vp, s3);
    ExtendsTrans(sol, s3, BindLabels(t, vp, sol).value);
  }

  /** A pushed-down match that extends `sol` agrees with the result, which
      binds only the match's variables; the graph slot is bound afterwards. */
  lemma ExtendGives(t: Triple, vp: VarPattern, sol: Solution, ctx: Context)
    requires sol.Valid() && ConstantsMatch(vp, t, ctx.snapshot)
    requires ExtendFull(t, vp, sol, ctx.bindValues).Some?
    ensures var r := ExtendFull(t, vp, sol, ctx.bindValues).value;
            r.Valid() && Extends(r, sol) && TripleAgrees(vp, t, r, ctx) &&
            r.nodes.Keys == sol.nodes.Keys + TripleVars(vp, t) &&
            r.preds.Keys == sol.preds.Keys + OptVars(vp.predVar) &&
            r.values.Keys == sol.values.Keys + (if t.Property? then TermVars(vp.obj) else {})
  {
    var s2 := BindEnds(t, vp, sol, ctx.bindValues).value;
    var r := ExtendFull(t, vp, sol, ctx.bindValues).value;
    assert BindLabels(t, vp, s2) == Some(r);
    BindEndsGives(t, vp, sol, ctx);
    BindLabelsGives(t, vp, s2);
    ExtendsTrans(sol, s2, r);
    SlotGrows(vp.subject, t.subject, s2, r);
    ObjectGrows(vp.obj, t, s2, r, ctx);
  }

  lemma SlotGrows(term: Term, node: NodeId, a: Solution, b: Solution)
    requires Extends(b, a)
    ensures SlotIs(term, node, a) ==> SlotIs(term, node, b)
  {}

  lemma ObjectGrows(obj: Term, t: Triple, a: Solution, b: Solution, ctx: Context)
    requires Extends(b, a)
    ensures ObjectIs(obj, t, a, ctx) ==> ObjectIs(obj, t, b, ctx)
  {}

  /** A triple passes the pushed-down pattern and extends `sol` to `r` exactly
      when `r` is the contribution of that triple. */
  lemma TripleMeaning(t: Triple, vp: VarPattern, sol: Solution, r: Solution, ctx: Context)
    requires sol.Valid() && vp.graph.InUnion?
    ensures ctx.snapshot.Matches(Substitute(vp, sol, ctx.snapshot), t) &&
            ExtendFull(t, vp, sol, ctx.bindValues) == Some(r)
       <==> Contributes(vp, Edge(Quad(DEFAULT_GRAPH, t)), sol, r, ctx)
  {
    var m := Edge(Quad(DEFAULT_GRAPH, t));
    if Contributes(vp, m, sol, r, ctx) {
      SubstituteFits(t, vp, sol, r, ctx);
      ExtendFits(t, vp, sol, r, ctx);
      SubstituteGives(t, vp, sol, ctx.snapshot);
      ExtendGives(t, vp, sol, ctx);
      ContributionIsUnique(vp, m, sol, r, ExtendFull(t, vp, sol, ctx.bindValues).value, ctx);
    } else if ctx.snapshot.Matches(Substitute(vp, sol, ctx.snapshot), t) &&
              ExtendFull(t, vp, sol, ctx.bindValues) == Some(r) {
      SubstituteGives(t, vp, sol, ctx.snapshot);
      ExtendGives(t, vp, sol, ctx);
    }
  }

  lemma ScopeFits(term: GraphTerm, g: GraphId, sol: Solution, r: Solution, snap: Snapshot)
    requires !term.InUnion? && snap.Valid() && r.Valid() && Extends(r, sol) && GraphIs(term, g, r, snap)
    ensures ScopeOf(term, sol, snap).Admits(g)
  {}

  predicate ScannedQuad(q: Quad, vp: VarPattern, sol: Solution, ctx: Context)
    requires !vp.graph.InUnion?
  {
    ScopeOf(vp.graph, sol, ctx.snapshot).Admits(q.graph) &&
    ctx.snapshot.Matches(Substitute(vp, sol, ctx.snapshot), q.triple)
  }

  lemma GraphGives(g: GraphId, term: GraphTerm, sol: Solution, snap: Snapshot, s: Solution)
    requires !term.InUnion? && snap.Valid() && s.Valid()
    requires ScopeOf(term, sol, snap).Admits(g) && BindGraph(g, term, s, snap).Some?
    ensures var r := BindGraph(g, term, s, snap).value;
            r.Valid() && Extends(r, s) && r.preds == s.preds && r.values == s.values && GraphIs(term, g, r, snap) &&
            r.nodes.Keys == s.nodes.Keys + GraphVars(term)
  {
    if term.InVar? { BindNodeGives(Var(term.name), snap.graphNodes[g], s); }
  }

  lemma QuadGives(q: Quad, vp: VarPattern, sol: Solution, ctx: Context)
    requires sol.Valid() && !vp.graph.InUnion? && ctx.snapshot.Valid()
    requires ScannedQuad(q, vp, sol, ctx) && ExtendQuad(q, vp, sol, ctx).Some?
    ensures Contributes(vp, Edge(q), sol, ExtendQuad(q, vp, sol, ctx).value, ctx)
  {
    hide ExtendFull, Substitute, ScopeOf, BindGraph;
    var t := q.triple;
    var s := ExtendFull(t, vp, sol, ctx.bindValues).value;
    var r := ExtendQuad(q, vp, sol, ctx).value;
    SubstituteGives(t, vp, sol, ctx.snapshot);
    ExtendGives(t, vp, sol, ctx);
    GraphGives(q.graph, vp.graph, sol, ctx.snapshot, s);
    ExtendsTrans(sol, s, r);
    AgreementGrows(vp, t, s, r, ctx);
    assert r.nodes.Keys == sol.nodes.Keys + NodeVars(vp, Edge(q));
  }

  lemma AgreementGrows(vp: VarPattern, t: Triple, a: Solution, b: Solution, ctx: Context)
    requires Extends(b, a) && TripleAgrees(vp, t, a, ctx)
    ensures TripleAgrees(vp, t, b, ctx)
  {
    SlotGrows(vp.subject, t.subject, a, b);
    ObjectGrows(vp.obj, t, a, b, ctx);
  }

  lemma QuadFits(q: Quad, vp: VarPattern, sol: Solution, r: Solution, ctx: Context)
    requires sol.Valid() && !vp.graph.InUnion? && ctx.snapshot.Valid()
    requires Contributes(vp, Edge(q), sol, r, ctx)
    ensures ScannedQuad(q, vp, sol, ctx) && ExtendQuad(q, vp, sol, ctx).Some?
  {
    SubstituteFits(q.triple, vp, sol, r, ctx);
    ExtendFits(q.triple, vp, sol, r, ctx);
    ScopeFits(vp.graph, q.graph, sol, r, ctx.snapshot);
    if vp.graph.InVar? {
      BindNodeFits(Var(vp.graph.name), ctx.snapshot.graphNodes[q.graph],
        ExtendFull(q.triple, vp, sol, ctx.bindValues).value, r);
    }
  }

  /** The same for a quad under a graph term: the scope derived from the
      bindings so far neither loses nor adds a match. */
  lemma QuadMeaning(q: Quad, vp: VarPattern, sol: Solution, r: Solution, ctx: Context)
    requires sol.Valid() && !vp.graph.InUnion? && ctx.snapshot.Valid()
    ensures ScannedQuad(q, vp, sol, ctx) && ExtendQuad(q, vp, sol, ctx) == Some(r)
       <==> Contributes(vp, Edge(q), sol, r, ctx)
  {
    if Contributes(vp, Edge(q), sol, r, ctx) {
      QuadFits(q, vp, sol, r, ctx);
      QuadGives(q, vp, sol, ctx);
      ContributionIsUnique(vp, Edge(q), sol, r, ExtendQuad(q, vp, sol, ctx).value, ctx);
    } else if ScannedQuad(q, vp, sol, ctx) && ExtendQuad(q, vp, sol, ctx) == Some(r) {
      QuadGives(q, vp, sol, ctx);
    }
  }

  lemma DerivedTriple(t: Triple, p: string, pairs: set<NodePair>, edgeOf: PairDraw)
    ensures t in DerivedTriples(p, pairs, edgeOf)
       <==> t.Relation? && t.pred == p && (t.subject, t.obj) in pairs && t.edge == edgeOf(t.subject, t.obj)
  {
    FilterMapMember(PairTriple(p, edgeOf), Listed(pairs), t);
    if t in DerivedTriples(p, pairs, edgeOf) {
      var pair :| pair in Listed(pairs) && PairTriple(p, edgeOf)(pair) == Some(t);
      assert pair == (pair.0, pair.1);
    }
  }

  /** The ungraphed scan returns exactly the triples this read sees that match
      the substituted pattern. */
  lemma UngraphedMember(t: Triple, vp: VarPattern, sol: Solution, ctx: Context)
    ensures var pattern := Substitute(vp, sol, ctx.snapshot);
            t in Ungraphed(pattern, ctx, Drawn(vp, sol, ctx.view)) <==>
            SeenTriple(vp, sol, t, ctx) && ctx.snapshot.Matches(pattern, t)
  {
    var pattern := Substitute(vp, sol, ctx.snapshot);
    if ReadsDerived(pattern.pred, ctx.view) {
      var p := pattern.pred.value;
      var ts := DerivedTriples(p, ctx.view.derived[p], Drawn(vp, sol, ctx.view));
      FilterMember(PairMatching(pattern), ts, t);
      DerivedTriple(t, p, ctx.view.derived[p], Drawn(vp, sol, ctx.view));
    } else {
      ctx.snapshot.EvaluateFilters(pattern);
      FilterMember(ctx.snapshot.Matching(pattern), ctx.snapshot.UnionTriples(), t);
    }
  }

  lemma UngraphedSees(vp: VarPattern, sol: Solution, r: Solution, ctx: Context)
    requires sol.Valid() && IsUngraphed(vp)
    ensures r in MatchPattern(vp, sol, ctx) <==> SeesMatch(vp, sol, r, ctx)
  {
    var pattern := Substitute(vp, sol, ctx.snapshot);
    var f, scan := Extender(vp, sol, ctx.bindValues), Ungraphed(pattern, ctx, Drawn(vp, sol, ctx.view));
    FilterMapMember(f, scan, r);
    if r in MatchPattern(vp, sol, ctx) {
      var t :| t in scan && f(t) == Some(r);
      UngraphedMember(t, vp, sol, ctx);
      TripleMeaning(t, vp, sol, r, ctx);
      assert Seen(vp, sol, Edge(Quad(DEFAULT_GRAPH, t)), ctx);
    }
    if SeesMatch(vp, sol, r, ctx) {
      var m :| Seen(vp, sol, m, ctx) && Contributes(vp, m, sol, r, ctx);
      TripleMeaning(m.quad.triple, vp, sol, r, ctx);
      UngraphedMember(m.quad.triple, vp, sol, ctx);
      assert f(m.quad.triple) == Some(r);
    }
  }

  /** Matching one pattern yields exactly the contributions of what it sees. */
  lemma MatchPatternMeaning(vp: VarPattern, sol: Solution, r: Solution, ctx: Context)
    requires sol.Valid() && ctx.snapshot.Valid() && vp.maxHops.None?
    ensures r in MatchPattern(vp, sol, ctx) <==> SeesMatch(vp, sol, r, ctx)
  {
    var pattern := Substitute(vp, sol, ctx.snapshot);
    if vp.graph.InUnion? {
      UngraphedSees(vp, sol, r, ctx);
    } else {
      var f := QuadExtender(vp, sol, ctx);
      var scope := ScopeOf(vp.graph, sol, ctx.snapshot);
      var scan := ctx.snapshot.ScanScoped(pattern, scope);
      FilterMapMember(f, scan, r);
      if r in MatchPattern(vp, sol, ctx) {
        var q :| q in scan && f(q) == Some(r);
        FilterMember(ctx.snapshot.InScope(pattern, scope), ctx.snapshot.quads, q);
        QuadMeaning(q, vp, sol, r, ctx);
        assert Seen(vp, sol, Edge(q), ctx);
      }
      if SeesMatch(vp, sol, r, ctx) {
        var m :| Seen(vp, sol, m, ctx) && Contributes(vp, m, sol, r, ctx);
        QuadMeaning(m.quad, vp, sol, r, ctx);
        FilterMember(ctx.snapshot.InScope(pattern, scope), ctx.snapshot.quads, m.quad);
        assert f(m.quad) == Some(r);
      }
    }
  }

  // ── Meaning without reference to the partial solution ────────────────────

  ghost predicate HasMatch(vp: VarPattern, sol: Solution, r: Solution, ctx: Context) {
    exists m :: Visible(vp, m, ctx) && Contributes(vp, m, sol, r, ctx)
  }

  /** The match as this read sees it: a derived triple carries the id drawn. */
  function Redrawn(vp: VarPattern, sol: Solution, m: Match, ctx: Context): Match {
    if m.Edge? && NamesDerived(vp, ctx) && m.quad.triple.Relation? then
      var t := m.quad.triple;
      Edge(m.quad.(triple := t.(edge := ctx.view.edgeOf(vp, sol, t.subject, t.obj))))
    else m
  }

  /** With no edge variable the id drawn is never looked at. */
  lemma EdgeUnseen(vp: VarPattern, m: Match, sol: Solution, r: Solution, ctx: Context)
    requires EdgeFree(vp, ctx)
    ensures Contributes(vp, Redrawn(vp, sol, m, ctx), sol, r, ctx) <==> Contributes(vp, m, sol, r, ctx)
  {
    var m' := Redrawn(vp, sol, m, ctx);
    assert Agrees(vp, m', r, ctx) == Agrees(vp, m, r, ctx);
    assert NodeVars(vp, m') == NodeVars(vp, m);
  }

  lemma SeenIsVisible(vp: VarPattern, sol: Solution, m: Match, ctx: Context)
    requires SteadyRead(vp, sol, ctx)
    ensures Seen(vp, sol, m, ctx) ==> Visible(vp, m, ctx)
    ensures Visible(vp, m, ctx) ==> Seen(vp, sol, Redrawn(vp, sol, m, ctx), ctx)
  {}

  lemma SeesWhatMatches(vp: VarPattern, sol: Solution, r: Solution, ctx: Context)
    requires SteadyRead(vp, sol, ctx)
    ensures SeesMatch(vp, sol, r, ctx) ==> HasMatch(vp, sol, r, ctx)
    ensures EdgeFree(vp, ctx) && HasMatch(vp, sol, r, ctx) ==> SeesMatch(vp, sol, r, ctx)
  {
    if SeesMatch(vp, sol, r, ctx) {
      var m :| Seen(vp, sol, m, ctx) && Contributes(vp, m, sol, r, ctx);
      SeenIsVisible(vp, sol, m, ctx);
    }
    if EdgeFree(vp, ctx) && HasMatch(vp, sol, r, ctx) {
      var m :| Visible(vp, m, ctx) && Contributes(vp, m, sol, r, ctx);
      SeenIsVisible(vp, sol, m, ctx);
      EdgeUnseen(vp, m, sol, r, ctx);
    }
  }

  // ── Bounded walks ────────────────────────────────────────────────────────

  lemma {:induction false} ReachNeedsEdge(snap: Snapshot, p: string, start: NodeId, hops: nat, target: NodeId)
    requires target in ReachWithin(snap, p, start, hops)
    ensures exists t :: t in snap.UnionTriples() && t.Relation? && t.pred == p && t.subject == start
  {
    NeighboursMember(snap.UnionTriples(), p, {start} + ReachWithin(snap, p, start, hops - 1), target);
    var t :| t in snap.UnionTriples() && t.Relation? && t.pred == p &&
             t.subject in {start} + ReachWithin(snap, p, start, hops - 1) && t.obj == target;
    if t.subject != start {
      ReachNeedsEdge(snap, p, start, hops - 1, t.subject);
    }
  }

  lemma {:induction false} DistinctSubjectsMember(ts: seq<Triple>, seen: set<NodeId>, s: NodeId)
    ensures s in DistinctSubjects(ts, seen) <==> s !in seen && exists t :: t in ts && t.Relation? && t.subject == s
  {
    if ts != [] {
      var seen' := if ts[0].Relation? then seen + {ts[0].subject} else seen;
      assert ts[0].Relation? && ts[0].subject in seen ==> seen' == seen;
      DistinctSubjectsMember(ts[1..], seen', s);
      assert forall t :: t in ts <==> t == ts[0] || t in ts[1..];
    }
  }

  /** Starting nodes under unbound subjects are exactly those with an edge. */
  lemma StartsMember(vp: VarPattern, sol: Solution, snap: Snapshot, s: NodeId)
    requires vp.pred.Some? && ResolveTerm(vp.subject, sol, snap).None?
    ensures s in Starts(vp, sol, snap)
       <==> exists t :: t in snap.UnionTriples() && t.Relation? && t.pred == vp.pred.value && t.subject == s
  {
    var p := vp.pred.value;
    DistinctSubjectsMember(snap.ScanByPredicate(p), {}, s);
    forall t ensures t in snap.ScanByPredicate(p) <==> t in snap.UnionTriples() && t.pred == p {
      FilterMember(snap.ByPredicate(p), snap.UnionTriples(), t);
    }
  }

  lemma TargetGives(vp: VarPattern, base: Solution, target: NodeId)
    requires base.Valid() && BindTarget(vp, base, target).Some?
    ensures var r := BindTarget(vp, base, target).value;
            r.Valid() && Extends(r, base) && r.preds == base.preds && r.values == base.values &&
            SlotIs(vp.obj, target, r) &&
            r.nodes.Keys == base.nodes.Keys + TermVars(vp.obj)
  {
    if !vp.obj.Bound? { BindNodeGives(vp.obj, target, base); }
  }

  lemma PathFits(vp: VarPattern, sol: Solution, start: NodeId, target: NodeId, r: Solution, ctx: Context)
    requires sol.Valid() && Contributes(vp, Path(start, target), sol, r, ctx)
    ensures BindNode(vp.subject, start, sol).Some? &&
            BindTarget(vp, BindNode(vp.subject, start, sol).value, target).Some?
  {
    BindNodeFits(vp.subject, start, sol, r);
    if !vp.obj.Bound? { BindNodeFits(vp.obj, target, BindNode(vp.subject, start, sol).value, r); }
  }

  lemma PathGives(vp: VarPattern, sol: Solution, start: NodeId, target: NodeId, ctx: Context)
    requires sol.Valid() && (vp.subject.Bound? ==> vp.subject.id == start)
    requires BindNode(vp.subject, start, sol).Some? &&
             BindTarget(vp, BindNode(vp.subject, start, sol).value, target).Some?
    ensures Contributes(vp, Path(start, target), sol,
              BindTarget(vp, BindNode(vp.subject, start, sol).value, target).value, ctx)
  {
    BindNodeGives(vp.subject, start, sol);
    var base := BindNode(vp.subject, start, sol).value;
    TargetGives(vp, base, target);
    var r := BindTarget(vp, base, target).value;
    ExtendsTrans(sol, base, r);
    SlotGrows(vp.subject, start, base, r);
  }

  lemma PathMeaning(vp: VarPattern, sol: Solution, start: NodeId, target: NodeId, r: Solution, ctx: Context)
    requires sol.Valid() && (vp.subject.Bound? ==> vp.subject.id == start)
    ensures BindNode(vp.subject, start, sol).Some? &&
            BindTarget(vp, BindNode(vp.subject, start, sol).value, target) == Some(r)
       <==> Contributes(vp, Path(start, target), sol, r, ctx)
  {
    if Contributes(vp, Path(start, target), sol, r, ctx) {
      PathFits(vp, sol, start, target, r, ctx);
      PathGives(vp, sol, start, target, ctx);
      ContributionIsUnique(vp, Path(start, target), sol, r,
        BindTarget(vp, BindNode(vp.subject, start, sol).value, target).value, ctx);
    } else if BindNode(vp.subject, start, sol).Some? &&
              BindTarget(vp, BindNode(vp.subject, start, sol).value, target).Some? {
      PathGives(vp, sol, start, target, ctx);
    }
  }

  lemma HopsFromMeaning(vp: VarPattern, sol: Solution, start: NodeId, r: Solution, ctx: Context)
    requires sol.Valid() && vp.maxHops.Some? && vp.pred.Some? && (vp.subject.Bound? ==> vp.subject.id == start)
    ensures r in HopsFrom(vp, sol, ctx.snapshot, start)
       <==> exists target :: Visible(vp, Path(start, target), ctx) && Contributes(vp, Path(start, target), sol, r, ctx)
  {
    var reach := ReachWithin(ctx.snapshot, vp.pred.value, start, vp.maxHops.value);
    forall target ensures (BindNode(vp.subject, start, sol).Some? &&
                           BindTarget(vp, BindNode(vp.subject, start, sol).value, target) == Some(r))
                     <==> Contributes(vp, Path(start, target), sol, r, ctx) {
      PathMeaning(vp, sol, start, target, r, ctx);
    }
    if BindNode(vp.subject, start, sol).Some? {
      var base := BindNode(vp.subject, start, sol).value;
      FilterMapMember(TargetBinder(vp, base), Listed(reach), r);
      assert forall target :: TargetBinder(vp, base)(target) == BindTarget(vp, base, target);
      assert forall target :: target in Listed(reach) <==> Visible(vp, Path(start, target), ctx);
    }
  }

  lemma HopPatternGives(vp: VarPattern, sol: Solution, r: Solution, ctx: Context)
    requires sol.Valid() && vp.maxHops.Some? && r in HopPattern(vp, sol, ctx.snapshot)
    ensures HasMatch(vp, sol, r, ctx)
  {
    hide HopsFrom, Visible, Contributes;
    var f := Hopper(vp, sol, ctx.snapshot);
    var starts := Starts(vp, sol, ctx.snapshot);
    FlatMapMember(f, starts, r);
    var s :| s in starts && r in f(s);
    HopsFromMeaning(vp, sol, s, r, ctx);
  }

  lemma HopPatternFits(vp: VarPattern, sol: Solution, m: Match, r: Solution, ctx: Context)
    requires sol.Valid() && vp.maxHops.Some? && Visible(vp, m, ctx) && Contributes(vp, m, sol, r, ctx)
    requires !(vp.subject.Var? && vp.subject.name in sol.values)
    ensures r in HopPattern(vp, sol, ctx.snapshot)
  {
    var f := Hopper(vp, sol, ctx.snapshot);
    if ResolveTerm(vp.subject, sol, ctx.snapshot).None? {
      ReachNeedsEdge(ctx.snapshot, vp.pred.value, m.start, vp.maxHops.value, m.target);
      StartsMember(vp, sol, ctx.snapshot, m.start);
    }
    HopsFromMeaning(vp, sol, m.start, r, ctx);
    assert r in f(m.start);
    FlatMapMember(f, Starts(vp, sol, ctx.snapshot), r);
  }

  lemma HopPatternMeaning(vp: VarPattern, sol: Solution, r: Solution, ctx: Context)
    requires sol.Valid() && vp.maxHops.Some?
    ensures r in HopPattern(vp, sol, ctx.snapshot) <==> HasMatch(vp, sol, r, ctx)
  {
    if r in HopPattern(vp, sol, ctx.snapshot) { HopPatternGives(vp, sol, r, ctx); }
    if HasMatch(vp, sol, r, ctx) && !(vp.subject.Var? && vp.subject.name in sol.values) {
      var m :| Visible(vp, m, ctx) && Contributes(vp, m, sol, r, ctx);
      HopPatternFits(vp, sol, m, r, ctx);
    }
  }

  /** Pushing the bindings so far into the scan loses and adds nothing: one step
      yields exactly the contributions of the matches it sees. */
  lemma StepSees(vp: VarPattern, sol: Solution, r: Solution, ctx: Context)
    requires sol.Valid() && ctx.snapshot.Valid()
    ensures r in Step(vp, sol, ctx) <==> SeesMatch(vp, sol, r, ctx)
  {
    if vp.maxHops.Some? {
      HopPatternMeaning(vp, sol, r, ctx);
      if m :| Visible(vp, m, ctx) && Contributes(vp, m, sol, r, ctx) { assert Seen(vp, sol, m, ctx); }
    } else {
      MatchPatternMeaning(vp, sol, r, ctx);
    }
  }

  /** For a steady pattern what is seen does not depend on the partial solution. */
  lemma StepMeaning(vp: VarPattern, sol: Solution, r: Solution, ctx: Context)
    requires sol.Valid() && ctx.snapshot.Valid() && Steady(vp, sol, ctx)
    ensures r in Step(vp, sol, ctx) <==> HasMatch(vp, sol, r, ctx)
  {
    StepSees(vp, sol, r, ctx);
    SeesWhatMatches(vp, sol, r, ctx);
  }

  /** A query of one pattern is one step. */
  lemma SolveOne(vp: VarPattern, sol: Solution, ctx: Context)
    ensures Solve([vp], [sol], ctx) == Step(vp, sol, ctx)
  {
    FlatMapOne(Stepper(vp, ctx), sol);
    assert [vp][1..] == [];
  }
}
