/** How far graph scoping (`scope_to_graph`, crates/polargraph-query/src/datalog.rs)
    is restriction to the named graphs: several graphs at once, and exactly which
    programs and stores it holds for. */
module ScopingLimits {
  import opened Sequences
  import opened Store
  import opened Datalog
  import opened Semantics
  import opened Joins
  import opened PatternOrder
  import opened Rules
  import opened Yielding
  import opened Scoping

  // ── Several graphs ───────────────────────────────────────────────────────

  /** A scan of several graphs returns a triple once for every copy of it. */
  lemma StoredStepHolds(vp: VarPattern, graph: GraphTerm, sol: Solution, ctx: Context, ctx': Context, c: Solution)
    requires IsUngraphed(vp) && NamesGraphs(graph) && !ReadsDerived(Substitute(vp, sol, ctx'.snapshot).pred, ctx'.view)
    requires ctx'.snapshot == Cut(ctx.snapshot, graph) && ctx'.bindValues == ctx.bindValues &&
             CopiesAgree(ctx'.snapshot)
    ensures c in Step(vp.(graph := graph), sol, ctx) <==> c in Step(vp, sol, ctx')
  {
    var vp', gs := vp.(graph := graph), GraphsOf(graph, ctx.snapshot);
    var f, h := TripleHit(vp, sol, ctx'), QuadHit(vp', sol, ctx);
    StoredStep(vp, sol, ctx');
    GraphedStep(vp', sol, ctx);
    FilterMapMember(f, ctx'.snapshot.UnionTriples(), c);
    FilterMapMember(h, ctx.snapshot.quads, c);
    if t :| t in ctx'.snapshot.UnionTriples() && f(t) == Some(c) {
      CutUnionHolds(ctx.snapshot, gs, t);
      var g :| g in gs && Quad(g, t) in ctx.snapshot.quads;
      ScopedHit(vp, graph, sol, ctx, ctx', Quad(g, t));
    }
    if q :| q in ctx.snapshot.quads && h(q) == Some(c) {
      ScopedHit(vp, graph, sol, ctx, ctx', q);
      assert q == Quad(q.graph, q.triple);
      CutUnionHolds(ctx.snapshot, gs, q.triple);
    }
  }

  lemma StepHolds(vp: VarPattern, graph: GraphTerm, sol: Solution, ctx: Context, ctx': Context, c: Solution)
    requires IsUngraphed(vp) && NamesGraphs(graph) && ctx.view.Hybrid? && ctx'.view == ctx.view &&
             SteadyRead(vp, sol, ctx')
    requires ctx'.snapshot == Cut(ctx.snapshot, graph) && ctx'.bindValues == ctx.bindValues &&
             CopiesAgree(ctx'.snapshot)
    ensures c in Step(ScopePattern(vp, ctx.view.derived.Keys, graph), sol, ctx) <==> c in Step(vp, sol, ctx')
  {
    if ReadsDerived(vp.pred, ctx.view) {
      DerivedStepScopes(vp, sol, ctx, ctx');
    } else {
      StoredStepHolds(vp, graph, sol, ctx, ctx', c);
    }
  }

  lemma StepsHold(ps: seq<VarPattern>, graph: GraphTerm, sols: seq<Solution>, sols': seq<Solution>, ctx: Context,
      ctx': Context, c: Solution)
    requires ps != [] && AllUngraphed(ps) && NamesGraphs(graph) && ctx.view.Hybrid? && ctx'.view == ctx.view
    requires ctx'.snapshot == Cut(ctx.snapshot, graph) && ctx'.bindValues == ctx.bindValues &&
             CopiesAgree(ctx'.snapshot)
    requires forall s :: s in sols <==> s in sols'
    requires forall s :: s in sols ==> Free(ps, s, ctx')
    ensures c in FlatMap(Stepper(ScopePattern(ps[0], ctx.view.derived.Keys, graph), ctx), sols)
       <==> c in FlatMap(Stepper(ps[0], ctx'), sols')
  {
    var f, f' := Stepper(ScopePattern(ps[0], ctx.view.derived.Keys, graph), ctx), Stepper(ps[0], ctx');
    FlatMapMember(f, sols, c);
    FlatMapMember(f', sols', c);
    forall s | s in sols ensures c in f(s) <==> c in f'(s) {
      TameIsSteady(ps, s, ctx');
      StepHolds(ps[0], graph, s, ctx, ctx', c);
    }
  }

  lemma {:induction false} SolveHolds(ps: seq<VarPattern>, graph: GraphTerm, sols: seq<Solution>, sols': seq<Solution>,
      ctx: Context, ctx': Context, r: Solution)
    requires AllUngraphed(ps) && NamesGraphs(graph) && ctx.view.Hybrid? && ctx'.view == ctx.view &&
             ctx'.snapshot.Valid()
    requires ctx'.snapshot == Cut(ctx.snapshot, graph) && ctx'.bindValues == ctx.bindValues &&
             CopiesAgree(ctx'.snapshot)
    requires forall s :: s in sols <==> s in sols'
    requires forall s :: s in sols ==> s.Valid() && Free(ps, s, ctx')
    ensures r in Solve(ScopeBody(ps, ctx.view.derived.Keys, graph), sols, ctx) <==> r in Solve(ps, sols', ctx')
    decreases |ps|
  {
    if ps != [] {
      var vp' := ScopePattern(ps[0], ctx.view.derived.Keys, graph);
      var next, next' := FlatMap(Stepper(vp', ctx), sols), FlatMap(Stepper(ps[0], ctx'), sols');
      forall c ensures c in next <==> c in next' { StepsHold(ps, graph, sols, sols', ctx, ctx', c); }
      forall c | c in next' ensures c.Valid() && Free(ps[1..], c, ctx') { StepsStayFree(ps, sols', c, ctx'); }
      SolveHolds(ps[1..], graph, next, next', ctx, ctx', r);
      ScopeBodyPeels(ps, ctx.view.derived.Keys, graph);
    }
  }

  /** The scoped query and the plain one on the named graphs alone return the same
      rows, each as often as the scans happen to repeat it. */
  ghost predicate SameScopedAnswers(prog: Program, ps: seq<VarPattern>, graph: GraphTerm, snap: Snapshot,
      d: DerivedFacts, e: EdgeDraw, bindValues: bool)
    requires NamesGraphs(graph)
  {
    forall r :: r in Solve(ScopeBody(ps, Heads(prog), graph), [EMPTY], Context(snap, Hybrid(d, e), bindValues))
           <==> r in Solve(ps, [EMPTY], Context(Cut(snap, graph), Hybrid(d, e), bindValues))
  }

  /** Scoping to several graphs restricts to them as well, up to repeated rows, as
      long as copies of a triple in different graphs agree. */
  lemma ScopingToSeveralGraphs(prog: Program, ps: seq<VarPattern>, graph: GraphTerm, snap: Snapshot, d: DerivedFacts,
      e: EdgeDraw, bindValues: bool)
    requires ScopableProgram(prog) && Scopable(ps, prog) && NamesGraphs(graph) && snap.Valid() &&
             CopiesAgree(Cut(snap, graph))
    requires LoosePredicates(ps, Derived(prog), Cut(snap, graph))
    ensures IsLeastModel(ScopeProgram(prog, graph), snap, d) <==> IsLeastModel(prog, Cut(snap, graph), d)
    ensures IsLeastModel(ScopeProgram(prog, graph), snap, d) ==>
              SameScopedAnswers(prog, ps, graph, snap, d, e, bindValues)
  {
    LeastModelsScope(prog, graph, snap, d);
    if IsLeastModel(ScopeProgram(prog, graph), snap, d) {
      ScopedHeads(prog, graph);
      AnswersHold(prog, ps, graph, snap, d, e, bindValues);
    }
  }

  lemma AnswersHold(prog: Program, ps: seq<VarPattern>, graph: GraphTerm, snap: Snapshot, d: DerivedFacts, e: EdgeDraw,
      bindValues: bool)
    requires Scopable(ps, prog) && NamesGraphs(graph) && snap.Valid() && CopiesAgree(Cut(snap, graph))
    requires LoosePredicates(ps, Derived(prog), Cut(snap, graph)) && d.Keys == Derived(prog)
    ensures SameScopedAnswers(prog, ps, graph, snap, d, e, bindValues)
  {
    var ctx, ctx' := Context(snap, Hybrid(d, e), bindValues), Context(Cut(snap, graph), Hybrid(d, e), bindValues);
    CutStaysValid(snap, GraphsOf(graph, snap));
    ScopesDerived(ps, prog, graph);
    LooseIsFree(ps, Derived(prog), Cut(snap, graph), d, e, bindValues);
    forall r ensures r in Solve(ScopeBody(ps, d.Keys, graph), [EMPTY], ctx) <==> r in Solve(ps, [EMPTY], ctx') {
      SolveHolds(ps, graph, [EMPTY], [EMPTY], ctx, ctx', r);
    }
  }

  // ── Copies that disagree ─────────────────────────────────────────────────

  /** Asks for one stored triple: its edge, or its value. */
  function CopyPattern(t: Triple): VarPattern {
    VarPattern(Bound(t.subject), None, Some("p"), if t.Relation? then Bound(t.obj) else Literal(t.value), Some("e"),
      None, InUnion)
  }

  function CopyRow(t: Triple): Solution {
    Solution(if t.Relation? then map["e" := t.edge] else map[], map["p" := t.pred], map[])
  }

  // Rows of one and of two patterns.

  lemma RowFrom(vp: VarPattern, m: Match, sol: Solution, r: Solution, ctx: Context)
    requires sol.Valid() && ctx.snapshot.Valid() && Seen(vp, sol, m, ctx) && Contributes(vp, m, sol, r, ctx)
    ensures r in Solve([vp], [sol], ctx)
  {
    SolveOne(vp, sol, ctx);
    StepSees(vp, sol, r, ctx);
  }

  lemma RowOf(vp: VarPattern, sol: Solution, r: Solution, ctx: Context) returns (m: Match)
    requires sol.Valid() && ctx.snapshot.Valid() && r in Solve([vp], [sol], ctx)
    ensures Seen(vp, sol, m, ctx) && Contributes(vp, m, sol, r, ctx)
  {
    SolveOne(vp, sol, ctx);
    StepSees(vp, sol, r, ctx);
    m :| Seen(vp, sol, m, ctx) && Contributes(vp, m, sol, r, ctx);
  }

  lemma RowsFrom(a: VarPattern, b: VarPattern, c: Solution, r: Solution, ctx: Context)
    requires c in Solve([a], [EMPTY], ctx) && r in Solve([b], [c], ctx)
    ensures r in Solve([a, b], [EMPTY], ctx)
  {
    SolveOne(a, EMPTY, ctx);
    assert [a, b][1..] == [b];
    SolveFrom([a, b], EMPTY, c, r, ctx);
  }

  lemma RowsOf(a: VarPattern, b: VarPattern, r: Solution, ctx: Context) returns (c: Solution)
    requires r in Solve([a, b], [EMPTY], ctx)
    ensures c in Solve([a], [EMPTY], ctx) && r in Solve([b], [c], ctx)
  {
    c := SolveSplits([a, b], EMPTY, r, ctx);
    SolveOne(a, EMPTY, ctx);
    assert [a, b][1..] == [b];
  }

  lemma CopyContributes(graph: GraphTerm, q: Quad, ctx: Context)
    requires NamesGraphs(graph) && q.graph in GraphsOf(graph, ctx.snapshot)
    ensures Contributes(CopyPattern(q.triple).(graph := graph), Edge(q), EMPTY, CopyRow(q.triple), ctx)
  {}

  lemma ScopedCopy(prog: Program, graph: GraphTerm, q: Quad, ctx: Context)
    requires NamesGraphs(graph) && ctx.snapshot.Valid() && q in ctx.snapshot.quads &&
             q.graph in GraphsOf(graph, ctx.snapshot)
    ensures CopyRow(q.triple) in Solve(ScopeBody([CopyPattern(q.triple)], Heads(prog), graph), [EMPTY], ctx)
  {
    var vp' := CopyPattern(q.triple).(graph := graph);
    assert ScopeBody([CopyPattern(q.triple)], Heads(prog), graph) == [vp'];
    CopyContributes(graph, q, ctx);
    RowFrom(vp', Edge(q), EMPTY, CopyRow(q.triple), ctx);
  }

  lemma CopyIsTold(t: Triple, m: Match, ctx: Context)
    requires Contributes(CopyPattern(t), m, EMPTY, CopyRow(t), ctx) && m.Edge?
    ensures m.quad.triple == t
  {
    assert "e" in OptVars(CopyPattern(t).edgeVar);
    assert m.quad.triple.Relation? <==> "e" in CopyRow(t).nodes.Keys;
  }

  lemma PlainCopy(t: Triple, ctx: Context)
    requires ctx.snapshot.Valid() && CopyRow(t) in Solve([CopyPattern(t)], [EMPTY], ctx)
    ensures t in ctx.snapshot.UnionTriples()
  {
    var m := RowOf(CopyPattern(t), EMPTY, CopyRow(t), ctx);
    CopyIsTold(t, m, ctx);
  }

  lemma UnionShowsOne(snap: Snapshot, t: Triple, u: Triple)
    requires snap.DistinctKeys(snap.quads) && t in snap.UnionTriples() && u in snap.UnionTriples() && snap.SameSpo(t, u)
    ensures t == u
  {
    var ts := snap.UnionTriples();
    var i :| 0 <= i < |ts| && ts[i] == t;
    var j :| 0 <= j < |ts| && ts[j] == u;
    if i < j { snap.UnionOnce(i, j); }
    if j < i { snap.UnionOnce(j, i); }
  }

  /** Of two copies that differ the union shows at most one. */
  lemma HiddenCopy(cut: Snapshot) returns (q: Quad)
    requires cut.Valid() && !CopiesAgree(cut)
    ensures q in cut.quads && q.triple !in cut.UnionTriples()
  {
    var i, j :| 0 <= i < |cut.quads| && 0 <= j < |cut.quads| && cut.SameSpo(cut.quads[i].triple, cut.quads[j].triple) &&
                cut.quads[i].triple != cut.quads[j].triple;
    q := cut.quads[i];
    if q.triple in cut.UnionTriples() {
      q := cut.quads[j];
      if q.triple in cut.UnionTriples() { UnionShowsOne(cut, cut.quads[i].triple, q.triple); }
    }
  }

  predicate Fit(ps: seq<VarPattern>, prog: Program, snap: Snapshot) {
    Scopable(ps, prog) && LoosePredicates(ps, Derived(prog), snap)
  }

  /** ... and only then: copies that disagree are told apart by some query. */
  lemma SeveralGraphsExact(prog: Program, graph: GraphTerm, snap: Snapshot, d: DerivedFacts, e: EdgeDraw,
      bindValues: bool)
    requires NamesGraphs(graph) && snap.Valid() && d.Keys == Derived(prog)
    ensures CopiesAgree(Cut(snap, graph)) <==>
            forall ps :: Fit(ps, prog, Cut(snap, graph)) ==> SameScopedAnswers(prog, ps, graph, snap, d, e, bindValues)
  {
    if CopiesAgree(Cut(snap, graph)) {
      forall ps | Fit(ps, prog, Cut(snap, graph)) ensures SameScopedAnswers(prog, ps, graph, snap, d, e, bindValues) {
        AnswersHold(prog, ps, graph, snap, d, e, bindValues);
      }
    } else {
      var ps := CopiesTold(prog, graph, snap, d, e, bindValues);
    }
  }

  lemma CopiesTold(prog: Program, graph: GraphTerm, snap: Snapshot, d: DerivedFacts, e: EdgeDraw, bindValues: bool)
      returns (ps: seq<VarPattern>)
    requires NamesGraphs(graph) && snap.Valid() && !CopiesAgree(Cut(snap, graph))
    ensures Fit(ps, prog, Cut(snap, graph)) && !SameScopedAnswers(prog, ps, graph, snap, d, e, bindValues)
  {
    CutStaysValid(snap, GraphsOf(graph, snap));
    var q := HiddenCopy(Cut(snap, graph));
    ps := [CopyPattern(q.triple)];
    CopyFits(q.triple, prog, Cut(snap, graph));
    HiddenCopyTold(prog, graph, snap, d, e, bindValues, q);
  }

  lemma CopyFits(t: Triple, prog: Program, snap: Snapshot)
    ensures Fit([CopyPattern(t)], prog, snap)
  {}

  lemma HiddenCopyTold(prog: Program, graph: GraphTerm, snap: Snapshot, d: DerivedFacts, e: EdgeDraw, bindValues: bool,
      q: Quad)
    requires NamesGraphs(graph) && snap.Valid() && Cut(snap, graph).Valid()
    requires q in Cut(snap, graph).quads && q.triple !in Cut(snap, graph).UnionTriples()
    ensures !SameScopedAnswers(prog, [CopyPattern(q.triple)], graph, snap, d, e, bindValues)
  {
    CutMember(snap, GraphsOf(graph, snap), q);
    ScopedCopy(prog, graph, q, Context(snap, Hybrid(d, e), bindValues));
    if CopyRow(q.triple) in Solve([CopyPattern(q.triple)], [EMPTY],
         Context(Cut(snap, graph), Hybrid(d, e), bindValues)) {
      PlainCopy(q.triple, Context(Cut(snap, graph), Hybrid(d, e), bindValues));
    }
  }

  // ── Predicates that are seeded only, or stored as well ───────────────────

  /** Every read draws `id`. */
  function Always(id: EdgeId): EdgeDraw { (vp: VarPattern, sol: Solution, s: NodeId, o: NodeId) => id }

  function PairPattern(p: string): VarPattern {
    VarPattern(Var("x"), Some(p), None, Var("y"), Some("e"), None, InUnion)
  }

  function PairRow(s: NodeId, o: NodeId, id: EdgeId): Solution {
    Solution(map["x" := s, "y" := o, "e" := id], map[], map[])
  }

  lemma PairContributes(s: NodeId, p: string, o: NodeId, id: EdgeId, ctx: Context)
    ensures Contributes(PairPattern(p), Edge(Quad(DEFAULT_GRAPH, Relation(s, p, o, id))), EMPTY, PairRow(s, o, id), ctx)
  {
    assert NodeVars(PairPattern(p), Edge(Quad(DEFAULT_GRAPH, Relation(s, p, o, id)))) == {"x", "y", "e"};
  }

  lemma FactIsFound(s: NodeId, p: string, o: NodeId, id: EdgeId, ctx: Context)
    requires ctx.snapshot.Valid() && ctx.view.Hybrid? && (s, o) in Lookup(ctx.view.derived, p) &&
             ctx.view.edgeOf == Always(id)
    ensures PairRow(s, o, id) in Solve([PairPattern(p)], [EMPTY], ctx)
  {
    PairContributes(s, p, o, id, ctx);
    RowFrom(PairPattern(p), Edge(Quad(DEFAULT_GRAPH, Relation(s, p, o, id))), EMPTY, PairRow(s, o, id), ctx);
  }

  /** A pattern scoped to graphs never binds its edge variable to an unused id. */
  lemma StoredEdgeOnly(vp: VarPattern, row: Solution, ctx: Context, id: EdgeId)
    requires !vp.graph.InUnion? && vp.maxHops.None? && vp.edgeVar == Some("e") && ctx.snapshot.Valid()
    requires "e" !in TermVars(vp.subject) + TermVars(vp.obj) + GraphVars(vp.graph)
    requires row in Solve([vp], [EMPTY], ctx) && id !in StoreNodes(ctx.snapshot)
    ensures !("e" in row.nodes && row.nodes["e"] == id)
  {
    var m := RowOf(vp, EMPTY, row, ctx);
    QuadNodesMember(ctx.snapshot.quads, m.quad);
    if "e" in row.nodes { assert m.quad.triple.Relation?; }
  }

  /** A seeded predicate that heads no rule is scoped away from its own facts. */
  lemma SeedOnlyIsLost(prog: Program, k: nat, graph: GraphTerm, snap: Snapshot, d: DerivedFacts, id: EdgeId,
      bindValues: bool)
    requires k < |prog.seeds| && prog.seeds[k].pred !in Heads(prog) && HoldsSeeds(prog, d)
    requires NamesOneGraph(graph) && snap.Valid() && id !in StoreNodes(snap)
    ensures !SameScopedRows(prog, [PairPattern(prog.seeds[k].pred)], graph, snap, d, Always(id), bindValues)
  {
    var seed, vp := prog.seeds[k], PairPattern(prog.seeds[k].pred);
    var row := PairRow(seed.subject, seed.obj, id);
    CutStaysValid(snap, GraphsOf(graph, snap));
    FactIsFound(seed.subject, seed.pred, seed.obj, id, Context(Cut(snap, graph), Hybrid(d, Always(id)), bindValues));
    ScopedPairsStored(vp, Heads(prog), graph, row, Context(snap, Hybrid(d, Always(id)), bindValues), id);
    RowsDiffer(prog, [vp], graph, snap, d, Always(id), bindValues, row);
  }

  lemma ScopedPairsStored(vp: VarPattern, heads: set<string>, graph: GraphTerm, row: Solution, ctx: Context, id: EdgeId)
    requires vp.pred.Some? && vp == PairPattern(vp.pred.value) && vp.pred.value !in heads && NamesGraphs(graph)
    requires ctx.snapshot.Valid() && id !in StoreNodes(ctx.snapshot) && "e" in row.nodes && row.nodes["e"] == id
    ensures row !in Solve(ScopeBody([vp], heads, graph), [EMPTY], ctx)
  {
    ScopedOne(vp, heads, graph);
    if row in Solve([vp.(graph := graph)], [EMPTY], ctx) { StoredEdgeOnly(vp.(graph := graph), row, ctx, id); }
  }

  lemma ScopedOne(vp: VarPattern, derived: set<string>, graph: GraphTerm)
    requires vp.graph.InUnion? && !(vp.pred.Some? && vp.pred.value in derived)
    ensures ScopeBody([vp], derived, graph) == [vp.(graph := graph)]
  {}

  const ANY_PREDICATE := VarPattern(Any, None, Some("v"), Any, None, None, InUnion)
  const SAME_PREDICATE := VarPattern(Any, None, Some("v"), Any, Some("e"), None, InUnion)

  function BoundPredicate(p: string): Solution { Solution(map[], map["v" := p], map[]) }

  function EdgeRow(t: Triple): Solution {
    Solution(if t.Relation? then map["e" := t.edge] else map[], map["v" := t.pred], map[])
  }

  /** With a derived name stored in the graph, a predicate variable bound there
      makes the plain query read derived facts and the scoped one the store. */
  lemma StoredNameIsMistaken(prog: Program, p: string, graph: GraphTerm, snap: Snapshot, d: DerivedFacts, id: EdgeId,
      bindValues: bool)
    requires NamesOneGraph(graph) && snap.Valid() && p in d && Cut(snap, graph).Stored(p) && id !in StoreNodes(snap)
    ensures !SameScopedRows(prog, [ANY_PREDICATE, SAME_PREDICATE], graph, snap, d, Always(id), bindValues)
  {
    var cut, ps := Cut(snap, graph), [ANY_PREDICATE, SAME_PREDICATE];
    var i :| 0 <= i < |cut.quads| && cut.quads[i].triple.pred == p;
    var q := cut.quads[i];
    CutMember(snap, GraphsOf(graph, snap), q);
    CutStaysValid(snap, GraphsOf(graph, snap));
    StoredPairRow(prog, q, graph, Context(snap, Hybrid(d, Always(id)), bindValues));
    if EdgeRow(q.triple) in Solve(ps, [EMPTY], Context(cut, Hybrid(d, Always(id)), bindValues)) {
      DerivedPairRow(p, EdgeRow(q.triple), Context(cut, Hybrid(d, Always(id)), bindValues), id);
      QuadNodesMember(snap.quads, q);
    }
    RowsDiffer(prog, ps, graph, snap, d, Always(id), bindValues, EdgeRow(q.triple));
  }

  lemma StoredContributes(graph: GraphTerm, q: Quad, ctx: Context)
    requires NamesGraphs(graph) && q.graph in GraphsOf(graph, ctx.snapshot)
    ensures Contributes(ANY_PREDICATE.(graph := graph), Edge(q), EMPTY, BoundPredicate(q.triple.pred), ctx)
    ensures Contributes(SAME_PREDICATE.(graph := graph), Edge(q), BoundPredicate(q.triple.pred), EdgeRow(q.triple), ctx)
  {}

  lemma StoredPairRow(prog: Program, q: Quad, graph: GraphTerm, ctx: Context)
    requires NamesGraphs(graph) && ctx.snapshot.Valid() && q in ctx.snapshot.quads &&
             q.graph in GraphsOf(graph, ctx.snapshot)
    ensures EdgeRow(q.triple) in Solve(ScopeBody([ANY_PREDICATE, SAME_PREDICATE], Heads(prog), graph), [EMPTY], ctx)
  {
    var a, b := ANY_PREDICATE.(graph := graph), SAME_PREDICATE.(graph := graph);
    assert ScopeBody([ANY_PREDICATE, SAME_PREDICATE], Heads(prog), graph) == [a, b];
    StoredContributes(graph, q, ctx);
    RowFrom(a, Edge(q), EMPTY, BoundPredicate(q.triple.pred), ctx);
    RowFrom(b, Edge(q), BoundPredicate(q.triple.pred), EdgeRow(q.triple), ctx);
    RowsFrom(a, b, BoundPredicate(q.triple.pred), EdgeRow(q.triple), ctx);
  }

  lemma BindsOnlyPredicate(vp: VarPattern, m: Match, c: Solution, ctx: Context)
    requires m.Edge? && vp.predVar == Some("v") && vp.subject.Any? && vp.obj.Any? && vp.edgeVar.None? &&
             !vp.graph.InVar?
    requires Contributes(vp, m, EMPTY, c, ctx)
    ensures c == BoundPredicate(m.quad.triple.pred)
  {}

  lemma DerivedPairRow(p: string, row: Solution, ctx: Context, id: EdgeId)
    requires ctx.snapshot.Valid() && ctx.view.Hybrid? && p in ctx.view.derived && ctx.view.edgeOf == Always(id)
    requires row in Solve([ANY_PREDICATE, SAME_PREDICATE], [EMPTY], ctx) && row.preds == map["v" := p]
    ensures "e" in row.nodes && row.nodes["e"] == id
  {
    hide Solve, Step;
    var c := RowsOf(ANY_PREDICATE, SAME_PREDICATE, row, ctx);
    var m0 := RowOf(ANY_PREDICATE, EMPTY, c, ctx);
    BindsOnlyPredicate(ANY_PREDICATE, m0, c, ctx);
    var m := RowOf(SAME_PREDICATE, c, row, ctx);
    PredicateKept(SAME_PREDICATE, m, c, row, ctx);
    DerivedEdgeBound(p, m, c, row, ctx, id);
  }

  lemma PredicateKept(vp: VarPattern, m: Match, c: Solution, row: Solution, ctx: Context)
    requires Contributes(vp, m, c, row, ctx)
    ensures forall v :: v in c.preds ==> v in row.preds && row.preds[v] == c.preds[v]
  {}

  /** Read for a derived name, the second pattern binds the edge to the id drawn. */
  lemma DerivedEdgeBound(p: string, m: Match, c: Solution, row: Solution, ctx: Context, id: EdgeId)
    requires ctx.view.Hybrid? && p in ctx.view.derived && ctx.view.edgeOf == Always(id)
    requires "v" in c.preds && c.preds["v"] == p
    requires Seen(SAME_PREDICATE, c, m, ctx) && Contributes(SAME_PREDICATE, m, c, row, ctx)
    ensures "e" in row.nodes && row.nodes["e"] == id
  {
    assert Substitute(SAME_PREDICATE, c, ctx.snapshot).pred == Some(p);
    assert EdgeIs(SAME_PREDICATE, m.quad.triple, row);
  }

  /** No predicate variable stands on a pattern over derived facts. */
  predicate NamesOnly(ps: seq<VarPattern>, derived: set<string>) {
    AllUngraphed(ps) && forall i :: 0 <= i < |ps| && NamesOneOf(ps[i], derived) ==> ps[i].predVar.None?
  }

  lemma NamesOnlyScopes(prog: Program, ps: seq<VarPattern>, graph: GraphTerm, snap: Snapshot, d: DerivedFacts,
      e: EdgeDraw, bindValues: bool)
    requires NamesOneGraph(graph) && snap.Valid() && d.Keys == Derived(prog)
    requires SeedPredicates(prog) <= Heads(prog) && NoneStored(Derived(prog), Cut(snap, graph)) &&
             NamesOnly(ps, Derived(prog))
    ensures SameScopedRows(prog, ps, graph, snap, d, e, bindValues)
  {
    assert Scopable(ps, prog) && LoosePredicates(ps, Derived(prog), Cut(snap, graph));
    RowsScope(prog, ps, graph, snap, d, e, bindValues);
  }

  ghost predicate AllQueriesScope(prog: Program, graph: GraphTerm, snap: Snapshot, d: DerivedFacts, bindValues: bool)
    requires NamesGraphs(graph)
  {
    forall ps, e :: NamesOnly(ps, Derived(prog)) ==> SameScopedRows(prog, ps, graph, snap, d, e, bindValues)
  }

  ghost predicate AllUngraphedScope(prog: Program, graph: GraphTerm, snap: Snapshot, d: DerivedFacts, bindValues: bool)
    requires NamesGraphs(graph)
  {
    forall ps, e :: AllUngraphed(ps) ==> SameScopedRows(prog, ps, graph, snap, d, e, bindValues)
  }

  /** For every query without a predicate variable on a derived pattern, and
      whatever edge ids are drawn, scoping is restriction exactly for programs whose
      seeded predicates all head rules, over graphs that store no derived name. */
  lemma ScopingExact(prog: Program, graph: GraphTerm, snap: Snapshot, d: DerivedFacts, bindValues: bool)
    requires NamesOneGraph(graph) && snap.Valid() && d.Keys == Derived(prog) && HoldsSeeds(prog, d)
    ensures AllQueriesScope(prog, graph, snap, d, bindValues)
       <==> SeedPredicates(prog) <= Heads(prog) && NoneStored(Derived(prog), Cut(snap, graph))
  {
    if !(SeedPredicates(prog) <= Heads(prog)) {
      SeedsMustHead(prog, graph, snap, d, bindValues);
    } else if !NoneStored(Derived(prog), Cut(snap, graph)) {
      NamesMustBeUnstored(prog, graph, snap, d, bindValues);
    } else {
      forall ps, e | NamesOnly(ps, Derived(prog)) ensures SameScopedRows(prog, ps, graph, snap, d, e, bindValues) {
        NamesOnlyScopes(prog, ps, graph, snap, d, e, bindValues);
      }
    }
  }

  lemma SeedsMustHead(prog: Program, graph: GraphTerm, snap: Snapshot, d: DerivedFacts, bindValues: bool)
    requires NamesOneGraph(graph) && snap.Valid() && HoldsSeeds(prog, d) && !(SeedPredicates(prog) <= Heads(prog))
    ensures !AllQueriesScope(prog, graph, snap, d, bindValues)
  {
    hide SameScopedRows;
    var id := Above(StoreNodes(snap));
    var k :| 0 <= k < |prog.seeds| && prog.seeds[k].pred !in Heads(prog);
    SeedOnlyIsLost(prog, k, graph, snap, d, id, bindValues);
    assert NamesOnly([PairPattern(prog.seeds[k].pred)], Derived(prog));
  }

  lemma AnyIsNamesOnly(derived: set<string>)
    ensures NamesOnly([ANY_PREDICATE, SAME_PREDICATE], derived)
  {}

  lemma NamesMustBeUnstored(prog: Program, graph: GraphTerm, snap: Snapshot, d: DerivedFacts, bindValues: bool)
    requires NamesOneGraph(graph) && snap.Valid() && d.Keys == Derived(prog) &&
             !NoneStored(Derived(prog), Cut(snap, graph))
    ensures !AllQueriesScope(prog, graph, snap, d, bindValues)
    ensures !AllUngraphedScope(prog, graph, snap, d, bindValues)
  {
    hide SameScopedRows;
    var id := Above(StoreNodes(snap));
    var p :| p in Derived(prog) && Cut(snap, graph).Stored(p);
    StoredNameIsMistaken(prog, p, graph, snap, d, id, bindValues);
    AnyIsNamesOnly(Derived(prog));
  }

  // ── Predicate variables on derived patterns ──────────────────────────────

  function NamedPredicate(h: string): VarPattern { VarPattern(Any, Some(h), Some("v"), Any, None, None, InUnion) }

  lemma ScopedFindsNothing(prog: Program, h: string, graph: GraphTerm, r: Solution, ctx: Context)
    requires NamesGraphs(graph) && ctx.snapshot.Valid() && !Cut(ctx.snapshot, graph).Stored(h)
    ensures r !in Solve(ScopeBody([NamedPredicate(h), ANY_PREDICATE], Heads(prog), graph), [EMPTY], ctx)
  {
    hide Solve, Step;
    var a, b := ScopePattern(NamedPredicate(h), Heads(prog), graph), ANY_PREDICATE.(graph := graph);
    assert ScopeBody([NamedPredicate(h), ANY_PREDICATE], Heads(prog), graph) == [a, b];
    if r in Solve([a, b], [EMPTY], ctx) {
      var c := RowsOf(a, b, r, ctx);
      NamedIsBound(a, h, c, ctx);
      BoundIsStored(h, graph, c, r, ctx);
      assert false;
    }
  }

  lemma NamedIsBound(a: VarPattern, h: string, c: Solution, ctx: Context)
    requires ctx.snapshot.Valid() && a == NamedPredicate(h).(graph := a.graph) && !a.graph.InVar?
    requires c in Solve([a], [EMPTY], ctx)
    ensures c == BoundPredicate(h)
  {
    hide Solve, Step;
    var m := RowOf(a, EMPTY, c, ctx);
    BindsOnlyPredicate(a, m, c, ctx);
  }

  lemma BoundIsStored(h: string, graph: GraphTerm, c: Solution, r: Solution, ctx: Context)
    requires NamesGraphs(graph) && ctx.snapshot.Valid() && c == BoundPredicate(h)
    requires r in Solve([ANY_PREDICATE.(graph := graph)], [c], ctx)
    ensures Cut(ctx.snapshot, graph).Stored(h)
  {
    hide Solve, Step;
    var m := RowOf(ANY_PREDICATE.(graph := graph), c, r, ctx);
    ScopedQuadStored(graph, m.quad, ctx.snapshot);
  }

  lemma ScopedQuadStored(graph: GraphTerm, q: Quad, snap: Snapshot)
    requires NamesGraphs(graph) && q in snap.quads && q.graph in GraphsOf(graph, snap)
    ensures Cut(snap, graph).Stored(q.triple.pred)
  {
    CutMember(snap, GraphsOf(graph, snap), q);
    var i :| 0 <= i < |Cut(snap, graph).quads| && Cut(snap, graph).quads[i] == q;
  }

  lemma FactContributes(h: string, pair: NodePair, id: EdgeId, ctx: Context)
    ensures Contributes(NamedPredicate(h), Edge(Quad(DEFAULT_GRAPH, Relation(pair.0, h, pair.1, id))), EMPTY,
              BoundPredicate(h), ctx)
    ensures Contributes(ANY_PREDICATE, Edge(Quad(DEFAULT_GRAPH, Relation(pair.0, h, pair.1, id))), BoundPredicate(h),
              BoundPredicate(h), ctx)
  {}

  lemma PlainFinds(h: string, pair: NodePair, ctx: Context)
    requires ctx.snapshot.Valid() && ctx.view.Hybrid? && h in ctx.view.derived && pair in ctx.view.derived[h]
    ensures BoundPredicate(h) in Solve([NamedPredicate(h), ANY_PREDICATE], [EMPTY], ctx)
  {
    PlainFindsFirst(h, pair, ctx);
    PlainFindsAgain(h, pair, ctx);
    RowsFrom(NamedPredicate(h), ANY_PREDICATE, BoundPredicate(h), BoundPredicate(h), ctx);
  }

  lemma PlainFindsFirst(h: string, pair: NodePair, ctx: Context)
    requires ctx.snapshot.Valid() && ctx.view.Hybrid? && h in ctx.view.derived && pair in ctx.view.derived[h]
    ensures BoundPredicate(h) in Solve([NamedPredicate(h)], [EMPTY], ctx)
  {
    var id := ctx.view.edgeOf(NamedPredicate(h), EMPTY, pair.0, pair.1);
    assert pair == (pair.0, pair.1);
    FactContributes(h, pair, id, ctx);
    RowFrom(NamedPredicate(h), Edge(Quad(DEFAULT_GRAPH, Relation(pair.0, h, pair.1, id))), EMPTY, BoundPredicate(h),
      ctx);
  }

  lemma PlainFindsAgain(h: string, pair: NodePair, ctx: Context)
    requires ctx.snapshot.Valid() && ctx.view.Hybrid? && h in ctx.view.derived && pair in ctx.view.derived[h]
    ensures BoundPredicate(h) in Solve([ANY_PREDICATE], [BoundPredicate(h)], ctx)
  {
    var c := BoundPredicate(h);
    var id := ctx.view.edgeOf(ANY_PREDICATE, c, pair.0, pair.1);
    assert pair == (pair.0, pair.1);
    FactContributes(h, pair, id, ctx);
    RowFrom(ANY_PREDICATE, Edge(Quad(DEFAULT_GRAPH, Relation(pair.0, h, pair.1, id))), c, c, ctx);
  }

  /** A predicate variable bound by a derived pattern leads the plain query back to
      the derived facts and the scoped one to the graph, which has none. */
  lemma FactsAreMissed(prog: Program, h: string, pair: NodePair, graph: GraphTerm, snap: Snapshot, d: DerivedFacts,
      e: EdgeDraw, bindValues: bool)
    requires NamesOneGraph(graph) && snap.Valid() && h in d && pair in d[h] && !Cut(snap, graph).Stored(h)
    ensures !SameScopedRows(prog, [NamedPredicate(h), ANY_PREDICATE], graph, snap, d, e, bindValues)
  {
    var ps, row := [NamedPredicate(h), ANY_PREDICATE], BoundPredicate(h);
    CutStaysValid(snap, GraphsOf(graph, snap));
    ScopedFindsNothing(prog, h, graph, row, Context(snap, Hybrid(d, e), bindValues));
    PlainFinds(h, pair, Context(Cut(snap, graph), Hybrid(d, e), bindValues));
    RowsDiffer(prog, ps, graph, snap, d, e, bindValues, row);
  }

  // ── ... and when there is nothing to find ────────────────────────────────

  predicate NoFacts(d: DerivedFacts) { forall h :: h in d ==> d[h] == {} }

  /** No predicate variable holds a derived name. */
  predicate Underived(sol: Solution, d: DerivedFacts) {
    sol.Valid() && forall v :: v in sol.preds ==> sol.preds[v] !in d
  }

  lemma NoRows(rows: seq<Solution>)
    ensures rows == [] <==> !exists r :: r in rows
  {
    if rows != [] { assert rows[0] in rows; }
  }

  lemma NothingDerivedStep(vp: VarPattern, sol: Solution, ctx: Context)
    requires ctx.snapshot.Valid() && sol.Valid() && NamesDerived(vp, ctx) && ctx.view.derived[vp.pred.value] == {}
    ensures Step(vp, sol, ctx) == []
  {
    forall c ensures c !in Step(vp, sol, ctx) { StepSees(vp, sol, c, ctx); }
    NoRows(Step(vp, sol, ctx));
  }

  lemma NothingStoredStep(vp: VarPattern, graph: GraphTerm, sol: Solution, ctx: Context)
    requires ctx.snapshot.Valid() && sol.Valid() && NamesGraphs(graph) && vp.graph == graph && vp.maxHops.None?
    requires vp.pred.Some? && !Cut(ctx.snapshot, graph).Stored(vp.pred.value)
    ensures Step(vp, sol, ctx) == []
  {
    forall c ensures c !in Step(vp, sol, ctx) {
      StepSees(vp, sol, c, ctx);
      if c in Step(vp, sol, ctx) {
        var m :| Seen(vp, sol, m, ctx) && Contributes(vp, m, sol, c, ctx);
        ScopedQuadStored(graph, m.quad, ctx.snapshot);
      }
    }
    NoRows(Step(vp, sol, ctx));
  }

  /** Over no derived facts and none of their names stored, a pattern reads the
      graph either way. */
  lemma EmptyStepScopes(vp: VarPattern, heads: set<string>, graph: GraphTerm, sol: Solution, ctx: Context,
      ctx': Context)
    requires IsUngraphed(vp) && NamesOneGraph(graph) && ctx.view.Hybrid? && ctx'.view == ctx.view
    requires ctx'.snapshot == Cut(ctx.snapshot, graph) && ctx'.bindValues == ctx.bindValues
    requires ctx.snapshot.Valid() && ctx'.snapshot.Valid()
    requires NoFacts(ctx.view.derived) && NoneStored(ctx.view.derived.Keys, ctx'.snapshot)
    requires heads <= ctx.view.derived.Keys && Underived(sol, ctx.view.derived)
    ensures Step(ScopePattern(vp, heads, graph), sol, ctx) == Step(vp, sol, ctx')
  {
    hide Step;
    if ReadsDerived(Substitute(vp, sol, ctx'.snapshot).pred, ctx'.view) {
      assert NamesDerived(vp, ctx');
      NothingDerivedStep(vp, sol, ctx');
      if vp.pred.value in heads {
        NothingDerivedStep(vp, sol, ctx);
      } else {
        NothingStoredStep(vp.(graph := graph), graph, sol, ctx);
      }
    } else {
      StoredStepScopes(vp, graph, sol, ctx, ctx');
    }
  }

  lemma StaysUnderived(vp: VarPattern, sol: Solution, c: Solution, ctx: Context)
    requires IsUngraphed(vp) && ctx.snapshot.Valid() && ctx.view.Hybrid? && c in Step(vp, sol, ctx)
    requires NoFacts(ctx.view.derived) && NoneStored(ctx.view.derived.Keys, ctx.snapshot) &&
             Underived(sol, ctx.view.derived)
    ensures Underived(c, ctx.view.derived)
  {
    hide Step, Seen, NoFacts;
    StepSees(vp, sol, c, ctx);
    var m :| Seen(vp, sol, m, ctx) && Contributes(vp, m, sol, c, ctx);
    SeenIsStored(vp, sol, m, ctx);
    assert m.quad.triple.pred !in ctx.view.derived;
  }

  lemma SeenIsStored(vp: VarPattern, sol: Solution, m: Match, ctx: Context)
    requires IsUngraphed(vp) && ctx.view.Hybrid? && NoFacts(ctx.view.derived) && Seen(vp, sol, m, ctx)
    ensures m.Edge? && ctx.snapshot.Stored(m.quad.triple.pred)
  {
    UnionTripleStored(ctx.snapshot, m.quad.triple);
  }

  lemma {:induction false} EmptySolveScopes(ps: seq<VarPattern>, heads: set<string>, graph: GraphTerm,
      sols: seq<Solution>, ctx: Context, ctx': Context)
    requires AllUngraphed(ps) && NamesOneGraph(graph) && ctx.view.Hybrid? && ctx'.view == ctx.view
    requires ctx'.snapshot == Cut(ctx.snapshot, graph) && ctx'.bindValues == ctx.bindValues
    requires ctx.snapshot.Valid() && ctx'.snapshot.Valid()
    requires NoFacts(ctx.view.derived) && NoneStored(ctx.view.derived.Keys, ctx'.snapshot)
    requires heads <= ctx.view.derived.Keys && forall s :: s in sols ==> Underived(s, ctx.view.derived)
    ensures Solve(ScopeBody(ps, heads, graph), sols, ctx) == Solve(ps, sols, ctx')
    decreases |ps|
  {
    hide Step, Underived, NoFacts, NoneStored;
    if ps != [] {
      var f, g := Stepper(ScopePattern(ps[0], heads, graph), ctx), Stepper(ps[0], ctx');
      forall s | s in sols ensures f(s) == g(s) { EmptyStepScopes(ps[0], heads, graph, s, ctx, ctx'); }
      FlatMapSame(f, g, sols);
      forall c | c in FlatMap(g, sols) ensures Underived(c, ctx.view.derived) {
        FlatMapMember(g, sols, c);
        var s :| s in sols && c in g(s);
        StaysUnderived(ps[0], s, c, ctx');
      }
      EmptySolveScopes(ps[1..], heads, graph, FlatMap(g, sols), ctx, ctx');
      ScopeBodyPeels(ps, heads, graph);
    }
  }

  lemma EmptyRowsScope(prog: Program, ps: seq<VarPattern>, graph: GraphTerm, snap: Snapshot, d: DerivedFacts,
      e: EdgeDraw, bindValues: bool)
    requires AllUngraphed(ps) && NamesOneGraph(graph) && snap.Valid() && d.Keys == Derived(prog)
    requires NoFacts(d) && NoneStored(Derived(prog), Cut(snap, graph))
    ensures SameScopedRows(prog, ps, graph, snap, d, e, bindValues)
  {
    CutStaysValid(snap, GraphsOf(graph, snap));
    EmptySolveScopes(ps, Heads(prog), graph, [EMPTY], Context(snap, Hybrid(d, e), bindValues),
      Context(Cut(snap, graph), Hybrid(d, e), bindValues));
  }

  /** For every query of union patterns, predicate variables anywhere, and whatever
      edge ids are drawn, scoping is restriction exactly when nothing is derived and
      the graph stores no derived name. */
  lemma PredicateVariablesExact(prog: Program, graph: GraphTerm, snap: Snapshot, d: DerivedFacts, bindValues: bool)
    requires NamesOneGraph(graph) && snap.Valid() && d.Keys == Derived(prog)
    ensures AllUngraphedScope(prog, graph, snap, d, bindValues)
       <==> NoFacts(d) && NoneStored(Derived(prog), Cut(snap, graph))
  {
    hide SameScopedRows;
    if !NoneStored(Derived(prog), Cut(snap, graph)) {
      NamesMustBeUnstored(prog, graph, snap, d, bindValues);
    } else if !NoFacts(d) {
      var h :| h in d && d[h] != {};
      var pair :| pair in d[h];
      FactsAreMissed(prog, h, pair, graph, snap, d, ZeroEdges(), bindValues);
      assert AllUngraphed([NamedPredicate(h), ANY_PREDICATE]);
    } else {
      forall ps, e | AllUngraphed(ps) ensures SameScopedRows(prog, ps, graph, snap, d, e, bindValues) {
        EmptyRowsScope(prog, ps, graph, snap, d, e, bindValues);
      }
    }
  }
}
