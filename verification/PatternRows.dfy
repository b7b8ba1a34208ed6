/** The rows of single patterns, written out slot by slot
    (crates/polargraph-query/src/datalog.rs). */
module PatternRows {
  import opened Sequences
  import opened Values
  import opened Store
  import opened Datalog
  import opened Semantics

  lemma OnePattern(vp: VarPattern, r: Solution, ctx: Context)
    requires ctx.snapshot.Valid()
    ensures r in Solve([vp], [EMPTY], ctx) <==> SeesMatch(vp, EMPTY, r, ctx)
  {
    SolveOne(vp, EMPTY, ctx);
    StepSees(vp, EMPTY, r, ctx);
  }

  predicate FromStorage(p: string, ctx: Context) { ctx.view.Hybrid? ==> p !in ctx.view.derived }

  // ── ?s p ?o ──────────────────────────────────────────────────────────────

  function PairOf(s: string, p: string, o: string): VarPattern {
    VarPattern(Var(s), Some(p), None, Var(o), None, None, InUnion)
  }

  /** A relation binds both ends to nodes. A property binds its subject to a node and
      its object to the value, any value but a vector, where values are bound. */
  predicate PairRow(t: Triple, s: string, o: string, r: Solution, bindValues: bool) {
    match t
    case Relation(subject, _, obj, _) => r == Solution(map[s := subject, o := obj], map[], map[])
    case Property(subject, _, value) =>
      bindValues && !value.Vector? && r == Solution(map[s := subject], map[], map[o := value])
  }

  lemma PairContributes(t: Triple, s: string, p: string, o: string, r: Solution, ctx: Context)
    requires s != o
    ensures Contributes(PairOf(s, p, o), Edge(Quad(DEFAULT_GRAPH, t)), EMPTY, r, ctx)
       <==> t.pred == p && PairRow(t, s, o, r, ctx.bindValues)
  {
    if Contributes(PairOf(s, p, o), Edge(Quad(DEFAULT_GRAPH, t)), EMPTY, r, ctx) {
      assert r.preds == map[];
      if t.Relation? {
        assert r.nodes == map[s := t.subject, o := t.obj] && r.values == map[];
      } else {
        assert r.nodes == map[s := t.subject] && r.values == map[o := t.value];
      }
    }
  }

  /** The rows of `?s p ?o` over storage: one kind for each visible triple. */
  lemma PairRows(s: string, p: string, o: string, r: Solution, ctx: Context)
    requires ctx.snapshot.Valid() && s != o && FromStorage(p, ctx)
    ensures r in Solve([PairOf(s, p, o)], [EMPTY], ctx)
       <==> exists t :: t in ctx.snapshot.UnionTriples() && t.pred == p && PairRow(t, s, o, r, ctx.bindValues)
  {
    hide Contributes, PairRow;
    var vp := PairOf(s, p, o);
    OnePattern(vp, r, ctx);
    if SeesMatch(vp, EMPTY, r, ctx) {
      var m :| Seen(vp, EMPTY, m, ctx) && Contributes(vp, m, EMPTY, r, ctx);
      PairContributes(m.quad.triple, s, p, o, r, ctx);
    }
    if t :| t in ctx.snapshot.UnionTriples() && t.pred == p && PairRow(t, s, o, r, ctx.bindValues) {
      PairContributes(t, s, p, o, r, ctx);
      assert Seen(vp, EMPTY, Edge(Quad(DEFAULT_GRAPH, t)), ctx);
    }
  }

  /** ... and over a predicate held in memory: one for each derived pair, whatever
      storage holds under that name. */
  lemma DerivedRows(s: string, p: string, o: string, r: Solution, ctx: Context)
    requires ctx.snapshot.Valid() && s != o && ctx.view.Hybrid? && p in ctx.view.derived
    ensures r in Solve([PairOf(s, p, o)], [EMPTY], ctx)
       <==> exists pair :: pair in ctx.view.derived[p] && r == Solution(map[s := pair.0, o := pair.1], map[], map[])
  {
    hide Contributes;
    var vp := PairOf(s, p, o);
    OnePattern(vp, r, ctx);
    if SeesMatch(vp, EMPTY, r, ctx) {
      var m :| Seen(vp, EMPTY, m, ctx) && Contributes(vp, m, EMPTY, r, ctx);
      var t := m.quad.triple;
      PairContributes(t, s, p, o, r, ctx);
      assert (t.subject, t.obj) in ctx.view.derived[p];
    }
    if pair :| pair in ctx.view.derived[p] && r == Solution(map[s := pair.0, o := pair.1], map[], map[]) {
      var t := Relation(pair.0, p, pair.1, ctx.view.edgeOf(vp, EMPTY, pair.0, pair.1));
      assert pair == (pair.0, pair.1);
      PairContributes(t, s, p, o, r, ctx);
      assert Seen(vp, EMPTY, Edge(Quad(DEFAULT_GRAPH, t)), ctx);
    }
  }

  /** A visible property gives a row with its value exactly when that is no vector. */
  lemma PropertyRow(s: string, p: string, o: string, n: NodeId, v: Value, ctx: Context)
    requires ctx.snapshot.Valid() && s != o && FromStorage(p, ctx) && ctx.bindValues
    requires Property(n, p, v) in ctx.snapshot.UnionTriples()
    ensures Solution(map[s := n], map[], map[o := v]) in Solve([PairOf(s, p, o)], [EMPTY], ctx) <==> !v.Vector?
  {
    hide Solve;
    var r := Solution(map[s := n], map[], map[o := v]);
    PairRows(s, p, o, r, ctx);
    assert PairRow(Property(n, p, v), s, o, r, true) <==> !v.Vector?;
    if t :| t in ctx.snapshot.UnionTriples() && t.pred == p && PairRow(t, s, o, r, true) {
      assert o in r.values && r.values[o] == v;
    }
  }

  // ── ?s p "literal" ───────────────────────────────────────────────────────

  function LiteralOf(s: string, p: string, v: Value): VarPattern {
    VarPattern(Var(s), Some(p), None, Literal(v), None, None, InUnion)
  }

  lemma LiteralContributes(t: Triple, s: string, p: string, v: Value, r: Solution, ctx: Context)
    ensures Contributes(LiteralOf(s, p, v), Edge(Quad(DEFAULT_GRAPH, t)), EMPTY, r, ctx)
       <==> t == Property(t.subject, p, v) && r == Solution(map[s := t.subject], map[], map[])
  {
    if Contributes(LiteralOf(s, p, v), Edge(Quad(DEFAULT_GRAPH, t)), EMPTY, r, ctx) {
      assert r.nodes == map[s := t.subject] && r.preds == map[] && r.values == map[];
    }
  }

  /** A literal object finds the subjects of the properties with exactly that value,
      vectors included. */
  lemma LiteralRows(s: string, p: string, v: Value, r: Solution, ctx: Context)
    requires ctx.snapshot.Valid() && FromStorage(p, ctx)
    ensures r in Solve([LiteralOf(s, p, v)], [EMPTY], ctx)
       <==> exists n :: Property(n, p, v) in ctx.snapshot.UnionTriples() && r == Solution(map[s := n], map[], map[])
  {
    hide Contributes;
    var vp := LiteralOf(s, p, v);
    OnePattern(vp, r, ctx);
    if SeesMatch(vp, EMPTY, r, ctx) {
      var m :| Seen(vp, EMPTY, m, ctx) && Contributes(vp, m, EMPTY, r, ctx);
      LiteralContributes(m.quad.triple, s, p, v, r, ctx);
    }
    if n :| Property(n, p, v) in ctx.snapshot.UnionTriples() && r == Solution(map[s := n], map[], map[]) {
      LiteralContributes(Property(n, p, v), s, p, v, r, ctx);
      assert Seen(vp, EMPTY, Edge(Quad(DEFAULT_GRAPH, Property(n, p, v))), ctx);
    }
  }

  // ── Every slot a variable ────────────────────────────────────────────────

  function OpenPattern(s: string, v: string, o: string, e: string, g: string): VarPattern {
    VarPattern(Var(s), None, Some(v), Var(o), Some(e), None, InVar(g))
  }

  /** Subject, predicate, object, edge and graph of one quad in a named graph; a
      property has no edge. */
  predicate QuadRow(q: Quad, s: string, v: string, o: string, e: string, g: string, r: Solution, ctx: Context) {
    q.graph in ctx.snapshot.graphNodes &&
    var node := ctx.snapshot.graphNodes[q.graph];
    match q.triple
    case Relation(subject, p, obj, edge) =>
      r == Solution(map[s := subject, o := obj, e := edge, g := node], map[v := p], map[])
    case Property(subject, p, value) =>
      ctx.bindValues && !value.Vector? && r == Solution(map[s := subject, g := node], map[v := p], map[o := value])
  }

  lemma FourNames(s: string, o: string, e: string, g: string)
    requires Distinct([s, o, e, g])
    ensures s != o && s != e && s != g && o != e && o != g && e != g
  {
    var names := [s, o, e, g];
    assert names[0] != names[1] && names[0] != names[2] && names[0] != names[3];
    assert names[1] != names[2] && names[1] != names[3] && names[2] != names[3];
  }

  lemma RowContributes(q: Quad, s: string, v: string, o: string, e: string, g: string, r: Solution, ctx: Context)
    requires Distinct([s, o, e, g]) && QuadRow(q, s, v, o, e, g, r, ctx)
    ensures Contributes(OpenPattern(s, v, o, e, g), Edge(q), EMPTY, r, ctx)
  {
    FourNames(s, o, e, g);
    RowAgrees(q, s, v, o, e, g, r, ctx);
    hide Agrees;
    var m := Edge(q);
    assert r.nodes.Keys == NodeVars(OpenPattern(s, v, o, e, g), m);
  }

  lemma RowAgrees(q: Quad, s: string, v: string, o: string, e: string, g: string, r: Solution, ctx: Context)
    requires Distinct([s, o, e, g]) && QuadRow(q, s, v, o, e, g, r, ctx)
    ensures Agrees(OpenPattern(s, v, o, e, g), Edge(q), r, ctx)
  {
    FourNames(s, o, e, g);
  }

  lemma ContributesRow(q: Quad, s: string, v: string, o: string, e: string, g: string, r: Solution, ctx: Context)
    requires Distinct([s, o, e, g]) && Contributes(OpenPattern(s, v, o, e, g), Edge(q), EMPTY, r, ctx)
    ensures QuadRow(q, s, v, o, e, g, r, ctx)
  {
    FourNames(s, o, e, g);
    var node := ctx.snapshot.graphNodes[q.graph];
    var row := match q.triple
      case Relation(subject, p, obj, edge) =>
        Solution(map[s := subject, o := obj, e := edge, g := node], map[v := p], map[])
      case Property(subject, p, value) => Solution(map[s := subject, g := node], map[v := p], map[o := value]);
    assert QuadRow(q, s, v, o, e, g, row, ctx);
    RowContributes(q, s, v, o, e, g, row, ctx);
    ContributionIsUnique(OpenPattern(s, v, o, e, g), Edge(q), EMPTY, r, row, ctx);
  }

  /** With every slot a variable there is a row for each quad of a named graph. */
  lemma OpenRows(s: string, v: string, o: string, e: string, g: string, r: Solution, ctx: Context)
    requires ctx.snapshot.Valid() && Distinct([s, o, e, g])
    ensures r in Solve([OpenPattern(s, v, o, e, g)], [EMPTY], ctx)
       <==> exists q :: q in ctx.snapshot.quads && QuadRow(q, s, v, o, e, g, r, ctx)
  {
    hide Contributes, QuadRow;
    var vp := OpenPattern(s, v, o, e, g);
    OnePattern(vp, r, ctx);
    if SeesMatch(vp, EMPTY, r, ctx) {
      var m :| Seen(vp, EMPTY, m, ctx) && Contributes(vp, m, EMPTY, r, ctx);
      ContributesRow(m.quad, s, v, o, e, g, r, ctx);
    }
    if q :| q in ctx.snapshot.quads && QuadRow(q, s, v, o, e, g, r, ctx) {
      RowContributes(q, s, v, o, e, g, r, ctx);
      assert Seen(vp, EMPTY, Edge(q), ctx);
    }
  }
}
