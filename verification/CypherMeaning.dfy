/** A query with every position named, and the proof that the patterns, rules and
    filters the compiler emits say exactly the same. */
module CypherMeaning {
  import opened Sequences
  import opened Store
  import opened Datalog
  import opened Reachability
  import opened Semantics
  import opened Joins
  import opened Rules
  import opened Closure
  import opened Cypher
  import opened CypherCompiler

  // ── The query with every position named ──────────────────────────────────

  ghost predicate FilterHolds(snap: Snapshot, f: ValueFilter, row: Row) {
    f.variable in row && ConditionHolds(snap, row[f.variable], f.pred, f.value)
  }

  ghost predicate FiltersHold(snap: Snapshot, fs: seq<ValueFilter>, row: Row) {
    forall i :: 0 <= i < |fs| ==> FilterHolds(snap, fs[i], row)
  }

  predicate Bare(node: NodePat) { node.nodeLabel.None? && node.props == [] }

  /** A node that asks for nothing need not be bound. */
  ghost predicate NodeHolds(v: Vocabulary, snap: Snapshot, node: NodePat, x: string, row: Row) {
    Bare(node) || (x in row && NodeFits(v, snap, node, row[x]))
  }

  ghost predicate RelHolds(v: Vocabulary, snap: Snapshot, rel: RelPat, direction: Direction, x: string, y: string,
      row: Row) {
    x in row && y in row && RelMatches(v, snap, rel, direction, row[x], row[y], row)
  }

  ghost predicate HopsHold(v: Vocabulary, snap: Snapshot, hops: seq<HopPat>, x: string, anon: nat, row: Row)
    decreases |hops|
  {
    hops == [] ||
    var hop, y := hops[0], NameOf(hops[0].end.variable, anon);
    RelHolds(v, snap, hop.rel, hop.direction, x, y, row) && NodeHolds(v, snap, hop.end, y, row) &&
    HopsHold(v, snap, hops[1..], y, NextAnon(hop.end.variable, anon), row)
  }

  ghost predicate PathHolds(v: Vocabulary, snap: Snapshot, path: CypherPath, anon: nat, row: Row) {
    var x := NameOf(path.start.variable, anon);
    NodeHolds(v, snap, path.start, x, row) && HopsHold(v, snap, path.hops, x, NextAnon(path.start.variable, anon), row)
  }

  function AnonAfterHops(hops: seq<HopPat>, anon: nat): nat {
    if hops == [] then anon else AnonAfterHops(hops[1..], NextAnon(hops[0].end.variable, anon))
  }

  function AnonAfter(path: CypherPath, anon: nat): nat { AnonAfterHops(path.hops, NextAnon(path.start.variable, anon)) }

  /** The counter after naming every anonymous position of the paths. */
  function AnonAfterPaths(paths: seq<CypherPath>, anon: nat): nat {
    if paths == [] then anon else AnonAfterPaths(paths[1..], AnonAfter(paths[0], anon))
  }

  ghost predicate PathsHold(v: Vocabulary, snap: Snapshot, paths: seq<CypherPath>, anon: nat, row: Row) {
    paths == [] ||
    (PathHolds(v, snap, paths[0], anon, row) && PathsHold(v, snap, paths[1..], AnonAfter(paths[0], anon), row))
  }

  // The variables a query constrains.

  function HopsNames(hops: seq<HopPat>, anon: nat): set<string> {
    if hops == [] then {}
    else
      {NameOf(hops[0].end.variable, anon)} + RelNames(hops[0].rel) +
      HopsNames(hops[1..], NextAnon(hops[0].end.variable, anon))
  }

  function PathNames(path: CypherPath, anon: nat): set<string> {
    (if path.hops == [] && Bare(path.start) then {} else {NameOf(path.start.variable, anon)})
    + HopsNames(path.hops, NextAnon(path.start.variable, anon))
  }

  function PathsNames(paths: seq<CypherPath>, anon: nat): set<string> {
    if paths == [] then {} else PathNames(paths[0], anon) + PathsNames(paths[1..], AnonAfter(paths[0], anon))
  }

  /** Assignments to exactly the variables and anonymous names that something
      constrains. */
  ghost predicate QueryHolds(v: Vocabulary, snap: Snapshot, q: CypherQuery, row: Row) {
    PathsHold(v, snap, q.paths, 0, row) && WheresHold(v, snap, q.wheres, row) &&
    row.Keys == PathsNames(q.paths, 0) + WhereNames(q.wheres)
  }

  // ── Patterns the compiler emits, one at a time ───────────────────────────

  /** Ungraphed, with a named predicate, a variable subject, and an object that
      is a variable, a constant or nothing. */
  predicate Simple(vp: VarPattern) {
    vp.graph.InUnion? && vp.pred.Some? && vp.predVar.None? && vp.subject.Var? &&
    (vp.obj.Var? || vp.obj.Any? || vp.obj.Bound?) &&
    (vp.edgeVar.Some? ==> vp.obj.Var? && vp.maxHops.None?) && (vp.maxHops.Some? ==> vp.obj.Var?)
  }

  predicate AllSimple(ps: seq<VarPattern>) { forall i :: 0 <= i < |ps| ==> Simple(ps[i]) }

  function PatternVars(vp: VarPattern): set<string> { TermVars(vp.subject) + TermVars(vp.obj) + OptVars(vp.edgeVar) }

  function AllVars(ps: seq<VarPattern>): set<string> {
    if ps == [] then {} else PatternVars(ps[0]) + AllVars(ps[1..])
  }

  function AsSolution(row: Row): Solution { Solution(row, map[], map[]) }

  ghost predicate PatternHolds(vp: VarPattern, row: Row, ctx: Context) {
    exists m :: Visible(vp, m, ctx) && Agrees(vp, m, AsSolution(row), ctx)
  }

  ghost predicate AllHold(ps: seq<VarPattern>, row: Row, ctx: Context) {
    forall i :: 0 <= i < |ps| ==> PatternHolds(ps[i], row, ctx)
  }

  /** Without value bindings a simple pattern binds the same variables whatever
      it matches. */
  lemma SimpleVars(vp: VarPattern, m: Match, r: Solution, ctx: Context)
    requires Simple(vp) && !ctx.bindValues && Visible(vp, m, ctx) && Agrees(vp, m, r, ctx)
    ensures NodeVars(vp, m) == PatternVars(vp) && PredVars(vp, m) == {} && ValueVars(vp, m) == {}
  {}

  lemma {:induction false} AllVarsMember(ps: seq<VarPattern>, x: string)
    ensures x in AllVars(ps) <==> exists i :: 0 <= i < |ps| && x in PatternVars(ps[i])
  {
    if ps != [] {
      AllVarsMember(ps[1..], x);
      if i :| 0 <= i < |ps| && x in PatternVars(ps[i]) {
        assert i > 0 ==> ps[1..][i - 1] == ps[i];
      }
      if x in AllVars(ps[1..]) {
        var i :| 0 <= i < |ps[1..]| && x in PatternVars(ps[1..][i]);
        assert ps[i + 1] == ps[1..][i];
      }
    }
  }

  lemma SimpleMatchBinds(ps: seq<VarPattern>, ms: seq<Match>, r: Solution, ctx: Context, n: Name)
    requires AllSimple(ps) && !ctx.bindValues && |ms| == |ps| && AllAgree(ps, ms, r, ctx)
    ensures SomeMatchBinds(ps, ms, n) <==> n.NodeName? && n.x in AllVars(ps)
  {
    forall i | 0 <= i < |ps| ensures MatchBinds(ps[i], ms[i], n) <==> n.NodeName? && n.x in PatternVars(ps[i]) {
      SimpleVars(ps[i], ms[i], r, ctx);
    }
    AllVarsMember(ps, n.x);
  }

  lemma SimpleAnswerBinds(ps: seq<VarPattern>, ms: seq<Match>, r: Solution, ctx: Context)
    requires AllSimple(ps) && !ctx.bindValues && AnswerBy(ps, ms, EMPTY, r, ctx)
    ensures r.preds == map[] && r.values == map[] && r.nodes.Keys <= AllVars(ps)
  {
    forall n | Binds(r, n) ensures n.NodeName? && n.x in AllVars(ps) { SimpleMatchBinds(ps, ms, r, ctx, n); }
    assert forall x :: x in r.preds ==> Binds(r, PredName(x));
    assert forall x :: x in r.values ==> Binds(r, ValueName(x));
    assert forall x :: x in r.nodes ==> Binds(r, NodeName(x));
    assert r.preds.Keys == {} && r.values.Keys == {};
  }

  lemma SimpleAnswerShape(ps: seq<VarPattern>, r: Solution, ctx: Context)
    requires AllSimple(ps) && !ctx.bindValues && IsAnswer(ps, EMPTY, r, ctx)
    ensures r == AsSolution(r.nodes) && AllHold(ps, r.nodes, ctx) && r.nodes.Keys == AllVars(ps)
  {
    var ms :| AnswerBy(ps, ms, EMPTY, r, ctx);
    SimpleAnswerBinds(ps, ms, r, ctx);
    forall x | x in AllVars(ps) ensures x in r.nodes {
      AllVarsMember(ps, x);
      var i :| 0 <= i < |ps| && x in PatternVars(ps[i]);
      SimpleVars(ps[i], ms[i], r, ctx);
      AgreeingVarsBound(ps[i], ms[i], r, ctx);
    }
    forall i | 0 <= i < |ps| ensures PatternHolds(ps[i], r.nodes, ctx) { assert Visible(ps[i], ms[i], ctx); }
  }

  lemma MatchesExist(ps: seq<VarPattern>, row: Row, ctx: Context) returns (ms: seq<Match>)
    requires AllHold(ps, row, ctx)
    ensures |ms| == |ps| && AllAgree(ps, ms, AsSolution(row), ctx)
  {
    if ps == [] {
      ms := [];
    } else {
      assert PatternHolds(ps[0], row, ctx);
      var m :| Visible(ps[0], m, ctx) && Agrees(ps[0], m, AsSolution(row), ctx);
      assert AllHold(ps[1..], row, ctx) by {
        forall i | 0 <= i < |ps| - 1 ensures PatternHolds(ps[1..][i], row, ctx) { assert ps[1..][i] == ps[i + 1]; }
      }
      var rest := MatchesExist(ps[1..], row, ctx);
      ms := [m] + rest;
      forall i | 0 <= i < |ps| ensures Visible(ps[i], ms[i], ctx) && Agrees(ps[i], ms[i], AsSolution(row), ctx) {
        if i > 0 { assert ps[1..][i - 1] == ps[i] && rest[i - 1] == ms[i]; }
      }
    }
  }

  /** Answers to simple patterns are the rows over exactly their variables that
      satisfy each of them. */
  lemma SimpleAnswer(ps: seq<VarPattern>, row: Row, ctx: Context)
    requires AllSimple(ps) && !ctx.bindValues
    ensures IsAnswer(ps, EMPTY, AsSolution(row), ctx) <==> AllHold(ps, row, ctx) && row.Keys == AllVars(ps)
  {
    if IsAnswer(ps, EMPTY, AsSolution(row), ctx) { SimpleAnswerShape(ps, AsSolution(row), ctx); }
    if AllHold(ps, row, ctx) && row.Keys == AllVars(ps) {
      var ms := MatchesExist(ps, row, ctx);
      forall n | Binds(AsSolution(row), n) ensures SomeMatchBinds(ps, ms, n) {
        SimpleMatchBinds(ps, ms, AsSolution(row), ctx, n);
      }
      assert AnswerBy(ps, ms, EMPTY, AsSolution(row), ctx);
    }
  }

  // ── What each emitted pattern and filter says ────────────────────────────

  /** Derived facts as the compiled rules leave them: the closures of `preds`. */
  ghost predicate World(snap: Snapshot, d: DerivedFacts, preds: set<string>) {
    snap.Valid() && RDF_TYPE !in d &&
    forall p, s: NodeId, o: NodeId :: p in preds ==> (Fact(snap, d, Tc(p), s, o) <==> Reaches(snap, p, s, o))
  }

  /** No filter is on a stored property that bears a derived name. */
  predicate Clear(fs: seq<ValueFilter>, snap: Snapshot, d: DerivedFacts) {
    forall i :: 0 <= i < |fs| && fs[i].pred in d ==> !snap.Stored(fs[i].pred)
  }

  function NodeView(snap: Snapshot, d: DerivedFacts, e: EdgeDraw): Context { Context(snap, Hybrid(d, e), false) }

  ghost predicate HasTriple(snap: Snapshot, n: NodeId, p: string, obj: Term) {
    exists t ::
      t in snap.UnionTriples() && t.subject == n && t.pred == p && (obj.Bound? ==> snap.ObjectSlot(t) == obj.id)
  }

  lemma PlainHolds(x: string, p: string, obj: Term, row: Row, snap: Snapshot, d: DerivedFacts, e: EdgeDraw)
    requires p !in d && (obj.Any? || obj.Bound?)
    ensures PatternHolds(PlainPattern(x, p, obj), row, NodeView(snap, d, e))
       <==> x in row && HasTriple(snap, row[x], p, obj)
  {
    var vp, ctx := PlainPattern(x, p, obj), NodeView(snap, d, e);
    if x in row && HasTriple(snap, row[x], p, obj) {
      var t :| t in snap.UnionTriples() && t.subject == row[x] && t.pred == p &&
               (obj.Bound? ==> snap.ObjectSlot(t) == obj.id);
      var m := Edge(Quad(DEFAULT_GRAPH, t));
      assert Visible(vp, m, ctx) && Agrees(vp, m, AsSolution(row), ctx);
    }
    if PatternHolds(vp, row, ctx) {
      var m :| Visible(vp, m, ctx) && Agrees(vp, m, AsSolution(row), ctx);
      assert m.quad.triple in snap.UnionTriples();
    }
  }

  /** A property scan over a filter's own predicate excludes nothing the filter
      keeps. */
  lemma ScanImplied(f: ValueFilter, row: Row, snap: Snapshot, d: DerivedFacts, e: EdgeDraw)
    requires FilterHolds(snap, f, row) && (f.pred in d ==> !snap.Stored(f.pred))
    ensures PatternHolds(PlainPattern(f.variable, f.pred, Any), row, NodeView(snap, d, e))
  {
    var t :| t in snap.UnionTriples() && t.Property? && t.subject == row[f.variable] && t.pred == f.pred &&
             t.value == f.value.value;
    UnionTripleStored(snap, t);
    PlainHolds(f.variable, f.pred, Any, row, snap, d, e);
  }

  lemma EdgePatternHolds(x: string, p: string, y: string, variable: Option<string>, row: Row, snap: Snapshot,
      d: DerivedFacts, e: EdgeDraw)
    requires p !in d
    ensures PatternHolds(PlainPattern(x, p, Var(y)).(edgeVar := variable), row, NodeView(snap, d, e))
       <==> x in row && y in row && EdgeHolds(snap, p, variable, row[x], row[y], row)
  {
    var vp, ctx := PlainPattern(x, p, Var(y)).(edgeVar := variable), NodeView(snap, d, e);
    if PatternHolds(vp, row, ctx) {
      var m :| Visible(vp, m, ctx) && Agrees(vp, m, AsSolution(row), ctx);
      assert m.quad.triple in snap.UnionTriples();
    }
    if x in row && y in row && EdgeHolds(snap, p, variable, row[x], row[y], row) {
      var t :| t in snap.UnionTriples() && t.Relation? && t.pred == p && t.subject == row[x] && t.obj == row[y] &&
               (variable.Some? ==> variable.value in row && row[variable.value] == t.edge);
      var m := Edge(Quad(DEFAULT_GRAPH, t));
      assert Visible(vp, m, ctx) && Agrees(vp, m, AsSolution(row), ctx);
    }
  }

  lemma WalkPatternHolds(x: string, p: string, y: string, hops: nat, row: Row, snap: Snapshot, d: DerivedFacts,
      e: EdgeDraw)
    ensures PatternHolds(PlainPattern(x, p, Var(y)).(maxHops := Some(hops)), row, NodeView(snap, d, e))
       <==> x in row && y in row && exists n :: 1 <= n <= hops && Connected(snap, p, row[x], row[y], n)
  {
    var vp, ctx := PlainPattern(x, p, Var(y)).(maxHops := Some(hops)), NodeView(snap, d, e);
    if PatternHolds(vp, row, ctx) {
      var m :| Visible(vp, m, ctx) && Agrees(vp, m, AsSolution(row), ctx);
      ReachWithinMeaning(snap, p, m.start, hops, m.target);
    }
    if x in row && y in row && exists n :: 1 <= n <= hops && Connected(snap, p, row[x], row[y], n) {
      ReachWithinMeaning(snap, p, row[x], hops, row[y]);
      var m := Path(row[x], row[y]);
      assert Visible(vp, m, ctx) && Agrees(vp, m, AsSolution(row), ctx);
    }
  }

  lemma ClosurePatternHolds(x: string, h: string, y: string, row: Row, snap: Snapshot, d: DerivedFacts, e: EdgeDraw)
    ensures PatternHolds(PlainPattern(x, h, Var(y)), row, NodeView(snap, d, e))
       <==> x in row && y in row && Fact(snap, d, h, row[x], row[y])
  {
    var vp, ctx := PlainPattern(x, h, Var(y)), NodeView(snap, d, e);
    if PatternHolds(vp, row, ctx) {
      var m :| Visible(vp, m, ctx) && Agrees(vp, m, AsSolution(row), ctx);
      if h !in d { assert m.quad.triple in snap.UnionTriples(); }
    }
    if x in row && y in row && Fact(snap, d, h, row[x], row[y]) {
      FactVisible(snap, d, e, x, h, y, row[x], row[y]);
      var m :| Visible(EdgePattern(x, h, y), m, InView(snap, d, e)) && IsFact(m, h, row[x], row[y]);
      assert Visible(vp, m, ctx) && Agrees(vp, m, AsSolution(row), ctx);
    }
  }

  // ── Compiling step by step ───────────────────────────────────────────────

  /** The patterns and filters emitted so far hold of a row. */
  ghost predicate Sat(out: Output, row: Row, snap: Snapshot, d: DerivedFacts, e: EdgeDraw) {
    AllHold(out.patterns, row, NodeView(snap, d, e)) && FiltersHold(snap, out.filters, row)
  }

  lemma AllHoldConcat(a: seq<VarPattern>, b: seq<VarPattern>, row: Row, ctx: Context)
    ensures AllHold(a + b, row, ctx) <==> AllHold(a, row, ctx) && AllHold(b, row, ctx)
  {
    if AllHold(a + b, row, ctx) {
      forall i | 0 <= i < |a| ensures PatternHolds(a[i], row, ctx) { assert (a + b)[i] == a[i]; }
      forall i | 0 <= i < |b| ensures PatternHolds(b[i], row, ctx) { assert (a + b)[|a| + i] == b[i]; }
    }
  }

  lemma AllHoldOne(vp: VarPattern, row: Row, ctx: Context)
    ensures AllHold([vp], row, ctx) <==> PatternHolds(vp, row, ctx)
  {
    if AllHold([vp], row, ctx) { assert [vp][0] == vp; }
  }

  lemma FiltersHoldConcat(snap: Snapshot, a: seq<ValueFilter>, b: seq<ValueFilter>, row: Row)
    ensures FiltersHold(snap, a + b, row) <==> FiltersHold(snap, a, row) && FiltersHold(snap, b, row)
  {
    if FiltersHold(snap, a + b, row) {
      forall i | 0 <= i < |a| ensures FilterHolds(snap, a[i], row) { assert (a + b)[i] == a[i]; }
      forall i | 0 <= i < |b| ensures FilterHolds(snap, b[i], row) { assert (a + b)[|a| + i] == b[i]; }
    }
  }

  lemma NodePatternsHold(v: Vocabulary, x: string, node: NodePat, row: Row, snap: Snapshot, d: DerivedFacts,
      e: EdgeDraw, preds: set<string>)
    requires World(snap, d, preds)
    ensures AllHold(LabelPatterns(v, x, node), row, NodeView(snap, d, e)) &&
            FiltersHold(snap, PropFilters(v, x, node.props), row)
       <==> NodeHolds(v, snap, node, x, row)
    ensures FiltersHold(snap, PropFilters(v, x, node.props), row) && Clear(PropFilters(v, x, node.props), snap, d) ==>
              AllHold(BindingPatterns(v, x, node), row, NodeView(snap, d, e))
  {
    var ctx, fs := NodeView(snap, d, e), PropFilters(v, x, node.props);
    if node.nodeLabel.Some? {
      AllHoldOne(LabelPattern(v, x, node.nodeLabel.value), row, ctx);
      PlainHolds(x, RDF_TYPE, Bound(v.classNode(node.nodeLabel.value)), row, snap, d, e);
    }
    if FiltersHold(snap, fs, row) {
      forall i | 0 <= i < |node.props|
        ensures FilterHolds(snap, ValueFilter(x, v.resolve(node.props[i].0), node.props[i].1), row)
      {
        assert FilterHolds(snap, fs[i], row);
      }
      if Clear(fs, snap, d) && node.nodeLabel.None? && node.props != [] {
        assert FilterHolds(snap, fs[0], row);
        ScanImplied(fs[0], row, snap, d, e);
        AllHoldOne(PlainPattern(x, v.resolve(node.props[0].0), Any), row, ctx);
      }
    }
  }

  lemma NodeFiltersSat(v: Vocabulary, x: string, node: NodePat, out: Output, row: Row, snap: Snapshot,
      d: DerivedFacts, e: EdgeDraw, preds: set<string>)
    requires World(snap, d, preds)
    ensures Sat(EmitNodeFilters(v, x, node, out), row, snap, d, e)
       <==> Sat(out, row, snap, d, e) && NodeHolds(v, snap, node, x, row)
  {
    NodePatternsHold(v, x, node, row, snap, d, e, preds);
    AllHoldConcat(out.patterns, LabelPatterns(v, x, node), row, NodeView(snap, d, e));
    FiltersHoldConcat(snap, out.filters, PropFilters(v, x, node.props), row);
  }

  lemma NodeBindingSat(v: Vocabulary, x: string, node: NodePat, out: Output, row: Row, snap: Snapshot,
      d: DerivedFacts, e: EdgeDraw, preds: set<string>)
    requires World(snap, d, preds) && Clear(PropFilters(v, x, node.props), snap, d)
    ensures Sat(EmitNodeBinding(v, x, node, out), row, snap, d, e)
       <==> Sat(out, row, snap, d, e) && NodeHolds(v, snap, node, x, row)
  {
    NodePatternsHold(v, x, node, row, snap, d, e, preds);
    AllHoldConcat(out.patterns, LabelPatterns(v, x, node), row, NodeView(snap, d, e));
    AllHoldConcat(out.patterns + LabelPatterns(v, x, node), BindingPatterns(v, x, node), row, NodeView(snap, d, e));
    FiltersHoldConcat(snap, out.filters, PropFilters(v, x, node.props), row);
  }

  /** What a relationship asks of the derived facts: an unbounded one is among the
      closures, a single step does not bear a closure's name. */
  predicate RelFits(v: Vocabulary, rel: RelPat, d: DerivedFacts, preds: set<string>) {
    (rel.recursive && rel.maxHops.None? ==> v.resolve(rel.pred) in preds) &&
    (!rel.recursive ==> v.resolve(rel.pred) !in d)
  }

  lemma RelSat(v: Vocabulary, rel: RelPat, direction: Direction, x: string, y: string, out: Output, row: Row,
      snap: Snapshot, d: DerivedFacts, e: EdgeDraw, preds: set<string>)
    requires World(snap, d, preds) && RelFits(v, rel, d, preds)
    ensures Sat(EmitRel(v, rel, direction, x, y, out), row, snap, d, e)
       <==> Sat(out, row, snap, d, e) && RelHolds(v, snap, rel, direction, x, y, row)
  {
    var vp := RelPattern(v, rel, direction, x, y);
    AllHoldConcat(out.patterns, [vp], row, NodeView(snap, d, e));
    AllHoldOne(vp, row, NodeView(snap, d, e));
    RelPatternHolds(v, rel, direction, x, y, row, snap, d, e, preds);
  }

  lemma RelPatternHolds(v: Vocabulary, rel: RelPat, direction: Direction, x: string, y: string, row: Row,
      snap: Snapshot, d: DerivedFacts, e: EdgeDraw, preds: set<string>)
    requires World(snap, d, preds) && RelFits(v, rel, d, preds)
    ensures PatternHolds(RelPattern(v, rel, direction, x, y), row, NodeView(snap, d, e))
       <==> RelHolds(v, snap, rel, direction, x, y, row)
  {
    var p, s, o := v.resolve(rel.pred), HopSubject(direction, x, y), HopObject(direction, x, y);
    if !rel.recursive {
      EdgePatternHolds(s, p, o, rel.variable, row, snap, d, e);
    } else if rel.maxHops.Some? {
      WalkPatternHolds(s, p, o, rel.maxHops.value, row, snap, d, e);
    } else {
      ClosurePatternHolds(s, Tc(p), o, row, snap, d, e);
    }
  }

  predicate HopsFit(v: Vocabulary, hops: seq<HopPat>, d: DerivedFacts, preds: set<string>) {
    forall i :: 0 <= i < |hops| ==> RelFits(v, hops[i].rel, d, preds)
  }

  lemma {:induction false} HopsSat(v: Vocabulary, hops: seq<HopPat>, x: string, out: Output, row: Row,
      snap: Snapshot, d: DerivedFacts, e: EdgeDraw, preds: set<string>)
    requires World(snap, d, preds) && HopsFit(v, hops, d, preds)
    ensures Sat(EmitHops(v, hops, x, out), row, snap, d, e)
       <==> Sat(out, row, snap, d, e) && HopsHold(v, snap, hops, x, out.anon, row)
    ensures EmitHops(v, hops, x, out).anon == AnonAfterHops(hops, out.anon)
    decreases |hops|
  {
    if hops != [] {
      var hop, y := hops[0], NameOf(hops[0].end.variable, out.anon);
      var named := out.(anon := NextAnon(hop.end.variable, out.anon));
      assert Sat(named, row, snap, d, e) <==> Sat(out, row, snap, d, e);
      RelSat(v, hop.rel, hop.direction, x, y, named, row, snap, d, e, preds);
      NodeFiltersSat(v, y, hop.end, EmitRel(v, hop.rel, hop.direction, x, y, named), row, snap, d, e, preds);
      HopsSat(v, hops[1..], y, EmitHop(v, hop, x, out), row, snap, d, e, preds);
    }
  }

  lemma PathSat(v: Vocabulary, path: CypherPath, out: Output, row: Row, snap: Snapshot, d: DerivedFacts, e: EdgeDraw,
      preds: set<string>)
    requires World(snap, d, preds) && HopsFit(v, path.hops, d, preds) && Clear(EmitPath(v, path, out).filters, snap, d)
    ensures Sat(EmitPath(v, path, out), row, snap, d, e)
       <==> Sat(out, row, snap, d, e) && PathHolds(v, snap, path, out.anon, row)
    ensures EmitPath(v, path, out).anon == AnonAfter(path, out.anon)
  {
    var x := NameOf(path.start.variable, out.anon);
    var named := out.(anon := NextAnon(path.start.variable, out.anon));
    assert Sat(named, row, snap, d, e) <==> Sat(out, row, snap, d, e);
    if path.hops == [] {
      ClearTail(out.filters, PropFilters(v, x, path.start.props), snap, d);
      NodeBindingSat(v, x, path.start, named, row, snap, d, e, preds);
    } else {
      NodeFiltersSat(v, x, path.start, named, row, snap, d, e, preds);
      HopsSat(v, path.hops, x, EmitNodeFilters(v, x, path.start, named), row, snap, d, e, preds);
    }
  }

  lemma ClearTail(a: seq<ValueFilter>, b: seq<ValueFilter>, snap: Snapshot, d: DerivedFacts)
    requires Clear(a + b, snap, d)
    ensures Clear(b, snap, d)
  {
    forall i | 0 <= i < |b| && b[i].pred in d ensures !snap.Stored(b[i].pred) { assert (a + b)[|a| + i] == b[i]; }
  }

  lemma {:induction false} HopsFilters(v: Vocabulary, hops: seq<HopPat>, x: string, out: Output)
    ensures out.filters <= EmitHops(v, hops, x, out).filters
    decreases |hops|
  {
    if hops != [] { HopsFilters(v, hops[1..], NameOf(hops[0].end.variable, out.anon), EmitHop(v, hops[0], x, out)); }
  }

  lemma {:induction false} PathsFilters(v: Vocabulary, paths: seq<CypherPath>, out: Output)
    ensures out.filters <= EmitPaths(v, paths, out).filters
  {
    if paths != [] {
      var x := NameOf(paths[0].start.variable, out.anon);
      var named := out.(anon := NextAnon(paths[0].start.variable, out.anon));
      HopsFilters(v, paths[0].hops, x, EmitNodeFilters(v, x, paths[0].start, named));
      PathsFilters(v, paths[1..], EmitPath(v, paths[0], out));
    }
  }

  lemma {:induction false} PathsSat(v: Vocabulary, paths: seq<CypherPath>, out: Output, row: Row, snap: Snapshot,
      d: DerivedFacts, e: EdgeDraw, preds: set<string>)
    requires World(snap, d, preds) && forall i :: 0 <= i < |paths| ==> HopsFit(v, paths[i].hops, d, preds)
    requires Clear(EmitPaths(v, paths, out).filters, snap, d)
    ensures Sat(EmitPaths(v, paths, out), row, snap, d, e)
       <==> Sat(out, row, snap, d, e) && PathsHold(v, snap, paths, out.anon, row)
  {
    if paths != [] {
      PathsFilters(v, paths[1..], EmitPath(v, paths[0], out));
      PathSat(v, paths[0], out, row, snap, d, e, preds);
      PathsSat(v, paths[1..], EmitPath(v, paths[0], out), row, snap, d, e, preds);
    }
  }

  /** No condition is on a relationship variable. */
  predicate NodeWheres(ws: seq<WhereEq>, edgeVars: set<string>) {
    forall i :: 0 <= i < |ws| ==> ws[i].variable !in edgeVars
  }

  lemma {:induction false} WheresSat(v: Vocabulary, ws: seq<WhereEq>, out: Output, row: Row, snap: Snapshot,
      d: DerivedFacts, e: EdgeDraw)
    requires NodeWheres(ws, out.edgeVars)
    ensures var done := EmitWheres(v, ws, out);
            (Sat(done, row, snap, d, e) <==> Sat(out, row, snap, d, e) && WheresHold(v, snap, ws, row)) &&
            done.patterns == out.patterns && done.rules == out.rules && done.closed == out.closed
  {
    if ws != [] {
      var f := ValueFilter(ws[0].variable, v.resolve(ws[0].prop), ws[0].value);
      var next := EmitWhere(v, ws[0], out);
      WheresSat(v, ws[1..], next, row, snap, d, e);
      FiltersHoldConcat(snap, out.filters, [f], row);
      assert FiltersHold(snap, [f], row) <==> FilterHolds(snap, f, row) by {
        if FiltersHold(snap, [f], row) { assert FilterHolds(snap, [f][0], row); }
      }
      if WheresHold(v, snap, ws, row) {
        forall i | 0 <= i < |ws| - 1
          ensures FilterHolds(snap, ValueFilter(ws[1..][i].variable, v.resolve(ws[1..][i].prop), ws[1..][i].value), row)
        {
          assert ws[1..][i] == ws[i + 1];
        }
      }
      if FilterHolds(snap, f, row) && WheresHold(v, snap, ws[1..], row) {
        forall i | 0 <= i < |ws|
          ensures FilterHolds(snap, ValueFilter(ws[i].variable, v.resolve(ws[i].prop), ws[i].value), row)
        {
          if i > 0 { assert ws[1..][i - 1] == ws[i]; }
        }
      }
    }
  }

  lemma {:induction false} ScansImplied(fs: seq<ValueFilter>, bound: set<string>, row: Row, snap: Snapshot,
      d: DerivedFacts, e: EdgeDraw)
    requires FiltersHold(snap, fs, row) && Clear(fs, snap, d)
    ensures AllHold(ScanPatterns(fs, bound), row, NodeView(snap, d, e))
  {
    if fs != [] {
      forall i | 0 <= i < |fs| - 1 ensures FilterHolds(snap, fs[1..][i], row) { assert fs[1..][i] == fs[i + 1]; }
      assert FilterHolds(snap, fs[0], row);
      ClearTail([fs[0]], fs[1..], snap, d);
      ScansImplied(fs[1..], bound, row, snap, d, e);
      ScansImplied(fs[1..], bound + {fs[0].variable}, row, snap, d, e);
      var vp := PlainPattern(fs[0].variable, fs[0].pred, Any);
      ScanImplied(fs[0], row, snap, d, e);
      AllHoldOne(vp, row, NodeView(snap, d, e));
      AllHoldConcat([vp], ScanPatterns(fs[1..], bound + {fs[0].variable}), row, NodeView(snap, d, e));
    }
  }

  lemma BindFiltersSat(out: Output, row: Row, snap: Snapshot, d: DerivedFacts, e: EdgeDraw)
    requires Clear(out.filters, snap, d)
    ensures Sat(BindFilterVars(out), row, snap, d, e) <==> Sat(out, row, snap, d, e)
  {
    var scans := ScanPatterns(out.filters, BoundVars(out.patterns));
    AllHoldConcat(out.patterns, scans, row, NodeView(snap, d, e));
    if FiltersHold(snap, out.filters, row) {
      ScansImplied(out.filters, BoundVars(out.patterns), row, snap, d, e);
    }
  }

  // ── Variables the compiled query binds ───────────────────────────────────

  function FilterVars(fs: seq<ValueFilter>): set<string> {
    if fs == [] then {} else {fs[0].variable} + FilterVars(fs[1..])
  }

  function VarsOf(out: Output): set<string> { AllVars(out.patterns) + FilterVars(out.filters) }

  lemma {:induction false} AllVarsConcat(a: seq<VarPattern>, b: seq<VarPattern>)
    ensures AllVars(a + b) == AllVars(a) + AllVars(b)
  {
    if a == [] {
      assert a + b == b;
    } else {
      assert (a + b)[0] == a[0] && (a + b)[1..] == a[1..] + b;
      AllVarsConcat(a[1..], b);
    }
  }

  lemma {:induction false} FilterVarsConcat(a: seq<ValueFilter>, b: seq<ValueFilter>)
    ensures FilterVars(a + b) == FilterVars(a) + FilterVars(b)
  {
    if a == [] {
      assert a + b == b;
    } else {
      assert (a + b)[0] == a[0] && (a + b)[1..] == a[1..] + b;
      FilterVarsConcat(a[1..], b);
    }
  }

  lemma AllVarsOne(vp: VarPattern)
    ensures AllVars([vp]) == PatternVars(vp)
  {
    assert [vp][1..] == [];
  }

  lemma {:induction false} PropFilterVars(v: Vocabulary, x: string, props: seq<(string, FilterValue)>)
    ensures FilterVars(PropFilters(v, x, props)) == if props == [] then {} else {x}
  {
    if props != [] {
      PropFilterVars(v, x, props[1..]);
      assert PropFilters(v, x, props)[1..] == PropFilters(v, x, props[1..]);
    }
  }

  lemma NodeFiltersVars(v: Vocabulary, x: string, node: NodePat, out: Output)
    ensures VarsOf(EmitNodeFilters(v, x, node, out)) == VarsOf(out) + if Bare(node) then {} else {x}
  {
    AllVarsConcat(out.patterns, LabelPatterns(v, x, node));
    FilterVarsConcat(out.filters, PropFilters(v, x, node.props));
    PropFilterVars(v, x, node.props);
    if node.nodeLabel.Some? { AllVarsOne(LabelPattern(v, x, node.nodeLabel.value)); }
  }

  lemma NodeBindingVars(v: Vocabulary, x: string, node: NodePat, out: Output)
    ensures VarsOf(EmitNodeBinding(v, x, node, out)) == VarsOf(out) + if Bare(node) then {} else {x}
  {
    NodeFiltersVars(v, x, node, out);
    AllVarsConcat(out.patterns + LabelPatterns(v, x, node), BindingPatterns(v, x, node));
    if node.nodeLabel.None? && node.props != [] { AllVarsOne(PlainPattern(x, v.resolve(node.props[0].0), Any)); }
  }

  lemma RelVars(v: Vocabulary, rel: RelPat, direction: Direction, x: string, y: string, out: Output)
    ensures VarsOf(EmitRel(v, rel, direction, x, y, out)) == VarsOf(out) + {x, y} + RelNames(rel)
  {
    AllVarsConcat(out.patterns, [RelPattern(v, rel, direction, x, y)]);
    AllVarsOne(RelPattern(v, rel, direction, x, y));
  }

  lemma {:induction false} HopsVars(v: Vocabulary, hops: seq<HopPat>, x: string, out: Output)
    ensures VarsOf(EmitHops(v, hops, x, out))
         == VarsOf(out) + HopsNames(hops, out.anon) + if hops == [] then {} else {x}
    decreases |hops|
  {
    if hops != [] {
      var hop, y := hops[0], NameOf(hops[0].end.variable, out.anon);
      var named := out.(anon := NextAnon(hop.end.variable, out.anon));
      RelVars(v, hop.rel, hop.direction, x, y, named);
      NodeFiltersVars(v, y, hop.end, EmitRel(v, hop.rel, hop.direction, x, y, named));
      HopsVars(v, hops[1..], y, EmitHop(v, hop, x, out));
    }
  }

  lemma {:induction false} AnonHops(v: Vocabulary, hops: seq<HopPat>, x: string, out: Output)
    ensures EmitHops(v, hops, x, out).anon == AnonAfterHops(hops, out.anon)
    decreases |hops|
  {
    if hops != [] { AnonHops(v, hops[1..], NameOf(hops[0].end.variable, out.anon), EmitHop(v, hops[0], x, out)); }
  }

  lemma PathVars(v: Vocabulary, path: CypherPath, out: Output)
    ensures VarsOf(EmitPath(v, path, out)) == VarsOf(out) + PathNames(path, out.anon)
    ensures EmitPath(v, path, out).anon == AnonAfter(path, out.anon)
  {
    var x := NameOf(path.start.variable, out.anon);
    var named := out.(anon := NextAnon(path.start.variable, out.anon));
    NodeBindingVars(v, x, path.start, named);
    NodeFiltersVars(v, x, path.start, named);
    HopsVars(v, path.hops, x, EmitNodeFilters(v, x, path.start, named));
    AnonHops(v, path.hops, x, EmitNodeFilters(v, x, path.start, named));
  }

  lemma {:induction false} PathsVars(v: Vocabulary, paths: seq<CypherPath>, out: Output)
    ensures VarsOf(EmitPaths(v, paths, out)) == VarsOf(out) + PathsNames(paths, out.anon)
  {
    if paths != [] {
      PathVars(v, paths[0], out);
      PathsVars(v, paths[1..], EmitPath(v, paths[0], out));
    }
  }

  lemma {:induction false} WheresVars(v: Vocabulary, ws: seq<WhereEq>, out: Output)
    requires NodeWheres(ws, out.edgeVars)
    ensures VarsOf(EmitWheres(v, ws, out)) == VarsOf(out) + WhereNames(ws)
  {
    if ws != [] {
      var f := ValueFilter(ws[0].variable, v.resolve(ws[0].prop), ws[0].value);
      FilterVarsConcat(out.filters, [f]);
      assert FilterVars([f]) == {f.variable} by { assert [f][1..] == []; }
      WheresVars(v, ws[1..], EmitWhere(v, ws[0], out));
    }
  }

  lemma {:induction false} BoundVarsInAll(ps: seq<VarPattern>)
    ensures BoundVars(ps) <= AllVars(ps)
  {
    if ps != [] { BoundVarsInAll(ps[1..]); }
  }

  lemma {:induction false} ScanVars(fs: seq<ValueFilter>, bound: set<string>)
    ensures bound + AllVars(ScanPatterns(fs, bound)) == bound + FilterVars(fs)
  {
    if fs != [] {
      var x := fs[0].variable;
      if x in bound {
        ScanVars(fs[1..], bound);
      } else {
        ScanVars(fs[1..], bound + {x});
        var vp := PlainPattern(x, fs[0].pred, Any);
        AllVarsConcat([vp], ScanPatterns(fs[1..], bound + {x}));
        AllVarsOne(vp);
      }
    }
  }

  /** After the added scans every constrained variable is bound by a pattern. */
  lemma BindFiltersVars(out: Output)
    ensures AllVars(BindFilterVars(out).patterns) == VarsOf(out)
  {
    var bound := BoundVars(out.patterns);
    AllVarsConcat(out.patterns, ScanPatterns(out.filters, bound));
    ScanVars(out.filters, bound);
    BoundVarsInAll(out.patterns);
  }

  // ── Rules and shape of the output ────────────────────────────────────────

  predicate Wellformed(out: Output) {
    AllSimple(out.patterns) && ClosureProgram(Program([], out.rules), out.closed) && |out.rules| == 2 * |out.closed|
  }

  lemma SimpleConcat(a: seq<VarPattern>, b: seq<VarPattern>)
    requires AllSimple(a) && AllSimple(b)
    ensures AllSimple(a + b)
  {}

  lemma NodeWellformed(v: Vocabulary, x: string, node: NodePat, out: Output)
    requires Wellformed(out)
    ensures Wellformed(EmitNodeFilters(v, x, node, out)) && Wellformed(EmitNodeBinding(v, x, node, out))
  {
    SimpleConcat(out.patterns, LabelPatterns(v, x, node));
    SimpleConcat(out.patterns + LabelPatterns(v, x, node), BindingPatterns(v, x, node));
  }

  lemma AddBase(rules: seq<Rule>, base: Rule, step: Rule)
    requires BasesFirst(Program([], rules)) && |base.body| != 2 && step.head == base.head
    ensures BasesFirst(Program([], rules + [base, step]))
  {
    var prog, prog' := Program([], rules), Program([], rules + [base, step]);
    forall i | 0 <= i < |prog'.rules| && |prog'.rules[i].body| == 2
      ensures HeadedBefore(prog', prog'.rules[i].head, i)
    {
      if i < |rules| {
        var j :| 0 <= j < i && prog.rules[j].head == prog.rules[i].head;
        assert prog'.rules[j].head == prog'.rules[i].head;
      } else {
        assert prog'.rules[|rules|].head == step.head;
      }
    }
  }

  lemma AddClosure(rules: seq<Rule>, closed: set<string>, p: string)
    requires ClosureProgram(Program([], rules), closed)
    ensures ClosureProgram(Program([], rules + [BaseRule(Tc(p), p), StepRule(Tc(p), p)]), closed + {p})
  {
    var base, step := BaseRule(Tc(p), p), StepRule(Tc(p), p);
    var more := rules + [base, step];
    forall i | 0 <= i < |more| ensures ClosureRule(more[i], closed + {p}) {
      if i < |rules| {
        assert ClosureRule(rules[i], closed);
      } else {
        assert p in closed + {p};
      }
    }
    assert more[|rules|] == base && more[|rules| + 1] == step;
    assert BasesFirst(Program([], more)) by { AddBase(rules, base, step); }
    forall q | q in closed + {p} ensures BaseRule(Tc(q), q) in more && StepRule(Tc(q), q) in more {
      if q in closed { assert BaseRule(Tc(q), q) in rules && StepRule(Tc(q), q) in rules; }
    }
  }

  lemma RelWellformed(v: Vocabulary, rel: RelPat, direction: Direction, x: string, y: string, out: Output)
    requires Wellformed(out)
    ensures Wellformed(EmitRel(v, rel, direction, x, y, out))
  {
    SimpleConcat(out.patterns, [RelPattern(v, rel, direction, x, y)]);
    if Unbounded(rel) { RulesWellformed(out.rules, out.closed, v.resolve(rel.pred)); }
  }

  lemma RulesWellformed(rules: seq<Rule>, closed: set<string>, pred: string)
    requires ClosureProgram(Program([], rules), closed) && |rules| == 2 * |closed|
    ensures var more := rules + ClosureRules(pred, closed);
            ClosureProgram(Program([], more), closed + {pred}) && |more| == 2 * |closed + {pred}|
  {
    hide ClosureProgram;
    if pred in closed {
      assert closed + {pred} == closed && rules + ClosureRules(pred, closed) == rules;
    } else {
      AddClosure(rules, closed, pred);
    }
  }

  lemma {:induction false} HopsWellformed(v: Vocabulary, hops: seq<HopPat>, x: string, out: Output)
    requires Wellformed(out)
    ensures Wellformed(EmitHops(v, hops, x, out))
    decreases |hops|
  {
    if hops != [] {
      var hop, y := hops[0], NameOf(hops[0].end.variable, out.anon);
      var named := out.(anon := NextAnon(hop.end.variable, out.anon));
      RelWellformed(v, hop.rel, hop.direction, x, y, named);
      NodeWellformed(v, y, hop.end, EmitRel(v, hop.rel, hop.direction, x, y, named));
      HopsWellformed(v, hops[1..], y, EmitHop(v, hop, x, out));
    }
  }

  lemma {:induction false} PathsWellformed(v: Vocabulary, paths: seq<CypherPath>, out: Output)
    requires Wellformed(out)
    ensures Wellformed(EmitPaths(v, paths, out))
  {
    if paths != [] {
      var x := NameOf(paths[0].start.variable, out.anon);
      var named := out.(anon := NextAnon(paths[0].start.variable, out.anon));
      NodeWellformed(v, x, paths[0].start, named);
      HopsWellformed(v, paths[0].hops, x, EmitNodeFilters(v, x, paths[0].start, named));
      PathsWellformed(v, paths[1..], EmitPath(v, paths[0], out));
    }
  }

  lemma {:induction false} ScansSimple(fs: seq<ValueFilter>, bound: set<string>)
    ensures AllSimple(ScanPatterns(fs, bound))
  {
    if fs != [] {
      ScansSimple(fs[1..], bound);
      ScansSimple(fs[1..], bound + {fs[0].variable});
      SimpleConcat([PlainPattern(fs[0].variable, fs[0].pred, Any)], ScanPatterns(fs[1..], bound + {fs[0].variable}));
    }
  }

  lemma {:induction false} WheresKeep(v: Vocabulary, ws: seq<WhereEq>, out: Output)
    ensures var done := EmitWheres(v, ws, out);
              done.patterns == out.patterns && done.rules == out.rules && done.closed == out.closed &&
              out.filters <= done.filters
  {
    if ws != [] { WheresKeep(v, ws[1..], EmitWhere(v, ws[0], out)); }
  }

  /** Two rules per unbounded predicate, however many relationships use it. */
  lemma CompileWellformed(v: Vocabulary, q: CypherQuery)
    ensures Wellformed(Compile(v, q))
  {
    var paths := EmitPaths(v, q.paths, START);
    assert Wellformed(START);
    PathsWellformed(v, q.paths, START);
    WheresKeep(v, q.wheres, paths);
    var out := EmitWheres(v, q.wheres, paths);
    ScansSimple(out.filters, BoundVars(out.patterns));
    SimpleConcat(out.patterns, ScanPatterns(out.filters, BoundVars(out.patterns)));
  }

  // ── Relationship variables ───────────────────────────────────────────────

  /** Edge variables stand on stored predicates only. */
  predicate EdgesOff(ps: seq<VarPattern>, d: DerivedFacts) {
    forall i :: 0 <= i < |ps| && ps[i].edgeVar.Some? ==> ps[i].pred.Some? && ps[i].pred.value !in d
  }

  lemma EdgesOffConcat(a: seq<VarPattern>, b: seq<VarPattern>, d: DerivedFacts)
    requires EdgesOff(a, d) && EdgesOff(b, d)
    ensures EdgesOff(a + b, d)
  {}

  lemma {:induction false} HopsEdgesOff(v: Vocabulary, hops: seq<HopPat>, x: string, out: Output, d: DerivedFacts,
      preds: set<string>)
    requires EdgesOff(out.patterns, d) && HopsFit(v, hops, d, preds)
    ensures EdgesOff(EmitHops(v, hops, x, out).patterns, d)
    decreases |hops|
  {
    if hops != [] {
      var hop, y := hops[0], NameOf(hops[0].end.variable, out.anon);
      var rel := RelPattern(v, hop.rel, hop.direction, x, y);
      EdgesOffConcat(out.patterns, [rel], d);
      EdgesOffConcat(out.patterns + [rel], LabelPatterns(v, y, hop.end), d);
      HopsEdgesOff(v, hops[1..], y, EmitHop(v, hop, x, out), d, preds);
    }
  }

  lemma PathEdgesOff(v: Vocabulary, path: CypherPath, out: Output, d: DerivedFacts, preds: set<string>)
    requires EdgesOff(out.patterns, d) && HopsFit(v, path.hops, d, preds)
    ensures EdgesOff(EmitPath(v, path, out).patterns, d)
  {
    var x := NameOf(path.start.variable, out.anon);
    var named := out.(anon := NextAnon(path.start.variable, out.anon));
    EdgesOffConcat(out.patterns, LabelPatterns(v, x, path.start), d);
    EdgesOffConcat(out.patterns + LabelPatterns(v, x, path.start), BindingPatterns(v, x, path.start), d);
    HopsEdgesOff(v, path.hops, x, EmitNodeFilters(v, x, path.start, named), d, preds);
  }

  lemma {:induction false} PathsEdgesOff(v: Vocabulary, paths: seq<CypherPath>, out: Output, d: DerivedFacts,
      preds: set<string>)
    requires EdgesOff(out.patterns, d) && forall i :: 0 <= i < |paths| ==> HopsFit(v, paths[i].hops, d, preds)
    ensures EdgesOff(EmitPaths(v, paths, out).patterns, d)
  {
    if paths != [] {
      PathEdgesOff(v, paths[0], out, d, preds);
      PathsEdgesOff(v, paths[1..], EmitPath(v, paths[0], out), d, preds);
    }
  }

  lemma {:induction false} ScansEdgesOff(fs: seq<ValueFilter>, bound: set<string>, d: DerivedFacts)
    ensures EdgesOff(ScanPatterns(fs, bound), d)
  {
    if fs != [] {
      ScansEdgesOff(fs[1..], bound, d);
      ScansEdgesOff(fs[1..], bound + {fs[0].variable}, d);
      EdgesOffConcat([PlainPattern(fs[0].variable, fs[0].pred, Any)], ScanPatterns(fs[1..], bound + {fs[0].variable}),
        d);
    }
  }

  /** No compiled pattern looks at the edge of a derived fact. */
  lemma CompiledEdgesOff(v: Vocabulary, q: CypherQuery, d: DerivedFacts, preds: set<string>)
    requires forall i :: 0 <= i < |q.paths| ==> HopsFit(v, q.paths[i].hops, d, preds)
    ensures EdgesOff(Compile(v, q).patterns, d)
  {
    var paths := EmitPaths(v, q.paths, START);
    PathsEdgesOff(v, q.paths, START, d, preds);
    WheresKeep(v, q.wheres, paths);
    var out := EmitWheres(v, q.wheres, paths);
    ScansEdgesOff(out.filters, BoundVars(out.patterns), d);
    EdgesOffConcat(out.patterns, ScanPatterns(out.filters, BoundVars(out.patterns)), d);
  }

  // ── Closed predicates ────────────────────────────────────────────────────

  lemma {:induction false} HopsClosed(v: Vocabulary, hops: seq<HopPat>, x: string, out: Output)
    ensures out.closed <= EmitHops(v, hops, x, out).closed
    ensures forall i :: 0 <= i < |hops| && hops[i].rel.recursive && hops[i].rel.maxHops.None? ==>
              v.resolve(hops[i].rel.pred) in EmitHops(v, hops, x, out).closed
    decreases |hops|
  {
    if hops != [] {
      HopsClosed(v, hops[1..], NameOf(hops[0].end.variable, out.anon), EmitHop(v, hops[0], x, out));
      assert forall i :: 0 < i < |hops| ==> hops[i] == hops[1..][i - 1];
    }
  }

  predicate UnboundedIn(v: Vocabulary, path: CypherPath, closed: set<string>) {
    forall i :: 0 <= i < |path.hops| && path.hops[i].rel.recursive && path.hops[i].rel.maxHops.None? ==>
      v.resolve(path.hops[i].rel.pred) in closed
  }

  lemma {:induction false} PathsClosed(v: Vocabulary, paths: seq<CypherPath>, out: Output)
    ensures out.closed <= EmitPaths(v, paths, out).closed
    ensures forall i :: 0 <= i < |paths| ==> UnboundedIn(v, paths[i], EmitPaths(v, paths, out).closed)
  {
    if paths != [] {
      var x := NameOf(paths[0].start.variable, out.anon);
      var named := out.(anon := NextAnon(paths[0].start.variable, out.anon));
      HopsClosed(v, paths[0].hops, x, EmitNodeFilters(v, x, paths[0].start, named));
      PathsClosed(v, paths[1..], EmitPath(v, paths[0], out));
      assert forall i :: 0 < i < |paths| ==> paths[i] == paths[1..][i - 1];
    }
  }

  // ── The theorem ──────────────────────────────────────────────────────────

  /** No relationship other than a bounded walk bears the derived name of a
      closure in the same query. */
  predicate NoClash(v: Vocabulary, path: CypherPath, closed: set<string>) {
    forall i, p ::
      0 <= i < |path.hops| && p in closed && (path.hops[i].rel.recursive ==> path.hops[i].rel.maxHops.None?)
      ==> v.resolve(path.hops[i].rel.pred) != Tc(p)
  }

  /** Conditions a caller can check: derived names are not used as relationship
      types, nor asked for as properties if they are stored, and conditions are on
      node variables. */
  ghost predicate Supported(v: Vocabulary, q: CypherQuery, snap: Snapshot) {
    var out := Compile(v, q);
    snap.Valid() && NoCapture(out.closed) &&
    (forall i :: 0 <= i < |q.paths| ==> NoClash(v, q.paths[i], out.closed)) &&
    (forall i, p ::
       0 <= i < |out.filters| && p in out.closed && out.filters[i].pred == Tc(p) ==> !snap.Stored(Tc(p))) &&
    NodeWheres(q.wheres, EmitPaths(v, q.paths, START).edgeVars)
  }

  function QueryProgram(v: Vocabulary, q: CypherQuery): Program { Program([], Compile(v, q).rules) }

  lemma TypeIsNoClosure(p: string)
    ensures Tc(p) != RDF_TYPE
  {
    assert Tc(p)[0] == '_' && RDF_TYPE[0] == 'h';
  }

  lemma CompiledWorld(v: Vocabulary, q: CypherQuery, snap: Snapshot, d: DerivedFacts)
    requires Supported(v, q, snap) && IsLeastModel(QueryProgram(v, q), snap, d)
    ensures World(snap, d, Compile(v, q).closed) && Clear(Compile(v, q).filters, snap, d)
    ensures forall i :: 0 <= i < |q.paths| ==> HopsFit(v, q.paths[i].hops, d, Compile(v, q).closed)
  {
    var prog, closed := QueryProgram(v, q), Compile(v, q).closed;
    CompileWellformed(v, q);
    forall h ensures h in d <==> exists p :: p in closed && h == Tc(p) { ClosureKeys(prog, closed, h); }
    forall p | p in closed ensures Tc(p) != RDF_TYPE { TypeIsNoClosure(p); }
    forall p, s: NodeId, o: NodeId | p in closed ensures Fact(snap, d, Tc(p), s, o) <==> Reaches(snap, p, s, o) {
      ClosureMeaning(prog, closed, snap, d, p, s, o);
    }
    PathsClosed(v, q.paths, START);
    WheresKeep(v, q.wheres, EmitPaths(v, q.paths, START));
    forall i, j | 0 <= i < |q.paths| && 0 <= j < |q.paths[i].hops|
      ensures RelFits(v, q.paths[i].hops[j].rel, d, closed)
    {
      var rel := q.paths[i].hops[j].rel;
      assert UnboundedIn(v, q.paths[i], closed) && NoClash(v, q.paths[i], closed);
    }
  }

  /** Over the closures its rules derive, the compiled patterns and filters are
      satisfied by exactly the rows over named positions. */
  lemma CompiledMeansNamed(v: Vocabulary, q: CypherQuery, snap: Snapshot, d: DerivedFacts, e: EdgeDraw,
      r: Solution)
    requires Supported(v, q, snap) && IsLeastModel(QueryProgram(v, q), snap, d)
    ensures (IsAnswer(Compile(v, q).patterns, EMPTY, r, NodeView(snap, d, e)) &&
             FiltersHold(snap, Compile(v, q).filters, r.nodes))
       <==> (QueryHolds(v, snap, q, r.nodes) && r == AsSolution(r.nodes))
  {
    var ctx, out := NodeView(snap, d, e), Compile(v, q);
    CompiledWorld(v, q, snap, d);
    CompileWellformed(v, q);
    CompiledSat(v, q, r.nodes, snap, d, e);
    if IsAnswer(out.patterns, EMPTY, r, ctx) { SimpleAnswerShape(out.patterns, r, ctx); }
    if r == AsSolution(r.nodes) { SimpleAnswer(out.patterns, r.nodes, ctx); }
  }

  lemma CompiledSat(v: Vocabulary, q: CypherQuery, row: Row, snap: Snapshot, d: DerivedFacts, e: EdgeDraw)
    requires World(snap, d, Compile(v, q).closed) && Clear(Compile(v, q).filters, snap, d)
    requires NodeWheres(q.wheres, EmitPaths(v, q.paths, START).edgeVars)
    requires forall i :: 0 <= i < |q.paths| ==> HopsFit(v, q.paths[i].hops, d, Compile(v, q).closed)
    ensures Sat(Compile(v, q), row, snap, d, e)
       <==> PathsHold(v, snap, q.paths, 0, row) && WheresHold(v, snap, q.wheres, row)
    ensures AllVars(Compile(v, q).patterns) == PathsNames(q.paths, 0) + WhereNames(q.wheres)
  {
    hide World, PathsNames, WhereNames, PathsHold, WheresHold, HopsFit, FilterHolds, PatternHolds;
    var closed := Compile(v, q).closed;
    var paths := EmitPaths(v, q.paths, START);
    var out := EmitWheres(v, q.wheres, paths);
    WheresKeep(v, q.wheres, paths);
    PathsSat(v, q.paths, START, row, snap, d, e, closed);
    WheresSat(v, q.wheres, paths, row, snap, d, e);
    BindFiltersSat(out, row, snap, d, e);
    PathsVars(v, q.paths, START);
    WheresVars(v, q.wheres, paths);
    BindFiltersVars(out);
  }
}
