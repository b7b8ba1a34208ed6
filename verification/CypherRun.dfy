/** Running a Cypher query (crates/polargraph-server/src/service.rs): compile,
    derive, evaluate, filter; and when the rows returned are those of the query. */
module CypherRun {
  import opened Sequences
  import opened Store
  import opened Datalog
  import opened Reachability
  import opened Joins
  import opened Evaluator
  import opened Rules
  import opened FixedPoint
  import opened Termination
  import opened Closure
  import opened Cypher
  import opened CypherCompiler
  import opened CypherMeaning
  import opened CypherNames

  // ── Value filters ────────────────────────────────────────────────────────

  ghost function Passing(snap: Snapshot, filters: seq<ValueFilter>): Row -> bool {
    (row: Row) => FiltersHold(snap, filters, row)
  }

  /** Keep, in order and with repetitions, the rows whose variables have every
      required property value; an unbound variable or an unsubstituted parameter
      drops the row. */
  method ApplyValueFilters(rows: seq<Row>, filters: seq<ValueFilter>, snap: Snapshot) returns (out: seq<Row>)
    ensures out == Filter(Passing(snap, filters), rows)
  {
    if filters == [] {
      FilterAll(Passing(snap, filters), rows);
      return rows;
    }
    out := [];
    for i := 0 to |rows|
      invariant out == Filter(Passing(snap, filters), rows[..i])
    {
      assert rows[..i + 1] == rows[..i] + [rows[i]];
      FilterConcat(Passing(snap, filters), rows[..i], [rows[i]]);
      FilterOne(Passing(snap, filters), rows[i]);
      var keep := PassesFilters(rows[i], filters, snap);
      if keep {
        out := out + [rows[i]];
      }
    }
    assert rows[..|rows|] == rows;
  }

  method PassesFilters(row: Row, filters: seq<ValueFilter>, snap: Snapshot) returns (keep: bool)
    ensures keep <==> FiltersHold(snap, filters, row)
  {
    for i := 0 to |filters|
      invariant FiltersHold(snap, filters[..i], row)
    {
      var passes := PassesFilter(row, filters[i], snap);
      if !passes {
        return false;
      }
      assert filters[..i + 1] == filters[..i] + [filters[i]];
    }
    assert filters[..|filters|] == filters;
    return true;
  }

  method PassesFilter(row: Row, f: ValueFilter, snap: Snapshot) returns (keep: bool)
    ensures keep <==> FilterHolds(snap, f, row)
  {
    if f.variable !in row || f.value.ParamValue? {
      return false;
    }
    var node := row[f.variable];
    var triples := snap.ScanBySubjectPredicate(node, f.pred);
    forall t ensures t in triples <==> t in snap.UnionTriples() && t.subject == node && t.pred == f.pred {
      FilterMember(snap.BySubjectPredicate(node, f.pred), snap.UnionTriples(), t);
    }
    keep := exists i :: 0 <= i < |triples| && triples[i].Property? && triples[i].value == f.value.value;
    if FilterHolds(snap, f, row) {
      var t :| t in snap.UnionTriples() && t.Property? && t.subject == node && t.pred == f.pred &&
               t.value == f.value.value;
      assert t in triples;
    }
  }

  // ── The run ──────────────────────────────────────────────────────────────

  function NodeRow(): Solution -> Option<Row> { (sol: Solution) => Some(sol.nodes) }

  method NodesOnly(solutions: seq<Solution>) returns (rows: seq<Row>)
    ensures rows == FilterMap(NodeRow(), solutions)
  {
    rows := [];
    for i := 0 to |solutions|
      invariant rows == FilterMap(NodeRow(), solutions[..i])
    {
      assert solutions[..i + 1] == solutions[..i] + [solutions[i]];
      FilterMapConcat(NodeRow(), solutions[..i], [solutions[i]]);
      FilterMapOne(NodeRow(), solutions[i]);
      rows := rows + [solutions[i].nodes];
    }
    assert solutions[..|solutions|] == solutions;
  }

  /** The rows of a run that derived `d`, in one scan order. */
  ghost function CypherRows(v: Vocabulary, q: CypherQuery, snap: Snapshot, d: DerivedFacts, e: EdgeDraw): seq<Row> {
    Filter(Passing(snap, Compile(v, q).filters),
           FilterMap(NodeRow(), Solve(Compile(v, q).patterns, [EMPTY], NodeView(snap, d, e))))
  }

  lemma NothingDerived(snap: Snapshot)
    ensures IsLeastModel(Program([], []), snap, map[])
  {}

  /** Without derived facts the two ways of reading are one. */
  lemma NoFactsStep(vp: VarPattern, sol: Solution, snap: Snapshot, e: EdgeDraw)
    requires Simple(vp)
    ensures Step(vp, sol, Context(snap, Storage, false)) == Step(vp, sol, NodeView(snap, map[], e))
  {
    var pattern := Substitute(vp, sol, snap);
    var ctx, ctx' := Context(snap, Storage, false), NodeView(snap, map[], e);
    assert Ungraphed(pattern, ctx, Drawn(vp, sol, ctx.view)) == Ungraphed(pattern, ctx', Drawn(vp, sol, ctx'.view));
  }

  lemma {:induction false} NoFactsSolve(ps: seq<VarPattern>, sols: seq<Solution>, snap: Snapshot, e: EdgeDraw)
    requires AllSimple(ps)
    ensures Solve(ps, sols, Context(snap, Storage, false)) == Solve(ps, sols, NodeView(snap, map[], e))
    decreases |ps|
  {
    if ps != [] {
      var f, g := Stepper(ps[0], Context(snap, Storage, false)), Stepper(ps[0], NodeView(snap, map[], e));
      forall s | s in sols ensures f(s) == g(s) { NoFactsStep(ps[0], s, snap, e); }
      FlatMapSame(f, g, sols);
      NoFactsSolve(ps[1..], FlatMap(f, sols), snap, e);
    }
  }

  /** The solutions of the compiled patterns, over the facts its rules derive if it
      has any. */
  method EvaluateCompiled(v: Vocabulary, q: CypherQuery, snap: Snapshot, draws: Draws, edgeOf: EdgeDraw)
      returns (solutions: seq<Solution>, ghost derived: DerivedFacts)
    requires Supported(v, q, snap)
    ensures IsLeastModel(QueryProgram(v, q), snap, derived)
    ensures multiset(solutions) == multiset(Solve(Compile(v, q).patterns, [EMPTY], NodeView(snap, derived, edgeOf)))
  {
    var out := CompileQuery(v, q);
    if out.rules == [] {
      CompileWellformed(v, q);
      NothingDerived(snap);
      NoFactsSolve(out.patterns, [EMPTY], snap, edgeOf);
      derived := map[];
      solutions := EvaluateSolutions(out.patterns, [EMPTY], Context(snap, Storage, false));
    } else {
      CompiledEnds(v, q, snap, draws);
      var facts, passes := ExecuteRecursive(QueryProgram(v, q), snap, draws);
      derived := facts;
      solutions := EvaluateSolutions(out.patterns, [EMPTY], NodeView(snap, facts, edgeOf));
    }
  }

  lemma CompiledEnds(v: Vocabulary, q: CypherQuery, snap: Snapshot, draws: Draws)
    requires Supported(v, q, snap)
    ensures Admissible(QueryProgram(v, q), snap) && RunOf(QueryProgram(v, q), snap, draws).Ends()
  {
    CompileWellformed(v, q);
    ClosureAdmissible(QueryProgram(v, q), Compile(v, q).closed, snap);
    AdmissibleIsContained(QueryProgram(v, q), snap);
    ContainedEnds(QueryProgram(v, q), snap, draws);
  }

  // ── Rows of the query ────────────────────────────────────────────────────

  ghost predicate Returned(q: CypherQuery, rows: seq<Row>, row: Row) {
    exists raw :: raw in rows && Project(q, raw) == row
  }

  /** The rows returned, without anonymous names, are the rows of the query. */
  ghost predicate SameRows(v: Vocabulary, snap: Snapshot, q: CypherQuery, rows: seq<Row>) {
    forall row :: QueryMatches(v, snap, q, row) <==> Returned(q, rows, row)
  }

  lemma EvaluatedAnswers(v: Vocabulary, q: CypherQuery, snap: Snapshot, d: DerivedFacts, e: EdgeDraw, r: Solution)
    requires Supported(v, q, snap) && IsLeastModel(QueryProgram(v, q), snap, d)
    ensures r in Solve(Compile(v, q).patterns, [EMPTY], NodeView(snap, d, e))
       <==> IsAnswer(Compile(v, q).patterns, EMPTY, r, NodeView(snap, d, e))
  {
    hide Supported, Solve, IsAnswer, Compile, IsLeastModel;
    CompiledWorld(v, q, snap, d);
    CompileWellformed(v, q);
    CompiledEdgesOff(v, q, d, Compile(v, q).closed);
    EvaluationIsJoin(Compile(v, q).patterns, EMPTY, r, NodeView(snap, d, e));
  }

  /** The run returns exactly the rows over named positions. */
  lemma RowsAreNamed(v: Vocabulary, q: CypherQuery, snap: Snapshot, d: DerivedFacts, e: EdgeDraw, row: Row)
    requires Supported(v, q, snap) && IsLeastModel(QueryProgram(v, q), snap, d)
    ensures row in CypherRows(v, q, snap, d, e) <==> QueryHolds(v, snap, q, row)
  {
    var out, ctx := Compile(v, q), NodeView(snap, d, e);
    var sols := Solve(out.patterns, [EMPTY], ctx);
    FilterMember(Passing(snap, out.filters), FilterMap(NodeRow(), sols), row);
    FilterMapMember(NodeRow(), sols, row);
    if r :| r in sols && r.nodes == row && FiltersHold(snap, out.filters, row) {
      EvaluatedAnswers(v, q, snap, d, e, r);
      CompiledMeansNamed(v, q, snap, d, e, r);
    }
    if QueryHolds(v, snap, q, row) {
      CompiledMeansNamed(v, q, snap, d, e, AsSolution(row));
      EvaluatedAnswers(v, q, snap, d, e, AsSolution(row));
      assert NodeRow()(AsSolution(row)) == Some(row);
    }
  }

  /** What has to hold for the rows to be right, beyond fresh names: lone bare nodes
      are constrained elsewhere, and an anonymous one has a node to stand for. */
  ghost predicate LoneNodesFound(q: CypherQuery, snap: Snapshot) {
    LoneFixed(q) && (LoneAnonymous(q) ==> HasNode(snap))
  }

  ghost predicate CompiledAnswer(v: Vocabulary, q: CypherQuery, snap: Snapshot, d: DerivedFacts, e: EdgeDraw,
      r: Solution) {
    IsAnswer(Compile(v, q).patterns, EMPTY, r, NodeView(snap, d, e)) &&
    FiltersHold(snap, Compile(v, q).filters, r.nodes)
  }

  /** Compilation preserves meaning: over the least model of its rules, the answers
      of the compiled patterns and filters, without anonymous names, are exactly the
      rows of the query. */
  lemma CompilationPreservesMeaning(v: Vocabulary, q: CypherQuery, snap: Snapshot, d: DerivedFacts, e: EdgeDraw,
      row: Row)
    requires Supported(v, q, snap) && IsLeastModel(QueryProgram(v, q), snap, d)
    requires FreshNames(q) && LoneNodesFound(q, snap)
    ensures QueryMatches(v, snap, q, row)
       <==> exists r :: CompiledAnswer(v, q, snap, d, e, r) && Project(q, r.nodes) == row
  {
    if QueryMatches(v, snap, q, row) {
      var raw := MatchesAreNamedWhole(v, snap, q, row);
      CompiledMeansNamed(v, q, snap, d, e, AsSolution(raw));
      assert CompiledAnswer(v, q, snap, d, e, AsSolution(raw));
    }
    if r :| CompiledAnswer(v, q, snap, d, e, r) && Project(q, r.nodes) == row {
      CompiledMeansNamed(v, q, snap, d, e, r);
      NamedRowsMatch(v, snap, q, r.nodes);
    }
  }

  lemma FoundIsSame(v: Vocabulary, q: CypherQuery, snap: Snapshot, rows: seq<Row>)
    requires (forall row :: row in rows <==> QueryHolds(v, snap, q, row)) && FreshNames(q) && LoneNodesFound(q, snap)
    ensures SameRows(v, snap, q, rows)
  {
    forall row ensures QueryMatches(v, snap, q, row) <==> Returned(q, rows, row) {
      if QueryMatches(v, snap, q, row) { var raw := MatchesAreNamedWhole(v, snap, q, row); }
      if raw :| raw in rows && Project(q, raw) == row { NamedRowsMatch(v, snap, q, raw); }
    }
  }

  lemma NothingIsSame(v: Vocabulary, q: CypherQuery, snap: Snapshot)
    requires (forall row :: !QueryHolds(v, snap, q, row)) && FreshNames(q)
    ensures SameRows(v, snap, q, [])
  {
    forall row ensures !QueryMatches(v, snap, q, row) {
      if QueryMatches(v, snap, q, row) { var raw := MatchesAreNamed(v, snap, q, row); }
    }
  }

  lemma MissedIsNotSame(v: Vocabulary, q: CypherQuery, snap: Snapshot, rows: seq<Row>, raw: Row)
    requires raw in rows && QueryHolds(v, snap, q, raw) && FreshNames(q) && Sorted(q) && !LoneNodesFound(q, snap)
    ensures !SameRows(v, snap, q, rows)
  {
    var row := Project(q, raw);
    assert Returned(q, rows, row);
    if !LoneFixed(q) {
      LoneUnbound(v, snap, q, raw);
    } else {
      var i :| 0 <= i < |q.paths| && Lone(q.paths[i]) && q.paths[i].start.variable.None?;
      assert !PathMatches(v, snap, q.paths[i], row);
    }
    assert !QueryMatches(v, snap, q, row);
  }

  /** With fresh names, the rows returned are the rows of the query exactly when
      there are none or every lone bare node is found. */
  lemma RowsExact(v: Vocabulary, q: CypherQuery, snap: Snapshot, rows: seq<Row>)
    requires (forall row :: row in rows <==> QueryHolds(v, snap, q, row)) && FreshNames(q) && Sorted(q)
    ensures SameRows(v, snap, q, rows) <==> rows == [] || LoneNodesFound(q, snap)
  {
    if rows == [] {
      assert forall row :: QueryHolds(v, snap, q, row) ==> row in rows;
      NothingIsSame(v, q, snap);
    } else if LoneNodesFound(q, snap) {
      FoundIsSame(v, q, snap, rows);
    } else {
      assert rows[0] in rows;
      MissedIsNotSame(v, q, snap, rows, rows[0]);
    }
  }

  /** Compile, derive, evaluate, filter. The rows are those of the query, repeated
      as the scans repeat them, whenever its names are fresh and its lone bare nodes
      found; and if some row comes back, only then. */
  method RunCypher(v: Vocabulary, q: CypherQuery, snap: Snapshot, draws: Draws, edgeOf: EdgeDraw)
      returns (rows: seq<Row>, ghost derived: DerivedFacts)
    requires Supported(v, q, snap)
    ensures IsLeastModel(QueryProgram(v, q), snap, derived)
    ensures multiset(rows) == multiset(CypherRows(v, q, snap, derived, edgeOf))
    ensures FreshNames(q) && LoneNodesFound(q, snap) ==> SameRows(v, snap, q, rows)
    ensures FreshNames(q) && Sorted(q) ==> (SameRows(v, snap, q, rows) <==> rows == [] || LoneNodesFound(q, snap))
  {
    var out := CompileQuery(v, q);
    var solutions;
    solutions, derived := EvaluateCompiled(v, q, snap, draws, edgeOf);
    var raw := NodesOnly(solutions);
    rows := ApplyValueFilters(raw, out.filters, snap);
    RowsPermute(v, q, snap, derived, edgeOf, solutions);
    forall row ensures row in rows <==> QueryHolds(v, snap, q, row) {
      assert row in rows <==> row in multiset(rows);
      assert row in CypherRows(v, q, snap, derived, edgeOf)
        <==> row in multiset(CypherRows(v, q, snap, derived, edgeOf));
      RowsAreNamed(v, q, snap, derived, edgeOf, row);
    }
    if FreshNames(q) && LoneNodesFound(q, snap) { FoundIsSame(v, q, snap, rows); }
    if FreshNames(q) && Sorted(q) { RowsExact(v, q, snap, rows); }
  }

  lemma RowsPermute(v: Vocabulary, q: CypherQuery, snap: Snapshot, d: DerivedFacts, e: EdgeDraw,
      solutions: seq<Solution>)
    requires multiset(solutions) == multiset(Solve(Compile(v, q).patterns, [EMPTY], NodeView(snap, d, e)))
    ensures multiset(Filter(Passing(snap, Compile(v, q).filters), FilterMap(NodeRow(), solutions)))
         == multiset(CypherRows(v, q, snap, d, e))
  {
    var sols := Solve(Compile(v, q).patterns, [EMPTY], NodeView(snap, d, e));
    FilterMapPermutes(NodeRow(), solutions, sols);
    FilterPermutes(Passing(snap, Compile(v, q).filters), FilterMap(NodeRow(), solutions), FilterMap(NodeRow(), sols));
  }

  // ── Queries whose rows are not right ─────────────────────────────────────

  lemma OnePath(v: Vocabulary, path: CypherPath)
    ensures WrittenInPaths([path]) == WrittenInPath(path) && PathsNames([path], 0) == PathNames(path, 0)
    ensures EmitPaths(v, [path], START) == EmitPath(v, path, START)
  {
    assert [path][1..] == [];
    assert EmitPaths(v, [], EmitPath(v, path, START)) == EmitPath(v, path, START);
    assert PathsNames([], AnonAfter(path, 0)) == {} && WrittenInPaths([]) == {};
  }

  lemma OnePathHolds(v: Vocabulary, snap: Snapshot, path: CypherPath, row: Row)
    ensures PathsHold(v, snap, [path], 0, row) <==> PathHolds(v, snap, path, 0, row)
    ensures PathsMatch(v, snap, [path], row) <==> PathMatches(v, snap, path, row)
  {
    assert [path][1..] == [] && [path][0] == path;
    assert PathsHold(v, snap, [], AnonAfter(path, 0), row);
  }

  lemma OneHop(hop: HopPat, anon: nat)
    ensures HopsEnds([hop]) == Optional(hop.end.variable) && HopsRels([hop]) == RelNames(hop.rel)
    ensures HopsNames([hop], anon) == {NameOf(hop.end.variable, anon)} + RelNames(hop.rel)
  {
    assert [hop][1..] == [];
    assert HopsEnds([]) == {} && HopsRels([]) == {} && HopsNames([], NextAnon(hop.end.variable, anon)) == {};
  }

  lemma OneHopEmits(v: Vocabulary, hop: HopPat, x: string, out: Output)
    ensures EmitHops(v, [hop], x, out) == EmitHop(v, hop, x, out)
  {
    assert [hop][1..] == [];
    assert EmitHops(v, [], NameOf(hop.end.variable, out.anon), EmitHop(v, hop, x, out)) == EmitHop(v, hop, x, out);
  }

  lemma OneHopHolds(v: Vocabulary, snap: Snapshot, hop: HopPat, x: string, anon: nat, n: NodeId, row: Row)
    ensures var y := NameOf(hop.end.variable, anon);
            HopsHold(v, snap, [hop], x, anon, row) <==>
            RelHolds(v, snap, hop.rel, hop.direction, x, y, row) && NodeHolds(v, snap, hop.end, y, row)
    ensures HopsMatch(v, snap, [hop], n, row) <==> exists m :: HopMatches(v, snap, hop, n, m, row)
  {
    assert [hop][1..] == [];
    assert HopsHold(v, snap, [], NameOf(hop.end.variable, anon), NextAnon(hop.end.variable, anon), row);
    if m :| HopMatches(v, snap, hop, n, m, row) { assert HopsMatch(v, snap, [], m, row); }
  }

  /** `MATCH (n)` */
  function LonePath(n: string): CypherPath { CypherPath(NodePat(Some(n), None, []), []) }

  function LoneQuery(n: string): CypherQuery { CypherQuery([LonePath(n)], []) }

  lemma LoneCompiles(v: Vocabulary, n: string)
    ensures Compile(v, LoneQuery(n)) == START
  {
    OnePath(v, LonePath(n));
    assert EmitPath(v, LonePath(n), START) == START;
  }

  lemma LoneMatches(v: Vocabulary, n: string, snap: Snapshot, row: Row)
    ensures QueryMatches(v, snap, LoneQuery(n), row) <==> row.Keys == {n} && IsNode(snap, row[n])
  {
    var path := LonePath(n);
    OnePath(v, path);
    OnePathHolds(v, snap, path, row);
    assert Written(LoneQuery(n)) == {n};
    if row.Keys == {n} && IsNode(snap, row[n]) {
      assert NodeMatches(v, snap, path.start, row[n], row) && HopsMatch(v, snap, path.hops, row[n], row);
    }
  }

  /** A lone node is not looked up: one row comes back, with `n` unbound, where the
      query has a row for every node. */
  lemma LoneNodeIsUnbound(v: Vocabulary, n: string, snap: Snapshot, d: DerivedFacts, e: EdgeDraw)
    ensures CypherRows(v, LoneQuery(n), snap, d, e) == [map[]]
    ensures forall row :: QueryMatches(v, snap, LoneQuery(n), row) <==> row.Keys == {n} && IsNode(snap, row[n])
    ensures !SameRows(v, snap, LoneQuery(n), CypherRows(v, LoneQuery(n), snap, d, e))
  {
    var q, none: Row := LoneQuery(n), map[];
    LoneCompiles(v, n);
    FilterMapOne(NodeRow(), EMPTY);
    FilterOne(Passing(snap, []), none);
    assert CypherRows(v, q, snap, d, e) == [none];
    forall row
      ensures QueryMatches(v, snap, q, row) <==> row.Keys == {n} && IsNode(snap, row[n])
    {
      LoneMatches(v, n, snap, row);
    }
    assert none in [none] && Project(q, none) == none;
    assert Returned(q, [none], none);
    assert !QueryMatches(v, snap, q, none);
  }

  /** `MATCH (x)-[:p]->()` */
  function SourceHop(p: string): HopPat { HopPat(RelPat(None, p, false, None), Out, NodePat(None, None, [])) }

  function SourcePath(x: string, p: string): CypherPath { CypherPath(NodePat(Some(x), None, []), [SourceHop(p)]) }

  function SourceQuery(x: string, p: string): CypherQuery { CypherQuery([SourcePath(x, p)], []) }

  lemma SourceWritten(x: string, p: string)
    ensures Written(SourceQuery(x, p)) == {x}
  {
    assert SourceQuery(x, p).paths[1..] == [];
    OneHop(SourceHop(p), 0);
    assert WrittenInPaths([]) == {} && WrittenInPath(SourcePath(x, p)) == {x};
  }

  lemma SourceHopMatches(v: Vocabulary, p: string, snap: Snapshot, n: NodeId, m: NodeId, row: Row)
    ensures HopMatches(v, snap, SourceHop(p), n, m, row) <==> HasEdge(snap, v.resolve(p), n, m)
  {
    if t :| t in snap.UnionTriples() && t.Relation? && t.pred == v.resolve(p) && t.subject == n && t.obj == m {
      assert IsNode(snap, m);
      assert EdgeHolds(snap, v.resolve(p), None, n, m, row);
    }
  }

  lemma SourceMatches(v: Vocabulary, x: string, p: string, snap: Snapshot, row: Row)
    ensures QueryMatches(v, snap, SourceQuery(x, p), row)
       <==> row.Keys == {x} && exists o :: HasEdge(snap, v.resolve(p), row[x], o)
  {
    var path := SourcePath(x, p);
    SourceWritten(x, p);
    OnePathHolds(v, snap, path, row);
    forall n, m ensures HopMatches(v, snap, SourceHop(p), n, m, row) <==> HasEdge(snap, v.resolve(p), n, m) {
      SourceHopMatches(v, p, snap, n, m, row);
    }
    forall n
      ensures HopsMatch(v, snap, path.hops, n, row) <==> exists m :: HopMatches(v, snap, SourceHop(p), n, m, row)
    {
      OneHopHolds(v, snap, SourceHop(p), x, 0, n, row);
    }
    if row.Keys == {x} {
      if o :| HasEdge(snap, v.resolve(p), row[x], o) {
        assert IsNode(snap, row[x]);
        assert NodeMatches(v, snap, path.start, row[x], row) && HopsMatch(v, snap, path.hops, row[x], row);
      }
    }
  }

  const CAPTURED := "__anon_0"

  lemma CapturedHolds(v: Vocabulary, p: string, snap: Snapshot, row: Row)
    ensures QueryHolds(v, snap, SourceQuery(CAPTURED, p), row)
       <==> row.Keys == {CAPTURED} && HasEdge(snap, v.resolve(p), row[CAPTURED], row[CAPTURED])
  {
    var path := SourcePath(CAPTURED, p);
    assert AnonName(0) == CAPTURED;
    OnePath(Vocabulary(v.resolve, v.classNode), path);
    OnePathHolds(v, snap, path, row);
    OneHop(SourceHop(p), 0);
    OneHopHolds(v, snap, SourceHop(p), CAPTURED, 0, 0, row);
    assert PathNames(path, 0) == {CAPTURED};
    if CAPTURED in row { SourceHopMatches(v, p, snap, row[CAPTURED], row[CAPTURED], row); }
  }

  lemma CapturedSupported(v: Vocabulary, p: string, snap: Snapshot)
    requires snap.Valid()
    ensures Supported(v, SourceQuery(CAPTURED, p), snap)
  {
    var path := SourcePath(CAPTURED, p);
    OnePath(v, path);
    var named := EmitNodeFilters(v, CAPTURED, path.start, START);
    OneHopEmits(v, SourceHop(p), CAPTURED, named);
    assert EmitPath(v, path, START) == EmitHop(v, SourceHop(p), CAPTURED, named);
    assert Compile(v, SourceQuery(CAPTURED, p)).closed == {};
  }

  lemma CapturedProjects(p: string, raw: Row)
    requires raw.Keys == {CAPTURED}
    ensures Project(SourceQuery(CAPTURED, p), raw) == raw
  {
    SourceWritten(CAPTURED, p);
  }

  lemma CapturedReturns(v: Vocabulary, p: string, snap: Snapshot, d: DerivedFacts, e: EdgeDraw, row: Row)
    requires snap.Valid() && IsLeastModel(QueryProgram(v, SourceQuery(CAPTURED, p)), snap, d)
    ensures Returned(SourceQuery(CAPTURED, p), CypherRows(v, SourceQuery(CAPTURED, p), snap, d, e), row)
       <==> row.Keys == {CAPTURED} && HasEdge(snap, v.resolve(p), row[CAPTURED], row[CAPTURED])
  {
    var q, rows := SourceQuery(CAPTURED, p), CypherRows(v, SourceQuery(CAPTURED, p), snap, d, e);
    CapturedSupported(v, p, snap);
    forall raw
      ensures raw in rows <==> raw.Keys == {CAPTURED} && HasEdge(snap, v.resolve(p), raw[CAPTURED], raw[CAPTURED])
    {
      RowsAreNamed(v, q, snap, d, e, raw);
      CapturedHolds(v, p, snap, raw);
    }
    forall raw | raw in rows ensures Project(q, raw) == raw { CapturedProjects(p, raw); }
  }

  ghost predicate SourcesLoop(snap: Snapshot, p: string) {
    forall s, o :: HasEdge(snap, p, s, o) ==> HasEdge(snap, p, s, s)
  }

  /** A variable written `__anon_0` is taken for the first anonymous position, here
      the end of its own edge: the rows are right exactly when every node with a `p`
      edge has one to itself. */
  lemma WrittenAnonymousName(v: Vocabulary, p: string, snap: Snapshot, d: DerivedFacts, e: EdgeDraw)
    requires snap.Valid() && IsLeastModel(QueryProgram(v, SourceQuery(CAPTURED, p)), snap, d)
    ensures SameRows(v, snap, SourceQuery(CAPTURED, p), CypherRows(v, SourceQuery(CAPTURED, p), snap, d, e))
       <==> SourcesLoop(snap, v.resolve(p))
  {
    var q, rows := SourceQuery(CAPTURED, p), CypherRows(v, SourceQuery(CAPTURED, p), snap, d, e);
    if SameRows(v, snap, q, rows) {
      forall s, o | HasEdge(snap, v.resolve(p), s, o) ensures HasEdge(snap, v.resolve(p), s, s) {
        var row: Row := map[CAPTURED := s];
        SourceMatches(v, CAPTURED, p, snap, row);
        CapturedReturns(v, p, snap, d, e, row);
      }
    }
    if SourcesLoop(snap, v.resolve(p)) {
      forall row ensures QueryMatches(v, snap, q, row) <==> Returned(q, rows, row) {
        SourceMatches(v, CAPTURED, p, snap, row);
        CapturedReturns(v, p, snap, d, e, row);
      }
    }
  }
}
