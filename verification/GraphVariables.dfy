/** Scoping a query to a graph variable (`scope_to_graph`,
    crates/polargraph-query/src/datalog.rs): the query on each named graph in turn,
    with the variable bound to the node that names it. */
module GraphVariables {
  import opened Store
  import opened Datalog
  import opened Semantics
  import opened Joins
  import opened Scoping

  function OnStorage(snap: Snapshot, bindValues: bool): Context { Context(snap, Storage, bindValues) }

  /** The variable `x` bound to the node that names `graph`. */
  function GraphNamed(x: string, snap: Snapshot, graph: GraphId): Solution
    requires graph in snap.graphNodes
  {
    Solution(map[x := snap.graphNodes[graph]], map[], map[])
  }

  /** Over storage alone every query is evaluated to its join. */
  lemma StorageIsJoin(ps: seq<VarPattern>, init: Solution, r: Solution, snap: Snapshot, bindValues: bool)
    requires snap.Valid() && init.Valid()
    ensures r in Solve(ps, [init], OnStorage(snap, bindValues)) <==> IsAnswer(ps, init, r, OnStorage(snap, bindValues))
  {
    hide Solve;
    EvaluationIsJoin(ps, init, r, OnStorage(snap, bindValues));
  }

  // ── Matches in the union and in one graph ────────────────────────────────

  /** The same triples, taken from the union or from a given graph. */
  function MovedTo(ms: seq<Match>, graph: GraphId): seq<Match> {
    seq(|ms|, i requires 0 <= i < |ms| => if ms[i].Edge? then Edge(Quad(graph, ms[i].quad.triple)) else ms[i])
  }

  lemma MatchScoped(vp: VarPattern, x: string, m: Match, r: Solution, snap: Snapshot, graph: GraphId, bindValues: bool)
    requires IsUngraphed(vp) && snap.Valid() && graph in snap.graphNodes
    requires x in r.nodes && r.nodes[x] == snap.graphNodes[graph]
    requires Visible(vp, m, OnStorage(Cut(snap, InGraph(graph)), bindValues))
    requires Agrees(vp, m, r, OnStorage(Cut(snap, InGraph(graph)), bindValues))
    ensures m.Edge?
    ensures var m' := Edge(Quad(graph, m.quad.triple));
            Visible(vp.(graph := InVar(x)), m', OnStorage(snap, bindValues)) &&
            Agrees(vp.(graph := InVar(x)), m', r, OnStorage(snap, bindValues))
  {
    OneGraphAgrees(snap, InGraph(graph));
    CutUnionHolds(snap, {graph}, m.quad.triple);
  }

  lemma MatchUnscoped(vp: VarPattern, x: string, m: Match, r: Solution, snap: Snapshot, graph: GraphId,
      bindValues: bool)
    requires IsUngraphed(vp) && snap.Valid() && graph in snap.graphNodes
    requires x in r.nodes && r.nodes[x] == snap.graphNodes[graph]
    requires Visible(vp.(graph := InVar(x)), m, OnStorage(snap, bindValues))
    requires Agrees(vp.(graph := InVar(x)), m, r, OnStorage(snap, bindValues))
    ensures m.Edge?
    ensures var m' := Edge(Quad(DEFAULT_GRAPH, m.quad.triple));
            Visible(vp, m', OnStorage(Cut(snap, InGraph(graph)), bindValues)) &&
            Agrees(vp, m', r, OnStorage(Cut(snap, InGraph(graph)), bindValues))
  {
    OneGraphAgrees(snap, InGraph(graph));
    assert m.quad == Quad(graph, m.quad.triple);
    CutUnionHolds(snap, {graph}, m.quad.triple);
  }

  /** The scoped match binds the graph variable besides. */
  lemma ScopedBinds(vp: VarPattern, x: string, m: Match, graph: GraphId, n: Name)
    requires m.Edge? && IsUngraphed(vp)
    ensures MatchBinds(vp.(graph := InVar(x)), Edge(Quad(graph, m.quad.triple)), n)
       <==> n == NodeName(x) || MatchBinds(vp, m, n)
  {}

  // ── Answers ──────────────────────────────────────────────────────────────

  lemma AnswerInGraph(ps: seq<VarPattern>, x: string, r: Solution, snap: Snapshot, graph: GraphId, bindValues: bool)
    requires ps != [] && AllUngraphed(ps) && snap.Valid() && graph in snap.graphNodes
    requires IsAnswer(ps, GraphNamed(x, snap, graph), r, OnStorage(Cut(snap, InGraph(graph)), bindValues))
    ensures IsAnswer(ScopeBody(ps, {}, InVar(x)), EMPTY, r, OnStorage(snap, bindValues))
  {
    hide Visible, Agrees, MatchBinds;
    var ps', init := ScopeBody(ps, {}, InVar(x)), GraphNamed(x, snap, graph);
    var ns: seq<Match> :| AnswerBy(ps, ns, init, r, OnStorage(Cut(snap, InGraph(graph)), bindValues));
    var ms := MovedTo(ns, graph);
    assert x in init.nodes;
    forall i | 0 <= i < |ps|
      ensures ns[i].Edge? && Visible(ps'[i], ms[i], OnStorage(snap, bindValues)) &&
              Agrees(ps'[i], ms[i], r, OnStorage(snap, bindValues))
    {
      MatchScoped(ps[i], x, ns[i], r, snap, graph, bindValues);
    }
    forall n | Binds(r, n) ensures SomeMatchBinds(ps', ms, n) {
      if Binds(init, n) {
        ScopedBinds(ps[0], x, ns[0], graph, n);
      } else {
        var i :| 0 <= i < |ps| && MatchBinds(ps[i], ns[i], n);
        ScopedBinds(ps[i], x, ns[i], graph, n);
      }
    }
    assert AnswerBy(ps', ms, EMPTY, r, OnStorage(snap, bindValues));
  }

  /** The graph variable names one graph, so all matches come from it. */
  lemma AnswerNamesGraph(ps: seq<VarPattern>, x: string, ms: seq<Match>, r: Solution, snap: Snapshot, bindValues: bool)
      returns (graph: GraphId)
    requires ps != [] && AllUngraphed(ps)
    requires AnswerBy(ScopeBody(ps, {}, InVar(x)), ms, EMPTY, r, OnStorage(snap, bindValues))
    ensures graph in snap.graphNodes && x in r.nodes && r.nodes[x] == snap.graphNodes[graph]
  {
    var ps' := ScopeBody(ps, {}, InVar(x));
    assert Visible(ps'[0], ms[0], OnStorage(snap, bindValues)) && Agrees(ps'[0], ms[0], r, OnStorage(snap, bindValues));
    graph := ms[0].quad.graph;
  }

  lemma AnswerOfGraph(ps: seq<VarPattern>, x: string, r: Solution, snap: Snapshot, bindValues: bool)
      returns (graph: GraphId)
    requires ps != [] && AllUngraphed(ps) && snap.Valid()
    requires IsAnswer(ScopeBody(ps, {}, InVar(x)), EMPTY, r, OnStorage(snap, bindValues))
    ensures graph in snap.graphNodes
    ensures IsAnswer(ps, GraphNamed(x, snap, graph), r, OnStorage(Cut(snap, InGraph(graph)), bindValues))
  {
    hide Visible, Agrees, MatchBinds;
    var ps' := ScopeBody(ps, {}, InVar(x));
    var ms: seq<Match> :| AnswerBy(ps', ms, EMPTY, r, OnStorage(snap, bindValues));
    graph := AnswerNamesGraph(ps, x, ms, r, snap, bindValues);
    var init, ns := GraphNamed(x, snap, graph), MovedTo(ms, DEFAULT_GRAPH);
    forall i | 0 <= i < |ps|
      ensures ms[i].Edge? && Visible(ps[i], ns[i], OnStorage(Cut(snap, InGraph(graph)), bindValues)) &&
              Agrees(ps[i], ns[i], r, OnStorage(Cut(snap, InGraph(graph)), bindValues))
    {
      MatchUnscoped(ps[i], x, ms[i], r, snap, graph, bindValues);
    }
    forall n | Binds(r, n) ensures Binds(init, n) || SomeMatchBinds(ps, ns, n) {
      var i :| 0 <= i < |ps| && MatchBinds(ps'[i], ms[i], n);
      assert ms[i] == Edge(Quad(ms[i].quad.graph, ns[i].quad.triple));
      ScopedBinds(ps[i], x, ns[i], ms[i].quad.graph, n);
    }
    assert AnswerBy(ps, ns, init, r, OnStorage(Cut(snap, InGraph(graph)), bindValues));
  }

  /** The query as written has the row on one named graph alone, the variable bound
      to the node that names it. */
  ghost predicate RowOfGraph(ps: seq<VarPattern>, x: string, r: Solution, snap: Snapshot, graph: GraphId,
      bindValues: bool) {
    graph in snap.graphNodes &&
    r in Solve(ps, [GraphNamed(x, snap, graph)], OnStorage(Cut(snap, InGraph(graph)), bindValues))
  }

  /** A query scoped to a graph variable returns exactly the rows that the query as
      written returns on some named graph alone, with the variable bound to the node
      naming it; it may use the variable itself. */
  lemma GraphVariableMeaning(ps: seq<VarPattern>, x: string, r: Solution, snap: Snapshot, bindValues: bool)
    requires ps != [] && AllUngraphed(ps) && snap.Valid()
    ensures r in Solve(ScopeBody(ps, {}, InVar(x)), [EMPTY], OnStorage(snap, bindValues))
       <==> exists graph :: RowOfGraph(ps, x, r, snap, graph, bindValues)
  {
    hide Solve, IsAnswer;
    StorageIsJoin(ScopeBody(ps, {}, InVar(x)), EMPTY, r, snap, bindValues);
    if graph :| RowOfGraph(ps, x, r, snap, graph, bindValues) {
      RowInGraph(ps, x, r, snap, graph, bindValues);
      AnswerInGraph(ps, x, r, snap, graph, bindValues);
    }
    if IsAnswer(ScopeBody(ps, {}, InVar(x)), EMPTY, r, OnStorage(snap, bindValues)) {
      var graph := AnswerOfGraph(ps, x, r, snap, bindValues);
      RowInGraph(ps, x, r, snap, graph, bindValues);
    }
  }

  lemma RowInGraph(ps: seq<VarPattern>, x: string, r: Solution, snap: Snapshot, graph: GraphId, bindValues: bool)
    requires snap.Valid() && graph in snap.graphNodes
    ensures RowOfGraph(ps, x, r, snap, graph, bindValues)
       <==> IsAnswer(ps, GraphNamed(x, snap, graph), r, OnStorage(Cut(snap, InGraph(graph)), bindValues))
  {
    hide Solve, IsAnswer;
    CutStaysValid(snap, {graph});
    StorageIsJoin(ps, GraphNamed(x, snap, graph), r, Cut(snap, InGraph(graph)), bindValues);
  }
}
