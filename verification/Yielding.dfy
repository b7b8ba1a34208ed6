/** What evaluating a rule body yields, edge ids drawn for derived facts included,
    against the order-free answers in which such ids are arbitrary. */
module Yielding {
  import opened Sequences
  import opened Store
  import opened Datalog
  import opened Semantics
  import opened Joins
  import opened Rules

  /** Evaluating the body gives a row with `s` and `o` in the head variables. */
  ghost predicate Yields(rule: Rule, ctx: Context, s: NodeId, o: NodeId) {
    exists r :: r in Solve(rule.body, [EMPTY], ctx) && HeadIs(rule, r, s, o)
  }

  // ── Every row is an answer ───────────────────────────────────────────────

  lemma StepsSound(ps: seq<VarPattern>, sols: seq<Solution>, c: Solution, ctx: Context) returns (init: Solution)
    requires ps != [] && ctx.snapshot.Valid() && forall s :: s in sols ==> s.Valid() && Free(ps, s, ctx)
    requires c in FlatMap(Stepper(ps[0], ctx), sols)
    ensures init in sols && HasMatch(ps[0], init, c, ctx) && c.Valid() && Free(ps[1..], c, ctx)
  {
    FlatMapMember(Stepper(ps[0], ctx), sols, c);
    init :| init in sols && c in Step(ps[0], init, ctx);
    TameIsSteady(ps, init, ctx);
    StepSees(ps[0], init, c, ctx);
    SeesWhatMatches(ps[0], init, c, ctx);
    FreeStays(ps, init, c, ctx);
  }

  lemma {:induction false} SolveSound(ps: seq<VarPattern>, sols: seq<Solution>, r: Solution, ctx: Context)
      returns (init: Solution)
    requires ctx.snapshot.Valid() && forall s :: s in sols ==> s.Valid() && Free(ps, s, ctx)
    requires r in Solve(ps, sols, ctx)
    ensures init in sols && IsAnswer(ps, init, r, ctx)
    decreases |ps|
  {
    if ps == [] {
      init := r;
      EmptyQueryAnswers(init, r, ctx);
    } else {
      var next := FlatMap(Stepper(ps[0], ctx), sols);
      forall c | c in next ensures c.Valid() && Free(ps[1..], c, ctx) { var from := StepsSound(ps, sols, c, ctx); }
      var c := SolveSound(ps[1..], next, r, ctx);
      init := StepsSound(ps, sols, c, ctx);
      AnswerPeels(ps, init, r, ctx);
    }
  }

  // ── Every answer is a row, up to ids nobody looks at ─────────────────────

  function Rebound(r: Solution, x: string, id: NodeId): Solution { r.(nodes := r.nodes[x := id]) }

  lemma RebindKeepsAgreement(vp: VarPattern, m: Match, r: Solution, x: string, id: NodeId, ctx: Context)
    requires Agrees(vp, m, r, ctx) && x !in Mentions(vp)
    ensures Agrees(vp, m, Rebound(r, x, id), ctx)
  {}

  /** A variable the query does not mention may be bound to anything. */
  lemma AnswerRebinds(ps: seq<VarPattern>, init: Solution, r: Solution, x: string, id: NodeId, ctx: Context)
    requires IsAnswer(ps, init, r, ctx) && x in init.nodes && forall i :: 0 <= i < |ps| ==> x !in Mentions(ps[i])
    ensures IsAnswer(ps, Rebound(init, x, id), Rebound(r, x, id), ctx)
  {
    var ms :| AnswerBy(ps, ms, init, r, ctx);
    var init', r' := Rebound(init, x, id), Rebound(r, x, id);
    assert x in r.nodes;
    forall i | 0 <= i < |ps| ensures Visible(ps[i], ms[i], ctx) && Agrees(ps[i], ms[i], r', ctx) {
      RebindKeepsAgreement(ps[i], ms[i], r, x, id, ctx);
    }
    forall n | Binds(r', n) ensures Binds(init', n) || SomeMatchBinds(ps, ms, n) {
      assert Binds(r, n);
      assert Binds(init, n) ==> Binds(init', n);
    }
    assert AnswerBy(ps, ms, init', r', ctx);
  }

  /** The edges of derived facts that the patterns name, each in one slot only and
      not bound so far. */
  predicate EdgesPrivate(ps: seq<VarPattern>, sol: Solution, ctx: Context) {
    forall i :: 0 <= i < |ps| && NamesDerived(ps[i], ctx) ==>
      PrivateEdge(ps, i) && OptVars(ps[i].edgeVar) !! sol.nodes.Keys + sol.values.Keys
  }

  function DrawnEdges(ps: seq<VarPattern>, ctx: Context): set<string> {
    set i, x | 0 <= i < |ps| && NamesDerived(ps[i], ctx) && x in OptVars(ps[i].edgeVar) :: x
  }

  predicate SameOff(a: Solution, b: Solution, hidden: set<string>) {
    a.nodes.Keys == b.nodes.Keys && forall x :: x in a.nodes && x !in hidden ==> a.nodes[x] == b.nodes[x]
  }

  lemma MatchMentions(vp: VarPattern, m: Match)
    ensures NodeVars(vp, m) <= Mentions(vp) && ValueVars(vp, m) <= Mentions(vp)
  {}

  lemma EdgesStayPrivate(ps: seq<VarPattern>, sol: Solution, c: Solution, ctx: Context)
    requires ps != [] && EdgesPrivate(ps, sol, ctx)
    requires c.nodes.Keys + c.values.Keys <= sol.nodes.Keys + sol.values.Keys + Mentions(ps[0])
    ensures EdgesPrivate(ps[1..], c, ctx)
  {
    var rest := ps[1..];
    assert forall i :: 0 <= i < |rest| ==> rest[i] == ps[i + 1];
    forall i | 0 <= i < |rest| && NamesDerived(rest[i], ctx)
      ensures PrivateEdge(rest, i) && OptVars(rest[i].edgeVar) !! c.nodes.Keys + c.values.Keys
    {
      assert PrivateEdge(ps, i + 1);
      if ps[i + 1].edgeVar.Some? {
        assert ps[i + 1].edgeVar.value in OptVars(ps[i + 1].edgeVar);
        assert ps[i + 1].edgeVar.value !in Mentions(ps[0]);
      }
    }
  }

  /** A private edge variable takes whatever id the read draws. */
  lemma RedrawnAgrees(vp: VarPattern, m: Match, sol: Solution, c: Solution, x: string, ctx: Context)
    requires NamesDerived(vp, ctx) && vp.edgeVar == Some(x) && x !in TermVars(vp.subject) + TermVars(vp.obj)
    requires Visible(vp, m, ctx) && Agrees(vp, m, c, ctx)
    ensures m.Edge? && var t := m.quad.triple;
            Agrees(vp, Redrawn(vp, sol, m, ctx), Rebound(c, x, ctx.view.edgeOf(vp, sol, t.subject, t.obj)), ctx)
  {
    var t := m.quad.triple;
    var c' := Rebound(c, x, ctx.view.edgeOf(vp, sol, t.subject, t.obj));
    assert SlotIs(vp.subject, t.subject, c') && SlotIs(vp.obj, t.obj, c');
  }

  lemma RedrawnContributes(vp: VarPattern, m: Match, sol: Solution, c: Solution, x: string, ctx: Context)
    requires NamesDerived(vp, ctx) && vp.edgeVar == Some(x) && x !in TermVars(vp.subject) + TermVars(vp.obj)
    requires Visible(vp, m, ctx) && Contributes(vp, m, sol, c, ctx) && x !in sol.nodes && x !in sol.values
    ensures m.Edge? && x in c.nodes && var t := m.quad.triple;
            Contributes(vp, Redrawn(vp, sol, m, ctx), sol, Rebound(c, x, ctx.view.edgeOf(vp, sol, t.subject, t.obj)),
              ctx)
  {
    RedrawnAgrees(vp, m, sol, c, x, ctx);
    assert x in OptVars(vp.edgeVar) && x in NodeVars(vp, m);
    var m' := Redrawn(vp, sol, m, ctx);
    assert NodeVars(vp, m') == NodeVars(vp, m) && PredVars(vp, m') == PredVars(vp, m) &&
           ValueVars(vp, m') == ValueVars(vp, m);
  }

  /** The step behind the first match of an answer, with the edge id this read
      draws in place of the answer's. */
  lemma FirstStep(ps: seq<VarPattern>, init: Solution, c: Solution, ctx: Context) returns (id: NodeId)
    requires ps != [] && ctx.snapshot.Valid() && init.Valid() && Free(ps, init, ctx) && EdgesPrivate(ps, init, ctx)
    requires HasMatch(ps[0], init, c, ctx) && NamesDerived(ps[0], ctx) && ps[0].edgeVar.Some?
    ensures ps[0].edgeVar.value in c.nodes && Rebound(c, ps[0].edgeVar.value, id) in Step(ps[0], init, ctx)
  {
    var vp, x := ps[0], ps[0].edgeVar.value;
    assert PrivateEdge(ps, 0) && x in OptVars(vp.edgeVar);
    TameIsSteady(ps, init, ctx);
    var m :| Visible(vp, m, ctx) && Contributes(vp, m, init, c, ctx);
    RedrawnContributes(vp, m, init, c, x, ctx);
    id := ctx.view.edgeOf(vp, init, m.quad.triple.subject, m.quad.triple.obj);
    SeenIsVisible(vp, init, m, ctx);
    StepSees(vp, init, Rebound(c, x, id), ctx);
  }

  lemma SolveFrom(ps: seq<VarPattern>, init: Solution, c: Solution, r: Solution, ctx: Context)
    requires ps != [] && c in Step(ps[0], init, ctx) && r in Solve(ps[1..], [c], ctx)
    ensures r in Solve(ps, [init], ctx)
  {
    FlatMapOne(Stepper(ps[0], ctx), init);
    assert c in FlatMap(Stepper(ps[0], ctx), [init]);
    SolveMonotone(ps[1..], [c], FlatMap(Stepper(ps[0], ctx), [init]), r, ctx);
  }

  lemma {:induction false} SolveMonotone(ps: seq<VarPattern>, few: seq<Solution>, many: seq<Solution>, r: Solution,
      ctx: Context)
    requires (forall s :: s in few ==> s in many) && r in Solve(ps, few, ctx)
    ensures r in Solve(ps, many, ctx)
    decreases |ps|
  {
    if ps != [] {
      var f := Stepper(ps[0], ctx);
      forall c | c in FlatMap(f, few) ensures c in FlatMap(f, many) {
        FlatMapMember(f, few, c);
        FlatMapMember(f, many, c);
      }
      SolveMonotone(ps[1..], FlatMap(f, few), FlatMap(f, many), r, ctx);
    }
  }

  lemma {:induction false} SolveFromOne(ps: seq<VarPattern>, sols: seq<Solution>, r: Solution, ctx: Context)
      returns (s: Solution)
    requires r in Solve(ps, sols, ctx)
    ensures s in sols && r in Solve(ps, [s], ctx)
    decreases |ps|
  {
    if ps == [] {
      s := r;
    } else {
      var c := SolveFromOne(ps[1..], FlatMap(Stepper(ps[0], ctx), sols), r, ctx);
      FlatMapMember(Stepper(ps[0], ctx), sols, c);
      s :| s in sols && c in Stepper(ps[0], ctx)(s);
      SolveFrom(ps, s, c, r, ctx);
    }
  }

  /** A row comes from one extension of the partial solution by the first pattern. */
  lemma SolveSplits(ps: seq<VarPattern>, sol: Solution, r: Solution, ctx: Context) returns (c: Solution)
    requires ps != [] && r in Solve(ps, [sol], ctx)
    ensures c in Step(ps[0], sol, ctx) && r in Solve(ps[1..], [c], ctx)
  {
    FlatMapOne(Stepper(ps[0], ctx), sol);
    c := SolveFromOne(ps[1..], FlatMap(Stepper(ps[0], ctx), [sol]), r, ctx);
  }

  lemma {:induction false} SolveComplete(ps: seq<VarPattern>, init: Solution, r: Solution, ctx: Context)
      returns (r': Solution)
    requires ctx.snapshot.Valid() && init.Valid() && Free(ps, init, ctx) && EdgesPrivate(ps, init, ctx)
    requires IsAnswer(ps, init, r, ctx)
    ensures r' in Solve(ps, [init], ctx) && SameOff(r', r, DrawnEdges(ps, ctx))
    decreases |ps|
  {
    if ps == [] {
      EmptyQueryAnswers(init, r, ctx);
      r' := r;
    } else {
      AnswerPeels(ps, init, r, ctx);
      var c :| HasMatch(ps[0], init, c, ctx) && IsAnswer(ps[1..], c, r, ctx);
      var c1, r1 := c, r;
      if NamesDerived(ps[0], ctx) && ps[0].edgeVar.Some? {
        var x := ps[0].edgeVar.value;
        var id := FirstStep(ps, init, c, ctx);
        c1, r1 := Rebound(c, x, id), Rebound(r, x, id);
        assert PrivateEdge(ps, 0);
        forall i | 0 <= i < |ps[1..]| ensures x !in Mentions(ps[1..][i]) { assert ps[1..][i] == ps[i + 1]; }
        AnswerRebinds(ps[1..], c, r, x, id, ctx);
      } else {
        TameIsSteady(ps, init, ctx);
        StepMeaning(ps[0], init, c, ctx);
      }
      StepRest(ps, init, c1, ctx);
      r' := SolveComplete(ps[1..], c1, r1, ctx);
      SolveFrom(ps, init, c1, r', ctx);
      DrawnEdgesPeel(ps, r', r1, r, ctx);
    }
  }

  lemma StepRest(ps: seq<VarPattern>, init: Solution, c: Solution, ctx: Context)
    requires ps != [] && ctx.snapshot.Valid() && init.Valid() && Free(ps, init, ctx) && EdgesPrivate(ps, init, ctx)
    requires c in Step(ps[0], init, ctx)
    ensures c.Valid() && Free(ps[1..], c, ctx) && EdgesPrivate(ps[1..], c, ctx)
  {
    hide Step, Seen, Visible, EdgesPrivate, NodeVars, ValueVars, Mentions, Tame;
    TameIsSteady(ps, init, ctx);
    StepSees(ps[0], init, c, ctx);
    SeesWhatMatches(ps[0], init, c, ctx);
    FreeStays(ps, init, c, ctx);
    var m :| Visible(ps[0], m, ctx) && Contributes(ps[0], m, init, c, ctx);
    MatchMentions(ps[0], m);
    EdgesStayPrivate(ps, init, c, ctx);
  }

  lemma DrawnEdgesPeel(ps: seq<VarPattern>, a: Solution, b: Solution, r: Solution, ctx: Context)
    requires ps != [] && SameOff(a, b, DrawnEdges(ps[1..], ctx))
    requires b == r || (NamesDerived(ps[0], ctx) && ps[0].edgeVar.Some? && ps[0].edgeVar.value in r.nodes &&
                        exists id :: b == Rebound(r, ps[0].edgeVar.value, id))
    ensures SameOff(a, r, DrawnEdges(ps, ctx))
  {
    forall x | x in DrawnEdges(ps[1..], ctx) ensures x in DrawnEdges(ps, ctx) {
      var i :| 0 <= i < |ps[1..]| && NamesDerived(ps[1..][i], ctx) && x in OptVars(ps[1..][i].edgeVar);
      assert ps[i + 1] == ps[1..][i];
    }
    if NamesDerived(ps[0], ctx) && ps[0].edgeVar.Some? {
      assert ps[0].edgeVar.value in OptVars(ps[0].edgeVar);
      assert ps[0].edgeVar.value in DrawnEdges(ps, ctx);
    }
  }

  // ── Rules ────────────────────────────────────────────────────────────────

  lemma GoodIsFree(body: seq<VarPattern>, derived: set<string>, snap: Snapshot, d: DerivedFacts, e: EdgeDraw)
    requires GoodBody(body, derived, snap) && d.Keys <= derived
    ensures Free(body, EMPTY, InView(snap, d, e)) && EdgesPrivate(body, EMPTY, InView(snap, d, e))
  {}

  /** What a rule yields it fires, drawn ids in its head included. */
  lemma YieldsFires(rule: Rule, derived: set<string>, snap: Snapshot, d: DerivedFacts, e: EdgeDraw, s: NodeId,
      o: NodeId)
    requires snap.Valid() && GoodBody(rule.body, derived, snap) && d.Keys <= derived
    requires Yields(rule, InView(snap, d, e), s, o)
    ensures Fires(rule, InView(snap, d, e), s, o)
  {
    GoodIsFree(rule.body, derived, snap, d, e);
    var r :| r in Solve(rule.body, [EMPTY], InView(snap, d, e)) && HeadIs(rule, r, s, o);
    var init := SolveSound(rule.body, [EMPTY], r, InView(snap, d, e));
  }

  /** A rule whose drawn edge ids stay private yields exactly what it fires. */
  lemma YieldsWhatFires(rule: Rule, derived: set<string>, snap: Snapshot, d: DerivedFacts, e: EdgeDraw, s: NodeId,
      o: NodeId)
    requires snap.Valid() && GoodRule(rule, derived, snap) && d.Keys <= derived
    ensures Yields(rule, InView(snap, d, e), s, o) <==> Fires(rule, InView(snap, d, e), s, o)
  {
    var ctx := InView(snap, d, e);
    GoodIsFree(rule.body, derived, snap, d, e);
    if Yields(rule, ctx, s, o) { YieldsFires(rule, derived, snap, d, e, s, o); }
    if Fires(rule, ctx, s, o) {
      var r :| IsAnswer(rule.body, EMPTY, r, ctx) && HeadIs(rule, r, s, o);
      var r' := SolveComplete(rule.body, EMPTY, r, ctx);
      HeadNotDrawn(rule, derived, snap, d, e);
      assert HeadIs(rule, r', s, o);
    }
  }

  lemma HeadNotDrawn(rule: Rule, derived: set<string>, snap: Snapshot, d: DerivedFacts, e: EdgeDraw)
    requires GoodRule(rule, derived, snap) && d.Keys <= derived
    ensures {rule.headSubject, rule.headObject} !! DrawnEdges(rule.body, InView(snap, d, e))
  {}
}
