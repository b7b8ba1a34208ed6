/** Whole queries: evaluation computes the natural join of its patterns. */
module Joins {
  import opened Sequences
  import opened Store
  import opened Datalog
  import opened Semantics

  // ── Answers ──────────────────────────────────────────────────────────────

  /** A variable, by the kind of thing it is bound to. */
  datatype Name = NodeName(x: string) | PredName(x: string) | ValueName(x: string)

  predicate Binds(sol: Solution, n: Name) {
    match n
    case NodeName(x) => x in sol.nodes
    case PredName(x) => x in sol.preds
    case ValueName(x) => x in sol.values
  }

  predicate MatchBinds(vp: VarPattern, m: Match, n: Name) {
    match n
    case NodeName(x) => x in NodeVars(vp, m)
    case PredName(x) => x in PredVars(vp, m)
    case ValueName(x) => x in ValueVars(vp, m)
  }

  predicate SomeMatchBinds(ps: seq<VarPattern>, ms: seq<Match>, n: Name)
    requires |ms| == |ps|
  {
    exists i :: 0 <= i < |ps| && MatchBinds(ps[i], ms[i], n)
  }

  ghost predicate AllAgree(ps: seq<VarPattern>, ms: seq<Match>, r: Solution, ctx: Context)
    requires |ms| == |ps|
  {
    forall i :: 0 <= i < |ps| ==> Visible(ps[i], ms[i], ctx) && Agrees(ps[i], ms[i], r, ctx)
  }

  /** `r` extends `init`, agrees with one visible match per pattern, and binds
      no variable that neither `init` nor a match binds. */
  ghost predicate AnswerBy(ps: seq<VarPattern>, ms: seq<Match>, init: Solution, r: Solution, ctx: Context) {
    |ms| == |ps| && r.Valid() && Extends(r, init) && AllAgree(ps, ms, r, ctx) &&
    forall n :: Binds(r, n) ==> Binds(init, n) || SomeMatchBinds(ps, ms, n)
  }

  ghost predicate IsAnswer(ps: seq<VarPattern>, init: Solution, r: Solution, ctx: Context) {
    exists ms :: AnswerBy(ps, ms, init, r, ctx)
  }

  lemma AgreesGrows(vp: VarPattern, m: Match, a: Solution, b: Solution, ctx: Context)
    requires Extends(b, a) && Agrees(vp, m, a, ctx)
    ensures Agrees(vp, m, b, ctx)
  {
    match m
    case Edge(q) => AgreementGrows(vp, q.triple, a, b, ctx);
    case Path(_, _) =>
  }

  /** `r` cut down to the bindings of `init` and of one match. */
  function Restrict(r: Solution, init: Solution, vp: VarPattern, m: Match): Solution {
    Solution(
      map x | x in r.nodes && (x in init.nodes || x in NodeVars(vp, m)) :: r.nodes[x],
      map x | x in r.preds && (x in init.preds || x in PredVars(vp, m)) :: r.preds[x],
      map x | x in r.values && (x in init.values || x in ValueVars(vp, m)) :: r.values[x])
  }

  lemma AgreeingVarsBound(vp: VarPattern, m: Match, r: Solution, ctx: Context)
    requires Agrees(vp, m, r, ctx)
    ensures NodeVars(vp, m) <= r.nodes.Keys && PredVars(vp, m) <= r.preds.Keys && ValueVars(vp, m) <= r.values.Keys
  {}

  lemma SlotShrinks(term: Term, node: NodeId, c: Solution, r: Solution)
    requires Extends(r, c) && SlotIs(term, node, r) && TermVars(term) <= c.nodes.Keys
    ensures SlotIs(term, node, c)
  {
    if term.Var? { assert term.name in TermVars(term); }
  }

  lemma ObjectShrinks(obj: Term, t: Triple, c: Solution, r: Solution, ctx: Context)
    requires Extends(r, c) && ObjectIs(obj, t, r, ctx)
    requires TermVars(obj) <= if t.Relation? then c.nodes.Keys else c.values.Keys
    ensures ObjectIs(obj, t, c, ctx)
  {
    if obj.Var? { assert obj.name in TermVars(obj); }
  }

  lemma TripleShrinks(vp: VarPattern, t: Triple, c: Solution, r: Solution, ctx: Context)
    requires Extends(r, c) && TripleAgrees(vp, t, r, ctx)
    requires TripleVars(vp, t) <= c.nodes.Keys && OptVars(vp.predVar) <= c.preds.Keys
    requires t.Property? ==> TermVars(vp.obj) <= c.values.Keys
    ensures TripleAgrees(vp, t, c, ctx)
  {
    SlotShrinks(vp.subject, t.subject, c, r);
    ObjectShrinks(vp.obj, t, c, r, ctx);
    if vp.edgeVar.Some? && t.Relation? {
      assert vp.edgeVar.value in OptVars(vp.edgeVar);
      SlotShrinks(Var(vp.edgeVar.value), t.edge, c, r);
    }
    if vp.predVar.Some? { assert vp.predVar.value in OptVars(vp.predVar); }
  }

  /** Agreement only looks at the variables the match binds. */
  lemma AgreementShrinks(vp: VarPattern, m: Match, c: Solution, r: Solution, ctx: Context)
    requires Extends(r, c) && Agrees(vp, m, r, ctx)
    requires NodeVars(vp, m) <= c.nodes.Keys && PredVars(vp, m) <= c.preds.Keys && ValueVars(vp, m) <= c.values.Keys
    ensures Agrees(vp, m, c, ctx)
  {
    match m
    case Edge(q) =>
      TripleShrinks(vp, q.triple, c, r, ctx);
      if vp.graph.InVar? { assert vp.graph.name in GraphVars(vp.graph); }
    case Path(s, t) =>
      SlotShrinks(vp.subject, s, c, r);
      SlotShrinks(vp.obj, t, c, r);
  }

  lemma RestrictKeys(vp: VarPattern, m: Match, init: Solution, r: Solution)
    requires r.Valid() && Extends(r, init)
    requires NodeVars(vp, m) <= r.nodes.Keys && PredVars(vp, m) <= r.preds.Keys && ValueVars(vp, m) <= r.values.Keys
    ensures var c := Restrict(r, init, vp, m);
            c.Valid() && Extends(c, init) && Extends(r, c) &&
            c.nodes.Keys == init.nodes.Keys + NodeVars(vp, m) &&
            c.preds.Keys == init.preds.Keys + PredVars(vp, m) &&
            c.values.Keys == init.values.Keys + ValueVars(vp, m)
  {}

  lemma RestrictContributes(vp: VarPattern, m: Match, init: Solution, r: Solution, ctx: Context)
    requires r.Valid() && Extends(r, init) && Agrees(vp, m, r, ctx)
    ensures Contributes(vp, m, init, Restrict(r, init, vp, m), ctx)
  {
    AgreeingVarsBound(vp, m, r, ctx);
    RestrictKeys(vp, m, init, r);
    AgreementShrinks(vp, m, Restrict(r, init, vp, m), r, ctx);
  }

  lemma ContributionBinds(vp: VarPattern, m: Match, init: Solution, c: Solution, ctx: Context, n: Name)
    requires Contributes(vp, m, init, c, ctx)
    ensures Binds(c, n) <==> Binds(init, n) || MatchBinds(vp, m, n)
  {}

  lemma SomeMatchSplits(ps: seq<VarPattern>, ms: seq<Match>, n: Name)
    requires |ms| == |ps| > 0
    ensures SomeMatchBinds(ps, ms, n) <==> MatchBinds(ps[0], ms[0], n) || SomeMatchBinds(ps[1..], ms[1..], n)
  {
    var ps', ms' := ps[1..], ms[1..];
    if SomeMatchBinds(ps, ms, n) {
      var i :| 0 <= i < |ps| && MatchBinds(ps[i], ms[i], n);
      assert i > 0 ==> ps'[i - 1] == ps[i] && ms'[i - 1] == ms[i];
    }
    if SomeMatchBinds(ps', ms', n) {
      var i :| 0 <= i < |ps'| && MatchBinds(ps'[i], ms'[i], n);
      assert ps[i + 1] == ps'[i] && ms[i + 1] == ms'[i];
    }
  }

  lemma RestrictExtends(r: Solution, init: Solution, vp: VarPattern, m: Match)
    ensures Extends(r, Restrict(r, init, vp, m))
  {}

  lemma AnswerSplits(ps: seq<VarPattern>, ms: seq<Match>, init: Solution, r: Solution, ctx: Context)
    requires ps != [] && AnswerBy(ps, ms, init, r, ctx)
    ensures var c := Restrict(r, init, ps[0], ms[0]);
            Visible(ps[0], ms[0], ctx) && Contributes(ps[0], ms[0], init, c, ctx) &&
            AnswerBy(ps[1..], ms[1..], c, r, ctx)
  {
    assert Agrees(ps[0], ms[0], r, ctx);
    RestrictContributes(ps[0], ms[0], init, r, ctx);
    var c := Restrict(r, init, ps[0], ms[0]);
    RestrictExtends(r, init, ps[0], ms[0]);
    forall n | Binds(r, n) ensures Binds(c, n) || SomeMatchBinds(ps[1..], ms[1..], n) {
      SomeMatchSplits(ps, ms, n);
      ContributionBinds(ps[0], ms[0], init, c, ctx, n);
    }
  }

  lemma AnswerJoins(ps: seq<VarPattern>, m: Match, ms: seq<Match>, init: Solution, c: Solution, r: Solution,
      ctx: Context)
    requires ps != [] && Visible(ps[0], m, ctx) && Contributes(ps[0], m, init, c, ctx) &&
             AnswerBy(ps[1..], ms, c, r, ctx)
    ensures AnswerBy(ps, [m] + ms, init, r, ctx)
  {
    ExtendsTrans(init, c, r);
    AgreesGrows(ps[0], m, c, r, ctx);
    var ms' := [m] + ms;
    assert ms'[1..] == ms;
    assert forall i :: 0 < i < |ps| ==> ps[i] == ps[1..][i - 1] && ms'[i] == ms[i - 1];
    forall n | Binds(r, n) ensures Binds(init, n) || SomeMatchBinds(ps, ms', n) {
      SomeMatchSplits(ps, ms', n);
      ContributionBinds(ps[0], m, init, c, ctx, n);
    }
  }

  lemma EmptyQueryAnswers(init: Solution, r: Solution, ctx: Context)
    requires init.Valid()
    ensures IsAnswer([], init, r, ctx) <==> r == init
  {
    if r == init { assert AnswerBy([], [], init, r, ctx); }
    if IsAnswer([], init, r, ctx) {
      var ms :| AnswerBy([], ms, init, r, ctx);
      assert forall n :: Binds(r, n) ==> Binds(init, n);
      assert forall x :: x in r.nodes ==> Binds(r, NodeName(x));
      assert forall x :: x in r.preds ==> Binds(r, PredName(x));
      assert forall x :: x in r.values ==> Binds(r, ValueName(x));
      assert r.nodes == init.nodes && r.preds == init.preds && r.values == init.values;
    }
  }

  // ── Queries whose reads do not depend on the bindings ────────────────────

  /** The pattern binds, or is restricted by, the predicate variable `v`. */
  predicate Uses(vp: VarPattern, v: string) { vp.maxHops.None? && vp.predVar == Some(v) }

  /** An ungraphed pattern that leaves its predicate to a variable. */
  predicate Unnamed(vp: VarPattern) { IsUngraphed(vp) && vp.pred.None? && vp.predVar.Some? }

  ghost predicate Unstored(ctx: Context) {
    ctx.view.Hybrid? ==> forall p :: p in ctx.view.derived ==> !ctx.snapshot.Stored(p)
  }

  predicate BoundToDerived(sol: Solution, v: string, ctx: Context) {
    v in sol.preds && ReadsDerived(Some(sol.preds[v]), ctx.view)
  }

  predicate UsedOnce(ps: seq<VarPattern>, v: string) {
    forall i, j :: 0 <= i < j < |ps| ==> !(Uses(ps[i], v) && Uses(ps[j], v))
  }

  /** `v` cannot come to name a derived predicate before it is used: it is used
      no more, or used once and unbound, or bound only from storage that holds no
      derived name. */
  ghost predicate Tame(ps: seq<VarPattern>, sol: Solution, v: string, ctx: Context) {
    (forall i :: 0 <= i < |ps| ==> !Uses(ps[i], v)) ||
    (v !in sol.preds && UsedOnce(ps, v)) ||
    (Unstored(ctx) && !BoundToDerived(sol, v, ctx) &&
     forall i :: 0 <= i < |ps| && Uses(ps[i], v) ==> !NamesDerived(ps[i], ctx))
  }

  /** Whichever patterns are matched first, each reads derived facts only if it
      names a derived predicate. */
  ghost predicate Free(ps: seq<VarPattern>, sol: Solution, ctx: Context) {
    forall i :: 0 <= i < |ps| && Unnamed(ps[i]) ==> Tame(ps, sol, ps[i].predVar.value, ctx)
  }

  predicate AllEdgeFree(ps: seq<VarPattern>, ctx: Context) {
    forall i :: 0 <= i < |ps| ==> EdgeFree(ps[i], ctx)
  }

  lemma TameIsSteady(ps: seq<VarPattern>, sol: Solution, ctx: Context)
    requires ps != [] && (Unnamed(ps[0]) ==> Tame(ps, sol, ps[0].predVar.value, ctx))
    ensures SteadyRead(ps[0], sol, ctx)
  {}

  /** What a match binds a predicate variable to. */
  lemma MatchedPredicate(vp: VarPattern, m: Match, sol: Solution, c: Solution, v: string, ctx: Context)
    requires Visible(vp, m, ctx) && Contributes(vp, m, sol, c, ctx) && Uses(vp, v) && !NamesDerived(vp, ctx)
    ensures v in c.preds && ctx.snapshot.Stored(c.preds[v])
  {
    if vp.graph.InUnion? {
      ctx.snapshot.UnionTriple(m.quad.triple);
      var q :| q in ctx.snapshot.quads && q.triple == m.quad.triple;
      var i :| 0 <= i < |ctx.snapshot.quads| && ctx.snapshot.quads[i] == q;
    } else {
      var i :| 0 <= i < |ctx.snapshot.quads| && ctx.snapshot.quads[i] == m.quad;
    }
  }

  /** A match binds `v` only if the pattern uses it. */
  lemma MatchedPredicates(vp: VarPattern, m: Match, sol: Solution, c: Solution, v: string, ctx: Context)
    requires Contributes(vp, m, sol, c, ctx) && (m.Edge? ==> vp.maxHops.None?)
    ensures v in c.preds && !Uses(vp, v) ==> v in sol.preds && c.preds[v] == sol.preds[v]
    ensures v in sol.preds ==> v in c.preds && c.preds[v] == sol.preds[v]
  {}

  lemma TameKept(ps: seq<VarPattern>, sol: Solution, c: Solution, v: string, ctx: Context)
    requires ps != [] && Tame(ps, sol, v, ctx)
    requires v in c.preds && !Uses(ps[0], v) ==> v in sol.preds && c.preds[v] == sol.preds[v]
    requires Uses(ps[0], v) && !NamesDerived(ps[0], ctx) && !BoundToDerived(sol, v, ctx) ==>
               v in c.preds && ctx.snapshot.Stored(c.preds[v])
    ensures Tame(ps[1..], c, v, ctx)
  {
    var rest := ps[1..];
    assert forall i :: 0 <= i < |rest| ==> rest[i] == ps[i + 1];
  }

  lemma TameStays(ps: seq<VarPattern>, sol: Solution, c: Solution, v: string, ctx: Context)
    requires ps != [] && Tame(ps, sol, v, ctx) && HasMatch(ps[0], sol, c, ctx)
    ensures Tame(ps[1..], c, v, ctx)
  {
    var m :| Visible(ps[0], m, ctx) && Contributes(ps[0], m, sol, c, ctx);
    MatchedPredicates(ps[0], m, sol, c, v, ctx);
    if Uses(ps[0], v) && !NamesDerived(ps[0], ctx) { MatchedPredicate(ps[0], m, sol, c, v, ctx); }
    TameKept(ps, sol, c, v, ctx);
  }

  lemma FreeStays(ps: seq<VarPattern>, sol: Solution, c: Solution, ctx: Context)
    requires ps != [] && Free(ps, sol, ctx) && HasMatch(ps[0], sol, c, ctx)
    ensures Free(ps[1..], c, ctx)
  {
    forall i | 0 <= i < |ps[1..]| && Unnamed(ps[1..][i]) ensures Tame(ps[1..], c, ps[1..][i].predVar.value, ctx) {
      assert ps[1..][i] == ps[i + 1];
      TameStays(ps, sol, c, ps[i + 1].predVar.value, ctx);
    }
  }

  lemma TameStaysSeen(ps: seq<VarPattern>, sol: Solution, c: Solution, v: string, ctx: Context)
    requires ps != [] && Tame(ps, sol, v, ctx) && SeesMatch(ps[0], sol, c, ctx)
    ensures Tame(ps[1..], c, v, ctx)
  {
    var m :| Seen(ps[0], sol, m, ctx) && Contributes(ps[0], m, sol, c, ctx);
    MatchedPredicates(ps[0], m, sol, c, v, ctx);
    if Uses(ps[0], v) && !NamesDerived(ps[0], ctx) && !BoundToDerived(sol, v, ctx) {
      SeenIsVisible(ps[0], sol, m, ctx);
      MatchedPredicate(ps[0], m, sol, c, v, ctx);
    }
    TameKept(ps, sol, c, v, ctx);
  }

  lemma StepsMember(vp: VarPattern, sols: seq<Solution>, c: Solution, ctx: Context)
    requires ctx.snapshot.Valid() && forall s :: s in sols ==> s.Valid() && Steady(vp, s, ctx)
    ensures c in FlatMap(Stepper(vp, ctx), sols) <==> exists init :: init in sols && HasMatch(vp, init, c, ctx)
  {
    FlatMapMember(Stepper(vp, ctx), sols, c);
    forall init | init in sols ensures c in Stepper(vp, ctx)(init) <==> HasMatch(vp, init, c, ctx) {
      StepMeaning(vp, init, c, ctx);
    }
  }

  lemma AnswerPeels(ps: seq<VarPattern>, init: Solution, r: Solution, ctx: Context)
    requires ps != []
    ensures IsAnswer(ps, init, r, ctx) <==> exists c :: HasMatch(ps[0], init, c, ctx) && IsAnswer(ps[1..], c, r, ctx)
  {
    hide Visible, Contributes, Restrict;
    if IsAnswer(ps, init, r, ctx) {
      var ms :| AnswerBy(ps, ms, init, r, ctx);
      AnswerSplits(ps, ms, init, r, ctx);
      var c := Restrict(r, init, ps[0], ms[0]);
      assert HasMatch(ps[0], init, c, ctx) && IsAnswer(ps[1..], c, r, ctx);
    }
    if exists c :: HasMatch(ps[0], init, c, ctx) && IsAnswer(ps[1..], c, r, ctx) {
      var c :| HasMatch(ps[0], init, c, ctx) && IsAnswer(ps[1..], c, r, ctx);
      var m :| Visible(ps[0], m, ctx) && Contributes(ps[0], m, init, c, ctx);
      var ms :| AnswerBy(ps[1..], ms, c, r, ctx);
      AnswerJoins(ps, m, ms, init, c, r, ctx);
    }
  }

  lemma {:induction false} SolveIsJoin(ps: seq<VarPattern>, sols: seq<Solution>, r: Solution, ctx: Context)
    requires ctx.snapshot.Valid() && AllEdgeFree(ps, ctx) && forall s :: s in sols ==> s.Valid() && Free(ps, s, ctx)
    ensures r in Solve(ps, sols, ctx) <==> exists init :: init in sols && IsAnswer(ps, init, r, ctx)
  {
    if ps == [] {
      forall init | init in sols ensures IsAnswer(ps, init, r, ctx) <==> r == init { EmptyQueryAnswers(init, r, ctx); }
    } else {
      var next := FlatMap(Stepper(ps[0], ctx), sols);
      forall s | s in sols ensures Steady(ps[0], s, ctx) { TameIsSteady(ps, s, ctx); }
      forall c ensures c in next <==> exists init :: init in sols && HasMatch(ps[0], init, c, ctx) {
        StepsMember(ps[0], sols, c, ctx);
      }
      forall c | c in next ensures Free(ps[1..], c, ctx) {
        var init :| init in sols && HasMatch(ps[0], init, c, ctx);
        FreeStays(ps, init, c, ctx);
      }
      SolveIsJoin(ps[1..], next, r, ctx);
      forall init
        ensures IsAnswer(ps, init, r, ctx)
           <==> exists c :: HasMatch(ps[0], init, c, ctx) && IsAnswer(ps[1..], c, r, ctx)
      {
        AnswerPeels(ps, init, r, ctx);
      }
    }
  }

  /** Evaluating a query from one partial solution yields exactly its answers. */
  lemma EvaluationIsJoin(ps: seq<VarPattern>, init: Solution, r: Solution, ctx: Context)
    requires ctx.snapshot.Valid() && init.Valid() && Free(ps, init, ctx) && AllEdgeFree(ps, ctx)
    ensures r in Solve(ps, [init], ctx) <==> IsAnswer(ps, init, r, ctx)
  {
    SolveIsJoin(ps, [init], r, ctx);
  }
}
