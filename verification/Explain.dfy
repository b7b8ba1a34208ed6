/** The static plan against the evaluator
    (crates/polargraph-query/src/explain.rs): which variables are bound when a
    step is reached, and hence which index its scan will use. */
module Explain {
  import opened Sequences
  import opened Store
  import opened Datalog
  import opened Semantics
  import opened Rules
  import opened Yielding

  /** An index choice without its key. */
  datatype IndexKind = ExactSpo | SpoBySubjectPredicate | SpoBySubject | Sop | Pos | Pso | Osp | Full

  datatype ExplainStep = ExplainStep(kind: IndexKind, binds: seq<string>)

  datatype ExplainPlan = ExplainPlan(steps: seq<ExplainStep>, recursive: bool)

  /** The nil id, standing for whatever a bound variable will hold. */
  const SENTINEL: NodeId := 0

  function KindOf(choice: IndexChoice): IndexKind {
    match choice
    case SpoExact(_, _, _) => ExactSpo
    case SpoPrefixSP(_, _) => SpoBySubjectPredicate
    case SpoPrefixS(_) => SpoBySubject
    case SopPrefixSO(_, _) => Sop
    case PosPrefixPO(_, _) => Pos
    case PsoPrefixP(_) => Pso
    case OspPrefixO(_) => Osp
    case FullScan => Full
  }

  function StaticPattern(vp: VarPattern, bound: set<string>, snap: Snapshot): Pattern {
    Pattern(
      match vp.subject
      case Bound(id) => Some(id)
      case Var(name) => if name in bound then Some(SENTINEL) else None
      case _ => None,
      vp.pred,
      match vp.obj
      case Bound(id) => Some(id)
      case Literal(v) => Some(snap.ValueObject(v))
      case Var(name) => if name in bound then Some(SENTINEL) else None
      case _ => None)
  }

  function NewVar(term: Term, bound: set<string>): seq<string> {
    if term.Var? && term.name !in bound then [term.name] else []
  }

  /** Variables `vp` introduces, subject first, none twice. */
  function NewVars(vp: VarPattern, bound: set<string>): seq<string> {
    NewVar(vp.subject, bound) + NewVar(vp.obj, bound + TermVars(vp.subject))
  }

  // ── Variables bound on reaching a step ───────────────────────────────────

  function EndVars(vp: VarPattern): set<string> { TermVars(vp.subject) + TermVars(vp.obj) }

  /** What the plan counts as bound after `ps`: subject and object variables. */
  function Tracked(ps: seq<VarPattern>): set<string> {
    set i, x | 0 <= i < |ps| && x in EndVars(ps[i]) :: x
  }

  function GraphBound(ps: seq<VarPattern>): set<string> {
    set i, x | 0 <= i < |ps| && ps[i].maxHops.None? && x in GraphVars(ps[i].graph) :: x
  }

  function EdgeBound(ps: seq<VarPattern>): set<string> {
    set i, x | 0 <= i < |ps| && ps[i].maxHops.None? && x in OptVars(ps[i].edgeVar) :: x
  }

  function PredicateBound(ps: seq<VarPattern>): set<string> {
    set i, x | 0 <= i < |ps| && ps[i].maxHops.None? && x in OptVars(ps[i].predVar) :: x
  }

  function BoundVars(r: Solution): set<string> { r.nodes.Keys + r.values.Keys }

  lemma PeelBound(ps: seq<VarPattern>)
    requires ps != []
    ensures Tracked(ps) == Tracked([ps[0]]) + Tracked(ps[1..]) &&
            GraphBound(ps) == GraphBound([ps[0]]) + GraphBound(ps[1..])
    ensures EdgeBound(ps) == EdgeBound([ps[0]]) + EdgeBound(ps[1..])
    ensures PredicateBound(ps) == PredicateBound([ps[0]]) + PredicateBound(ps[1..])
  {
    var one, rest := [ps[0]], ps[1..];
    assert one[0] == ps[0];
    assert forall i :: 0 <= i < |rest| ==> rest[i] == ps[i + 1];
    assert forall i :: 1 <= i < |ps| ==> ps[i] == rest[i - 1];
  }

  lemma OneBound(vp: VarPattern)
    ensures Tracked([vp]) == EndVars(vp)
    ensures GraphBound([vp]) == if vp.maxHops.None? then GraphVars(vp.graph) else {}
    ensures EdgeBound([vp]) == if vp.maxHops.None? then OptVars(vp.edgeVar) else {}
    ensures PredicateBound([vp]) == if vp.maxHops.None? then OptVars(vp.predVar) else {}
  {
    assert [vp][0] == vp;
  }

  /** Bound in any case: tracked variables and graph variables. */
  function Sure(ps: seq<VarPattern>): set<string> { Tracked(ps) + GraphBound(ps) }

  predicate Between(before: set<string>, sure: set<string>, perhaps: set<string>, after: set<string>) {
    before + sure <= after <= before + sure + perhaps
  }

  predicate BindsBetween(ps: seq<VarPattern>, sol: Solution, r: Solution) {
    Between(BoundVars(sol), Sure(ps), EdgeBound(ps), BoundVars(r)) &&
    r.preds.Keys == sol.preds.Keys + PredicateBound(ps)
  }

  lemma MatchBindsBetween(vp: VarPattern, sol: Solution, m: Match, c: Solution, ctx: Context)
    requires Seen(vp, sol, m, ctx) && Contributes(vp, m, sol, c, ctx)
    ensures BindsBetween([vp], sol, c)
  {
    OneBound(vp);
  }

  lemma StepBinds(vp: VarPattern, sol: Solution, c: Solution, ctx: Context)
    requires ctx.snapshot.Valid() && sol.Valid() && c in Step(vp, sol, ctx)
    ensures BindsBetween([vp], sol, c) && c.Valid()
  {
    StepSees(vp, sol, c, ctx);
    var m :| Seen(vp, sol, m, ctx) && Contributes(vp, m, sol, c, ctx);
    MatchBindsBetween(vp, sol, m, c, ctx);
  }

  lemma BindsChain(ps: seq<VarPattern>, sol: Solution, c: Solution, r: Solution)
    requires ps != [] && BindsBetween([ps[0]], sol, c) && BindsBetween(ps[1..], c, r)
    ensures BindsBetween(ps, sol, r)
  {
    hide Between, Sure, Tracked, GraphBound, EdgeBound, PredicateBound, BoundVars;
    PeelBound(ps);
    SurePeels(ps);
    BoundsChain(BoundVars(sol), BoundVars(c), BoundVars(r), Sure([ps[0]]), Sure(ps[1..]), EdgeBound([ps[0]]),
      EdgeBound(ps[1..]));
  }

  lemma SurePeels(ps: seq<VarPattern>)
    requires ps != []
    ensures Sure(ps) == Sure([ps[0]]) + Sure(ps[1..])
  {
    PeelBound(ps);
  }

  lemma BoundsChain(a: set<string>, b: set<string>, c: set<string>, some: set<string>, more: set<string>,
      edges: set<string>, others: set<string>)
    requires Between(a, some, edges, b) && Between(b, more, others, c)
    ensures Between(a, some + more, edges + others, c)
  {}

  lemma {:induction false} SolveBinds(ps: seq<VarPattern>, sol: Solution, r: Solution, ctx: Context)
    requires ctx.snapshot.Valid() && sol.Valid() && r in Solve(ps, [sol], ctx)
    ensures BindsBetween(ps, sol, r)
    decreases |ps|
  {
    if ps != [] {
      var c := SolveSplits(ps, sol, r, ctx);
      StepBinds(ps[0], sol, c, ctx);
      SolveBinds(ps[1..], c, r, ctx);
      BindsChain(ps, sol, c, r);
    }
  }

  /** Every solution that has passed `ps` binds all the tracked variables and the
      graph variables, and beyond those only edge variables. */
  lemma SolutionBinds(ps: seq<VarPattern>, r: Solution, ctx: Context)
    requires ctx.snapshot.Valid() && r in Solve(ps, [EMPTY], ctx)
    ensures Tracked(ps) + GraphBound(ps) <= BoundVars(r) <= Tracked(ps) + GraphBound(ps) + EdgeBound(ps)
    ensures r.preds.Keys == PredicateBound(ps)
  {
    SolveBinds(ps, EMPTY, r, ctx);
  }

  // ── The plan's index against the evaluator's ─────────────────────────────

  /** The plan sees every slot the evaluator will have bound. */
  predicate Foreseen(vp: VarPattern, tracked: set<string>, bound: set<string>, preds: set<string>) {
    !vp.subject.Literal? &&
    (vp.pred.None? ==> OptVars(vp.predVar) !! preds) &&
    EndVars(vp) * bound <= tracked
  }

  lemma KindsAgree(vp: VarPattern, tracked: set<string>, r: Solution, snap: Snapshot)
    requires tracked <= BoundVars(r)
    ensures KindOf(ChooseIndex(StaticPattern(vp, tracked, snap))) == KindOf(ChooseIndex(Substitute(vp, r, snap)))
       <==> Foreseen(vp, tracked, BoundVars(r), r.preds.Keys)
  {
    var fixed, live := StaticPattern(vp, tracked, snap), Substitute(vp, r, snap);
    assert fixed.subject.Some? == live.subject.Some?
      <==> !vp.subject.Literal? && TermVars(vp.subject) * BoundVars(r) <= tracked;
    assert fixed.obj.Some? == live.obj.Some? <==> TermVars(vp.obj) * BoundVars(r) <= tracked;
    assert fixed.pred.Some? == live.pred.Some? <==> (vp.pred.None? ==> OptVars(vp.predVar) !! r.preds.Keys);
    assert EndVars(vp) * BoundVars(r) <= tracked
      <==> TermVars(vp.subject) * BoundVars(r) <= tracked && TermVars(vp.obj) * BoundVars(r) <= tracked;
  }

  /** The index the plan reports for step `i` is the one the evaluator chooses
      for a solution reaching it, exactly when the step has no literal subject,
      no predicate variable bound earlier stands for its predicate, and neither
      end is a variable so far bound only as a graph. */
  lemma PlanForetellsIndex(ps: seq<VarPattern>, i: nat, r: Solution, ctx: Context)
    requires i < |ps| && ctx.snapshot.Valid() && r in Solve(ps[..i], [EMPTY], ctx)
    requires EndVars(ps[i]) * EdgeBound(ps[..i]) <= Tracked(ps[..i]) + GraphBound(ps[..i])
    ensures KindOf(ChooseIndex(StaticPattern(ps[i], Tracked(ps[..i]), ctx.snapshot)))
         == KindOf(ChooseIndex(Substitute(ps[i], r, ctx.snapshot)))
       <==> Foreseen(ps[i], Tracked(ps[..i]), GraphBound(ps[..i]), PredicateBound(ps[..i]))
  {
    SolutionBinds(ps[..i], r, ctx);
    KindsAgree(ps[i], Tracked(ps[..i]), r, ctx.snapshot);
    OnlyGraphs(EndVars(ps[i]), BoundVars(r), Tracked(ps[..i]), GraphBound(ps[..i]), EdgeBound(ps[..i]));
  }

  lemma OnlyGraphs(ends: set<string>, bound: set<string>, tracked: set<string>, graphs: set<string>, edges: set<string>)
    requires tracked + graphs <= bound <= tracked + graphs + edges && ends * edges <= tracked + graphs
    ensures ends * bound <= tracked <==> ends * graphs <= tracked
  {
    if ends * graphs <= tracked {
      forall x | x in ends * bound ensures x in tracked {
        assert x in edges ==> x in ends * edges;
        assert x in graphs ==> x in ends * graphs;
      }
    }
  }

  /** A step whose end is an earlier edge variable is planned wrongly for just
      the solutions whose match was an edge and so bound it. */
  lemma EdgeVariablesAreUnforeseen(ps: seq<VarPattern>, i: nat, r: Solution, ctx: Context)
    requires i < |ps| && ctx.snapshot.Valid() && r in Solve(ps[..i], [EMPTY], ctx)
    requires Foreseen(ps[i], Tracked(ps[..i]), GraphBound(ps[..i]), PredicateBound(ps[..i]))
    ensures KindOf(ChooseIndex(StaticPattern(ps[i], Tracked(ps[..i]), ctx.snapshot)))
         == KindOf(ChooseIndex(Substitute(ps[i], r, ctx.snapshot)))
       <==> EndVars(ps[i]) * EdgeBound(ps[..i]) * BoundVars(r) <= Tracked(ps[..i])
  {
    SolutionBinds(ps[..i], r, ctx);
    KindsAgree(ps[i], Tracked(ps[..i]), r, ctx.snapshot);
    WithinTracked(EndVars(ps[i]), BoundVars(r), Tracked(ps[..i]), GraphBound(ps[..i]), EdgeBound(ps[..i]));
  }

  lemma WithinTracked(ends: set<string>, bound: set<string>, tracked: set<string>, graphs: set<string>,
      edges: set<string>)
    requires bound <= tracked + graphs + edges && ends * graphs <= tracked
    ensures ends * bound <= tracked <==> ends * edges * bound <= tracked
  {
    forall x | x in ends * bound && ends * edges * bound <= tracked ensures x in tracked {
      assert x in edges ==> x in ends * edges * bound;
      assert x in graphs ==> x in ends * graphs;
    }
  }

  // ── Building the plan ────────────────────────────────────────────────────

  method CollectNewVars(vp: VarPattern, bound: set<string>) returns (out: seq<string>)
    ensures out == NewVars(vp, bound)
  {
    out := [];
    var terms := [vp.subject, vp.obj];
    for k := 0 to 2
      invariant out
             == (if k >= 1 then NewVar(vp.subject, bound) else []) +
                (if k == 2 then NewVar(vp.obj, bound + TermVars(vp.subject)) else [])
    {
      if terms[k].Var? && terms[k].name !in bound && terms[k].name !in out {
        out := out + [terms[k].name];
      }
    }
  }

  method AnalysePattern(vp: VarPattern, bound: set<string>, snap: Snapshot)
      returns (step: ExplainStep, bound': set<string>)
    ensures step.kind == KindOf(ChooseIndex(StaticPattern(vp, bound, snap))) && step.binds == NewVars(vp, bound)
    ensures bound' == bound + EndVars(vp)
  {
    var binds := CollectNewVars(vp, bound);
    bound' := bound;
    for k := 0 to |binds|
      invariant bound' == bound + set j | 0 <= j < k :: binds[j]
    {
      bound' := bound' + {binds[k]};
    }
    NewVarsAre(vp, bound);
    step := ExplainStep(KindOf(ChooseIndex(StaticPattern(vp, bound, snap))), binds);
  }

  lemma NewVarsAre(vp: VarPattern, bound: set<string>)
    ensures forall x :: x in NewVars(vp, bound) <==> x in EndVars(vp) && x !in bound
    ensures forall j, k :: 0 <= j < k < |NewVars(vp, bound)| ==> NewVars(vp, bound)[j] != NewVars(vp, bound)[k]
  {}

  predicate NamesHead(rule: Rule) {
    exists k :: 0 <= k < |rule.body| && rule.body[k].pred == Some(rule.head)
  }

  /** The step reported for pattern `i`. */
  predicate Planned(ps: seq<VarPattern>, i: nat, step: ExplainStep, snap: Snapshot)
    requires i < |ps|
  {
    step.kind == KindOf(ChooseIndex(StaticPattern(ps[i], Tracked(ps[..i]), snap))) &&
    step.binds == NewVars(ps[i], Tracked(ps[..i]))
  }

  /** Patterns left to right, the bound variables growing as they are analysed. */
  method ExplainQuery(ps: seq<VarPattern>, rules: seq<Rule>, snap: Snapshot) returns (plan: ExplainPlan)
    ensures |plan.steps| == |ps| && forall i :: 0 <= i < |ps| ==> Planned(ps, i, plan.steps[i], snap)
    ensures plan.recursive <==>
            exists i, k :: 0 <= i < |rules| && 0 <= k < |rules[i].body| && rules[i].body[k].pred == Some(rules[i].head)
  {
    var bound: set<string>, steps: seq<ExplainStep> := {}, [];
    for i := 0 to |ps|
      invariant |steps| == i && bound == Tracked(ps[..i])
      invariant forall j :: 0 <= j < i ==> Planned(ps, j, steps[j], snap)
    {
      var step;
      step, bound := AnalysePattern(ps[i], bound, snap);
      TrackedGrows(ps, i);
      steps := steps + [step];
    }
    plan := ExplainPlan(steps, exists i :: 0 <= i < |rules| && NamesHead(rules[i]));
  }

  lemma TrackedGrows(ps: seq<VarPattern>, i: nat)
    requires i < |ps|
    ensures Tracked(ps[..i + 1]) == Tracked(ps[..i]) + EndVars(ps[i])
  {
    var a, b := ps[..i], ps[..i + 1];
    forall x ensures x in Tracked(b) <==> x in Tracked(a) || x in EndVars(ps[i]) {
      if x in Tracked(b) {
        var j :| 0 <= j < |b| && x in EndVars(b[j]);
        assert j < i ==> a[j] == b[j];
      }
      if x in Tracked(a) {
        var j :| 0 <= j < |a| && x in EndVars(a[j]);
        assert b[j] == a[j];
      }
      if x in EndVars(ps[i]) { assert b[i] == ps[i]; }
    }
  }

  /** Step `i` of the plan reports `x` as newly bound. */
  predicate Reports(ps: seq<VarPattern>, i: nat, x: string)
    requires i < |ps|
  {
    x in NewVars(ps[i], Tracked(ps[..i]))
  }

  lemma ReportsNew(ps: seq<VarPattern>, i: nat, x: string)
    requires i < |ps|
    ensures Reports(ps, i, x) <==> x in Tracked(ps[..i + 1]) && x !in Tracked(ps[..i])
  {
    TrackedGrows(ps, i);
    NewVarsAre(ps[i], Tracked(ps[..i]));
  }

  lemma {:induction false} TrackedStays(ps: seq<VarPattern>, i: nat, j: nat, x: string)
    requires i <= j <= |ps| && x in Tracked(ps[..i])
    ensures x in Tracked(ps[..j])
    decreases j
  {
    if i < j {
      TrackedStays(ps, i, j - 1, x);
      TrackedGrows(ps, j - 1);
    }
  }

  /** The plan reports each variable of the query at exactly one step. */
  lemma BindsOnce(ps: seq<VarPattern>, i: nat, j: nat, x: string)
    requires i < j < |ps| && Reports(ps, i, x)
    ensures !Reports(ps, j, x)
  {
    ReportsNew(ps, i, x);
    TrackedStays(ps, i + 1, j, x);
    ReportsNew(ps, j, x);
  }

  lemma {:induction false} BindsAll(ps: seq<VarPattern>, n: nat, x: string)
    requires n <= |ps|
    ensures x in Tracked(ps[..n]) <==> exists i :: 0 <= i < n && Reports(ps, i, x)
  {
    if n > 0 {
      BindsAll(ps, n - 1, x);
      ReportsNew(ps, n - 1, x);
      if x in Tracked(ps[..n - 1]) { TrackedStays(ps, n - 1, n, x); }
    }
  }

  // ── The plan, slot by slot ───────────────────────────────────────────────

  /** An earlier pattern has `x` as its subject or object. */
  predicate SeenBefore(ps: seq<VarPattern>, i: nat, x: string)
    requires i <= |ps|
  {
    exists j :: 0 <= j < i && (ps[j].subject == Var(x) || ps[j].obj == Var(x))
  }

  lemma TrackedIsSeen(ps: seq<VarPattern>, i: nat, x: string)
    requires i <= |ps|
    ensures x in Tracked(ps[..i]) <==> SeenBefore(ps, i, x)
  {
    if x in Tracked(ps[..i]) {
      var j :| 0 <= j < i && x in EndVars(ps[..i][j]);
      assert ps[..i][j] == ps[j];
    }
    if j :| 0 <= j < i && (ps[j].subject == Var(x) || ps[j].obj == Var(x)) {
      assert ps[..i][j] == ps[j] && x in EndVars(ps[..i][j]);
    }
  }

  /** The subject is a node, or a variable an earlier pattern binds. */
  predicate SubjectBound(ps: seq<VarPattern>, i: nat)
    requires i < |ps|
  {
    ps[i].subject.Bound? || (ps[i].subject.Var? && SeenBefore(ps, i, ps[i].subject.name))
  }

  /** The object is a node, a literal, or a variable an earlier pattern binds. */
  predicate ObjectBound(ps: seq<VarPattern>, i: nat)
    requires i < |ps|
  {
    ps[i].obj.Bound? || ps[i].obj.Literal? || (ps[i].obj.Var? && SeenBefore(ps, i, ps[i].obj.name))
  }

  /** The index reported for a step, by the slots bound when it is reached. */
  lemma PlannedKind(ps: seq<VarPattern>, i: nat, step: ExplainStep, snap: Snapshot)
    requires i < |ps| && Planned(ps, i, step, snap)
    ensures step.kind ==
            match (SubjectBound(ps, i), ps[i].pred.Some?, ObjectBound(ps, i))
            case (true, true, true) => ExactSpo
            case (true, true, false) => SpoBySubjectPredicate
            case (true, false, true) => Sop
            case (true, false, false) => SpoBySubject
            case (false, true, true) => Pos
            case (false, true, false) => Pso
            case (false, false, true) => Osp
            case (false, false, false) => Full
  {
    if ps[i].subject.Var? { TrackedIsSeen(ps, i, ps[i].subject.name); }
    if ps[i].obj.Var? { TrackedIsSeen(ps, i, ps[i].obj.name); }
  }

  /** The variables reported as newly bound: the subject's, then the object's, unless
      seen before. */
  lemma PlannedBinds(ps: seq<VarPattern>, i: nat, step: ExplainStep, snap: Snapshot)
    requires i < |ps| && Planned(ps, i, step, snap)
    ensures var s, o := ps[i].subject, ps[i].obj;
            step.binds == (if s.Var? && !SeenBefore(ps, i, s.name) then [s.name] else []) +
                          (if o.Var? && o != s && !SeenBefore(ps, i, o.name) then [o.name] else [])
  {
    if ps[i].subject.Var? { TrackedIsSeen(ps, i, ps[i].subject.name); }
    if ps[i].obj.Var? { TrackedIsSeen(ps, i, ps[i].obj.name); }
  }
}
