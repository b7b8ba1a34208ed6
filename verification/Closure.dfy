/** Transitive closure by rules: the base and step rules, and `reachable_from`. */
module Closure {
  import opened Sequences
  import opened Store
  import opened Datalog
  import opened Reachability
  import opened Semantics
  import opened Joins
  import opened Rules
  import opened Passes
  import opened FixedPoint
  import opened Termination

  /** `?x p ?y` over every graph. */
  function EdgePattern(x: string, p: string, y: string): VarPattern {
    VarPattern(Var(x), Some(p), None, Var(y), None, None, InUnion)
  }

  /** h(x, y) :- p(x, y) */
  function BaseRule(h: string, p: string): Rule { Rule(h, "x", "y", [EdgePattern("x", p, "y")]) }

  /** h(x, z) :- h(x, y), p(y, z) */
  function StepRule(h: string, p: string): Rule {
    Rule(h, "x", "z", [EdgePattern("x", h, "y"), EdgePattern("y", p, "z")])
  }

  // ── When the two rules fire ──────────────────────────────────────────────

  /** A fact of `p` as an ungraphed pattern reads it. */
  ghost predicate Fact(snap: Snapshot, d: DerivedFacts, p: string, s: NodeId, o: NodeId) {
    if p in d then (s, o) in d[p] else HasEdge(snap, p, s, o)
  }

  function FactTriple(p: string, s: NodeId, o: NodeId, e: EdgeId): Match {
    Edge(Quad(DEFAULT_GRAPH, Relation(s, p, o, e)))
  }

  predicate IsFact(m: Match, p: string, s: NodeId, o: NodeId) {
    m.Edge? && m.quad.triple.Relation? && m.quad.triple.pred == p && m.quad.triple.subject == s &&
    m.quad.triple.obj == o
  }

  lemma FactVisible(snap: Snapshot, d: DerivedFacts, e: EdgeDraw, x: string, p: string, y: string, s: NodeId, o: NodeId)
    ensures Fact(snap, d, p, s, o)
       <==> exists m :: Visible(EdgePattern(x, p, y), m, InView(snap, d, e)) && IsFact(m, p, s, o)
  {
    var vp, ctx := EdgePattern(x, p, y), InView(snap, d, e);
    if Fact(snap, d, p, s, o) {
      if p in d {
        assert Visible(vp, FactTriple(p, s, o, 0), ctx);
      } else {
        var t :| t in snap.UnionTriples() && t.Relation? && t.pred == p && t.subject == s && t.obj == o;
        assert Visible(vp, Edge(Quad(DEFAULT_GRAPH, t)), ctx);
      }
    }
  }

  /** An answer that binds both ends of an edge pattern to nodes rests on a fact. */
  lemma AgreeingFact(snap: Snapshot, d: DerivedFacts, e: EdgeDraw, x: string, p: string, y: string, m: Match,
      r: Solution)
    requires r.Valid() && Visible(EdgePattern(x, p, y), m, InView(snap, d, e))
    requires Agrees(EdgePattern(x, p, y), m, r, InView(snap, d, e)) && y in r.nodes
    ensures x in r.nodes && Fact(snap, d, p, r.nodes[x], r.nodes[y])
  {
    FactVisible(snap, d, e, x, p, y, r.nodes[x], r.nodes[y]);
    assert m.quad.triple.Relation?;
  }

  lemma FactAgrees(snap: Snapshot, d: DerivedFacts, e: EdgeDraw, x: string, p: string, y: string,
      r: Solution) returns (m: Match)
    requires x in r.nodes && y in r.nodes && Fact(snap, d, p, r.nodes[x], r.nodes[y])
    ensures Visible(EdgePattern(x, p, y), m, InView(snap, d, e)) &&
            Agrees(EdgePattern(x, p, y), m, r, InView(snap, d, e))
    ensures NodeVars(EdgePattern(x, p, y), m) == {x, y}
  {
    FactVisible(snap, d, e, x, p, y, r.nodes[x], r.nodes[y]);
    m :| Visible(EdgePattern(x, p, y), m, InView(snap, d, e)) && IsFact(m, p, r.nodes[x], r.nodes[y]);
  }

  lemma BaseFires(h: string, p: string, snap: Snapshot, d: DerivedFacts, e: EdgeDraw, s: NodeId, o: NodeId)
    ensures Fires(BaseRule(h, p), InView(snap, d, e), s, o) <==> Fact(snap, d, p, s, o)
  {
    var rule, ctx := BaseRule(h, p), InView(snap, d, e);
    if Fires(rule, ctx, s, o) {
      var r :| IsAnswer(rule.body, EMPTY, r, ctx) && HeadIs(rule, r, s, o);
      var ms :| AnswerBy(rule.body, ms, EMPTY, r, ctx);
      assert Visible(rule.body[0], ms[0], ctx);
      AgreeingFact(snap, d, e, "x", p, "y", ms[0], r);
    }
    if Fact(snap, d, p, s, o) {
      var r := Solution(map["x" := s, "y" := o], map[], map[]);
      var m := FactAgrees(snap, d, e, "x", p, "y", r);
      forall n | Binds(r, n) ensures SomeMatchBinds(rule.body, [m], n) { assert MatchBinds(rule.body[0], [m][0], n); }
      assert AnswerBy(rule.body, [m], EMPTY, r, ctx);
      assert HeadIs(rule, r, s, o);
    }
  }

  lemma StepDerives(h: string, p: string, snap: Snapshot, d: DerivedFacts, e: EdgeDraw, s: NodeId, mid: NodeId,
      o: NodeId)
    requires Fact(snap, d, h, s, mid) && Fact(snap, d, p, mid, o)
    ensures Fires(StepRule(h, p), InView(snap, d, e), s, o)
  {
    var rule, ctx := StepRule(h, p), InView(snap, d, e);
    var r := Solution(map["x" := s, "y" := mid, "z" := o], map[], map[]);
    var m0 := FactAgrees(snap, d, e, "x", h, "y", r);
    var m1 := FactAgrees(snap, d, e, "y", p, "z", r);
    var ms := [m0, m1];
    assert AllAgree(rule.body, ms, r, ctx);
    assert MatchBinds(rule.body[0], ms[0], NodeName("x")) && MatchBinds(rule.body[0], ms[0], NodeName("y"));
    assert MatchBinds(rule.body[1], ms[1], NodeName("z"));
    forall n | Binds(r, n) ensures SomeMatchBinds(rule.body, ms, n) {
      assert n == NodeName("x") || n == NodeName("y") || n == NodeName("z");
    }
    assert AnswerBy(rule.body, ms, EMPTY, r, ctx);
    assert HeadIs(rule, r, s, o);
  }

  lemma StepRestsOn(h: string, p: string, snap: Snapshot, d: DerivedFacts, e: EdgeDraw, s: NodeId,
      o: NodeId) returns (mid: NodeId)
    requires Fires(StepRule(h, p), InView(snap, d, e), s, o)
    ensures Fact(snap, d, h, s, mid) && Fact(snap, d, p, mid, o)
  {
    var rule, ctx := StepRule(h, p), InView(snap, d, e);
    var r :| IsAnswer(rule.body, EMPTY, r, ctx) && HeadIs(rule, r, s, o);
    var ms :| AnswerBy(rule.body, ms, EMPTY, r, ctx);
    assert Visible(rule.body[0], ms[0], ctx) && Visible(rule.body[1], ms[1], ctx);
    AgreeingFact(snap, d, e, "y", p, "z", ms[1], r);
    AgreeingFact(snap, d, e, "x", h, "y", ms[0], r);
    mid := r.nodes["y"];
  }

  lemma StepFires(h: string, p: string, snap: Snapshot, d: DerivedFacts, e: EdgeDraw, s: NodeId, o: NodeId)
    ensures Fires(StepRule(h, p), InView(snap, d, e), s, o)
       <==> exists mid :: Fact(snap, d, h, s, mid) && Fact(snap, d, p, mid, o)
  {
    if Fires(StepRule(h, p), InView(snap, d, e), s, o) { var mid := StepRestsOn(h, p, snap, d, e, s, o); }
    if mid :| Fact(snap, d, h, s, mid) && Fact(snap, d, p, mid, o) { StepDerives(h, p, snap, d, e, s, mid, o); }
  }

  // ── reachable_from ───────────────────────────────────────────────────────

  const REACHABLE := "reachable"

  function ReachProgram(start: NodeId, p: string, targets: seq<NodeId>): Program {
    Program(seq(|targets|, i requires 0 <= i < |targets| => Seed(REACHABLE, start, targets[i])),
      [StepRule(REACHABLE, p)])
  }

  lemma ReachAdmissible(start: NodeId, p: string, targets: seq<NodeId>, snap: Snapshot)
    requires targets != [] && snap.Valid()
    ensures Admissible(ReachProgram(start, p, targets), snap) && Derived(ReachProgram(start, p, targets)) == {REACHABLE}
  {
    var prog := ReachProgram(start, p, targets);
    assert prog.seeds[0].pred == REACHABLE && prog.rules[0].head == REACHABLE;
  }

  /** The pairs from `start` that the rules should reach: every end of a walk,
      or only direct neighbours when `p` is the derived name itself. */
  ghost predicate ShouldReach(snap: Snapshot, p: string, start: NodeId, y: NodeId) {
    if p == REACHABLE then HasEdge(snap, p, start, y) else Reaches(snap, p, start, y)
  }

  lemma ReachStep(snap: Snapshot, p: string, x: NodeId, y: NodeId, z: NodeId)
    ensures HasEdge(snap, p, x, y) ==> Reaches(snap, p, x, y)
    ensures Reaches(snap, p, x, y) && HasEdge(snap, p, y, z) ==> Reaches(snap, p, x, z)
  {
    WalkZero(snap, p, x, x);
    WalkLast(snap, p, x, y, 0);
    if n :| n >= 1 && Connected(snap, p, x, y, n) {
      WalkLast(snap, p, x, z, n);
    }
  }

  lemma ReachesTarget(snap: Snapshot, p: string, x: NodeId, y: NodeId)
    requires Reaches(snap, p, x, y)
    ensures y in Targets(snap)
  {
    var n :| n >= 1 && Connected(snap, p, x, y, n);
    WalkLast(snap, p, x, y, n - 1);
    var z :| HasEdge(snap, p, z, y);
    SuccessorsMember(snap, p, {z}, y);
    NeighboursAreObjects(snap.UnionTriples(), p, {z});
  }

  /** Intended facts form a model, so the least model holds no more. */
  lemma ReachModel(start: NodeId, p: string, targets: seq<NodeId>, snap: Snapshot) returns (m: DerivedFacts)
    requires targets != [] && snap.Valid() && forall y :: y in targets ==> HasEdge(snap, p, start, y)
    ensures IsModel(ReachProgram(start, p, targets), snap, m)
    ensures forall s: NodeId, y: NodeId :: (s, y) in Lookup(m, REACHABLE) ==>
              s == start && ShouldReach(snap, p, start, y)
  {
    var prog := ReachProgram(start, p, targets);
    ReachAdmissible(start, p, targets, snap);
    var ends := set y | y in Targets(snap) && ShouldReach(snap, p, start, y);
    var pairs := set y | y in ends :: (start, y);
    m := map[REACHABLE := pairs];
    forall y | ShouldReach(snap, p, start, y) ensures (start, y) in pairs {
      ReachStep(snap, p, start, y, y);
      ReachesTarget(snap, p, start, y);
      assert y in ends;
    }
    forall i | 0 <= i < |prog.seeds|
      ensures (prog.seeds[i].subject, prog.seeds[i].obj) in Lookup(m, prog.seeds[i].pred)
    {
      assert targets[i] in targets;
      ReachStep(snap, p, start, targets[i], targets[i]);
    }
    forall s: NodeId, o: NodeId | Fires(prog.rules[0], InView(snap, m, ZeroEdges()), s, o)
      ensures (s, o) in Lookup(m, REACHABLE)
    {
      StepFires(REACHABLE, p, snap, m, ZeroEdges(), s, o);
      var mid :| Fact(snap, m, REACHABLE, s, mid) && Fact(snap, m, p, mid, o);
      ReachStep(snap, p, start, mid, o);
    }
  }

  lemma {:induction false} WalksDerived(start: NodeId, p: string, snap: Snapshot, d: DerivedFacts, n: nat, y: NodeId)
    requires p != REACHABLE && d.Keys == {REACHABLE} && ClosedUnder(StepRule(REACHABLE, p), snap, d, ZeroEdges())
    requires forall z: NodeId :: HasEdge(snap, p, start, z) ==> (start, z) in d[REACHABLE]
    requires n >= 1 && Connected(snap, p, start, y, n)
    ensures (start, y) in d[REACHABLE]
  {
    WalkLast(snap, p, start, y, n - 1);
    var z :| Connected(snap, p, start, z, n - 1) && HasEdge(snap, p, z, y);
    if n == 1 {
      WalkZero(snap, p, start, z);
    } else {
      WalksDerived(start, p, snap, d, n - 1, z);
      StepFires(REACHABLE, p, snap, d, ZeroEdges(), start, y);
      assert Fact(snap, d, REACHABLE, start, z) && Fact(snap, d, p, z, y);
    }
  }

  /** Nodes at the end of a walk of one or more `p` edges from `start`. The
      derived relation is called "reachable"; following a predicate of that very
      name reads the derived facts instead of storage and stops at direct
      neighbours. */
  method ReachableFrom(start: NodeId, p: string, snap: Snapshot, draws: Draws) returns (reached: set<NodeId>)
    requires snap.Valid()
    ensures p != "reachable" ==> forall y :: y in reached <==> Reaches(snap, p, start, y)
    ensures p == "reachable" ==> forall y :: y in reached <==> HasEdge(snap, p, start, y)
  {
    var targets := DirectNeighbours(start, p, snap);
    if targets == [] {
      forall y ensures !Reaches(snap, p, start, y) { if Reaches(snap, p, start, y) { FirstEdge(snap, p, start, y); } }
      return {};
    }
    var prog := ReachProgram(start, p, targets);
    ReachAdmissible(start, p, targets, snap);
    AdmissibleIsContained(prog, snap);
    ContainedEnds(prog, snap, draws);
    var derived, passes := ExecuteRecursive(prog, snap, draws);
    reached := set pair: NodePair | pair in derived[REACHABLE] && pair.0 == start :: pair.1;
    EndsOfPairs(derived[REACHABLE], start, reached);
    ReachDerived(start, p, targets, snap, derived);
  }

  lemma EndsOfPairs(pairs: set<NodePair>, start: NodeId, ends: set<NodeId>)
    requires ends == set pair: NodePair | pair in pairs && pair.0 == start :: pair.1
    ensures forall y: NodeId :: y in ends <==> (start, y) in pairs
  {
    forall y: NodeId ensures y in ends <==> (start, y) in pairs {
      if (start, y) in pairs { assert (start, y).1 == y; }
      if y in ends {
        var pair: NodePair :| pair in pairs && pair.0 == start && pair.1 == y;
        assert pair == (start, y);
      }
    }
  }

  lemma ReachDerived(start: NodeId, p: string, targets: seq<NodeId>, snap: Snapshot, d: DerivedFacts)
    requires targets != [] && snap.Valid() && IsLeastModel(ReachProgram(start, p, targets), snap, d)
    requires forall y :: y in targets <==> HasEdge(snap, p, start, y)
    ensures forall y: NodeId :: (start, y) in Lookup(d, REACHABLE) <==> ShouldReach(snap, p, start, y)
  {
    hide ShouldReach;
    var m := ReachModel(start, p, targets, snap);
    assert Below(d, m);
    ReachFacts(start, p, targets, snap, d);
  }

  lemma FirstEdge(snap: Snapshot, p: string, start: NodeId, y: NodeId)
    requires Reaches(snap, p, start, y)
    ensures exists z :: HasEdge(snap, p, start, z)
  {
    var n :| n >= 1 && Connected(snap, p, start, y, n);
    var path :| WalkOf(snap, p, path, start, y, n);
    assert HasEdge(snap, p, path[0], path[1]);
  }

  lemma ReachFacts(start: NodeId, p: string, targets: seq<NodeId>, snap: Snapshot, d: DerivedFacts)
    requires targets != [] && snap.Valid() && IsModel(ReachProgram(start, p, targets), snap, d)
    requires forall y :: y in targets <==> HasEdge(snap, p, start, y)
    ensures forall y: NodeId :: ShouldReach(snap, p, start, y) ==> (start, y) in Lookup(d, REACHABLE)
  {
    var prog := ReachProgram(start, p, targets);
    ReachAdmissible(start, p, targets, snap);
    assert ClosedUnder(prog.rules[0], snap, d, ZeroEdges());
    forall z: NodeId | HasEdge(snap, p, start, z) ensures (start, z) in d[REACHABLE] {
      assert z in targets;
      var i :| 0 <= i < |targets| && targets[i] == z;
      assert prog.seeds[i] == Seed(REACHABLE, start, z);
    }
    if p != REACHABLE {
      forall y: NodeId | Reaches(snap, p, start, y) ensures (start, y) in d[REACHABLE] {
        var n :| n >= 1 && Connected(snap, p, start, y, n);
        WalksDerived(start, p, snap, d, n, y);
      }
    }
  }

  method DirectNeighbours(start: NodeId, p: string, snap: Snapshot) returns (targets: seq<NodeId>)
    ensures forall y :: y in targets <==> HasEdge(snap, p, start, y)
  {
    var direct := snap.Evaluate(Pattern(Some(start), Some(p), None));
    targets := [];
    for i := 0 to |direct|
      invariant forall y :: y in targets <==> exists j :: 0 <= j < i && direct[j].Relation? && direct[j].obj == y
    {
      if direct[i].Relation? {
        targets := targets + [direct[i].obj];
      }
    }
    forall t ensures t in direct <==> t in snap.UnionTriples() && t.subject == start && t.pred == p {
      FilterMember(snap.BySubjectPredicate(start, p), snap.UnionTriples(), t);
    }
  }

  /** The name clash loses nodes as soon as a neighbour has a further neighbour
      that is not one already: the result is right exactly when two-step walks
      add nothing. */
  lemma ReservedNameExact(snap: Snapshot, start: NodeId)
    ensures (forall y :: HasEdge(snap, REACHABLE, start, y) <==> Reaches(snap, REACHABLE, start, y))
       <==> forall y, z :: HasEdge(snap, REACHABLE, start, y) && HasEdge(snap, REACHABLE, y, z) ==>
              HasEdge(snap, REACHABLE, start, z)
  {
    if forall y, z :: HasEdge(snap, REACHABLE, start, y) && HasEdge(snap, REACHABLE, y, z) ==>
         HasEdge(snap, REACHABLE, start, z) {
      forall y ensures HasEdge(snap, REACHABLE, start, y) <==> Reaches(snap, REACHABLE, start, y) {
        ReachStep(snap, REACHABLE, start, y, y);
        if n :| n >= 1 && Connected(snap, REACHABLE, start, y, n) { TwoStepsSuffice(snap, start, n, y); }
      }
    } else {
      var y, z :| HasEdge(snap, REACHABLE, start, y) && HasEdge(snap, REACHABLE, y, z) &&
                  !HasEdge(snap, REACHABLE, start, z);
      ReachStep(snap, REACHABLE, start, y, z);
    }
  }

  lemma {:induction false} TwoStepsSuffice(snap: Snapshot, start: NodeId, n: nat, y: NodeId)
    requires forall y, z :: HasEdge(snap, REACHABLE, start, y) && HasEdge(snap, REACHABLE, y, z) ==>
               HasEdge(snap, REACHABLE, start, z)
    requires n >= 1 && Connected(snap, REACHABLE, start, y, n)
    ensures HasEdge(snap, REACHABLE, start, y)
  {
    WalkLast(snap, REACHABLE, start, y, n - 1);
    var z :| Connected(snap, REACHABLE, start, z, n - 1) && HasEdge(snap, REACHABLE, z, y);
    if n == 1 { WalkZero(snap, REACHABLE, start, z); } else { TwoStepsSuffice(snap, start, n - 1, z); }
  }

  // ── Closure programs: a base and a step rule per predicate ───────────────

  /** The derived name of a predicate's closure. */
  function Tc(p: string): string { "__tc_" + p }

  lemma TcInjective(p: string, q: string)
    ensures Tc(p) == Tc(q) ==> p == q
  {
    assert p == Tc(p)[5..] && q == Tc(q)[5..];
  }

  predicate ClosureRule(rule: Rule, preds: set<string>) {
    exists p :: p in preds && (rule == BaseRule(Tc(p), p) || rule == StepRule(Tc(p), p))
  }

  /** Every step rule stands behind a rule with its head. */
  predicate BasesFirst(prog: Program) {
    forall i :: 0 <= i < |prog.rules| && |prog.rules[i].body| == 2 ==> HeadedBefore(prog, prog.rules[i].head, i)
  }

  predicate ClosureProgram(prog: Program, preds: set<string>) {
    prog.seeds == [] && BasesFirst(prog) &&
    (forall i :: 0 <= i < |prog.rules| ==> ClosureRule(prog.rules[i], preds)) &&
    forall p :: p in preds ==> BaseRule(Tc(p), p) in prog.rules && StepRule(Tc(p), p) in prog.rules
  }

  /** No predicate being closed is itself the name of a closure. */
  predicate NoCapture(preds: set<string>) { forall p, q :: p in preds && q in preds ==> p != Tc(q) }

  lemma ClosureKeys(prog: Program, preds: set<string>, h: string)
    requires ClosureProgram(prog, preds)
    ensures h in Derived(prog) <==> exists p :: p in preds && h == Tc(p)
  {
    if h in Derived(prog) {
      var i :| 0 <= i < |prog.rules| && prog.rules[i].head == h;
      assert ClosureRule(prog.rules[i], preds);
    }
    if p :| p in preds && h == Tc(p) { ClosureHeads(prog, preds, p); }
  }

  lemma ClosureHeads(prog: Program, preds: set<string>, p: string)
    requires ClosureProgram(prog, preds) && p in preds
    ensures Tc(p) in Derived(prog)
  {
    assert BaseRule(Tc(p), p) in prog.rules;
    var i :| 0 <= i < |prog.rules| && prog.rules[i] == BaseRule(Tc(p), p);
    assert prog.rules[i].head == Tc(p);
  }

  /** A stored triple under a closure's name is never read: the base rule brings
      the name into memory before the step rule asks for it. */
  lemma ClosureSheltered(prog: Program, preds: set<string>, snap: Snapshot, i: nat)
    requires ClosureProgram(prog, preds) && NoCapture(preds) && i < |prog.rules|
    ensures ShelteredRule(prog, snap, i)
  {
    var rule := prog.rules[i];
    assert ClosureRule(rule, preds);
    var p :| p in preds && (rule == BaseRule(Tc(p), p) || rule == StepRule(Tc(p), p));
    assert p !in Heads(prog) by { if p in Heads(prog) { ClosureKeys(prog, preds, p); } }
    forall k | 0 <= k < |rule.body| && NamesOneOf(rule.body[k], Heads(prog))
      ensures HeadedBefore(prog, rule.body[k].pred.value, i)
    {
      assert rule == StepRule(Tc(p), p) && k == 0;
    }
  }

  lemma ClosureAdmissible(prog: Program, preds: set<string>, snap: Snapshot)
    requires ClosureProgram(prog, preds) && NoCapture(preds) && snap.Valid()
    ensures Admissible(prog, snap)
  {
    hide ShelteredRule, GoodRule, ClosureProgram;
    forall i | 0 <= i < |prog.rules| ensures ShelteredRule(prog, snap, i) { ClosureSheltered(prog, preds, snap, i); }
    forall i | 0 <= i < |prog.rules| ensures GoodRule(prog.rules[i], Derived(prog), snap) {
      ClosureRuleIsGood(prog, preds, snap, i);
    }
  }

  lemma ClosureRuleIsGood(prog: Program, preds: set<string>, snap: Snapshot, i: nat)
    requires ClosureProgram(prog, preds) && i < |prog.rules|
    ensures GoodRule(prog.rules[i], Derived(prog), snap)
  {
    assert ClosureRule(prog.rules[i], preds);
    PlainBodyIsGood(prog.rules[i], Derived(prog), snap);
  }

  /** A body without predicate variables and edge variables asks for nothing. */
  lemma PlainBodyIsGood(rule: Rule, derived: set<string>, snap: Snapshot)
    requires forall j :: 0 <= j < |rule.body| ==> rule.body[j].pred.Some? && rule.body[j].edgeVar.None?
    ensures GoodRule(rule, derived, snap)
  {}

  ghost predicate WalkPair(snap: Snapshot, preds: set<string>, h: string, pair: NodePair) {
    exists p :: p in preds && h == Tc(p) && Reaches(snap, p, pair.0, pair.1)
  }

  ghost function WalkFacts(prog: Program, preds: set<string>, snap: Snapshot): DerivedFacts {
    var nodes := Universe(prog, snap);
    map h | h in Derived(prog) :: set pair | pair in Product(nodes, nodes) && WalkPair(snap, preds, h, pair)
  }

  lemma ReachesInUniverse(prog: Program, snap: Snapshot, p: string, s: NodeId, o: NodeId)
    requires Reaches(snap, p, s, o)
    ensures s in Universe(prog, snap) && o in Universe(prog, snap)
  {
    var n :| n >= 1 && Connected(snap, p, s, o, n);
    ReachWithinMeaning(snap, p, s, n, o);
    WalkEndsInStore(snap, p, s, n, o);
  }

  lemma WalkFactsMember(prog: Program, preds: set<string>, snap: Snapshot, p: string, s: NodeId, o: NodeId)
    requires ClosureProgram(prog, preds) && p in preds
    ensures Fact(snap, WalkFacts(prog, preds, snap), Tc(p), s, o) <==> Reaches(snap, p, s, o)
  {
    hide Reaches, ClosureProgram, Universe, Tc;
    ClosureKeys(prog, preds, Tc(p));
    if Reaches(snap, p, s, o) {
      ReachesInUniverse(prog, snap, p, s, o);
      assert WalkPair(snap, preds, Tc(p), (s, o));
    }
    if WalkPair(snap, preds, Tc(p), (s, o)) {
      var q :| q in preds && Tc(p) == Tc(q) && Reaches(snap, q, s, o);
      TcInjective(p, q);
    }
  }

  lemma WalksAreModel(prog: Program, preds: set<string>, snap: Snapshot)
    requires ClosureProgram(prog, preds) && NoCapture(preds)
    ensures IsModel(prog, snap, WalkFacts(prog, preds, snap))
  {
    var m := WalkFacts(prog, preds, snap);
    forall i | 0 <= i < |prog.rules| ensures ClosedUnder(prog.rules[i], snap, m, ZeroEdges()) {
      var rule := prog.rules[i];
      assert ClosureRule(rule, preds);
      var p :| p in preds && (rule == BaseRule(Tc(p), p) || rule == StepRule(Tc(p), p));
      assert p !in m by { if p in m { ClosureKeys(prog, preds, p); } }
      ClosureKeys(prog, preds, Tc(p));
      forall s: NodeId, o: NodeId | Fires(rule, InView(snap, m, ZeroEdges()), s, o)
        ensures (s, o) in Lookup(m, rule.head)
      {
        WalkFactsMember(prog, preds, snap, p, s, o);
        if rule == BaseRule(Tc(p), p) {
          BaseFires(Tc(p), p, snap, m, ZeroEdges(), s, o);
          ReachStep(snap, p, s, o, o);
        } else {
          var mid := StepRestsOn(Tc(p), p, snap, m, ZeroEdges(), s, o);
          WalkFactsMember(prog, preds, snap, p, s, mid);
          ReachStep(snap, p, s, mid, o);
        }
      }
    }
  }

  lemma {:induction false} WalksClosed(prog: Program, preds: set<string>, snap: Snapshot, d: DerivedFacts, p: string,
      s: NodeId, n: nat, o: NodeId)
    requires ClosureProgram(prog, preds) && NoCapture(preds) && p in preds && IsModel(prog, snap, d)
    requires n >= 1 && Connected(snap, p, s, o, n)
    ensures (s, o) in Lookup(d, Tc(p))
  {
    assert p !in d by { if p in d { ClosureKeys(prog, preds, p); } }
    WalkLast(snap, p, s, o, n - 1);
    var z :| Connected(snap, p, s, z, n - 1) && HasEdge(snap, p, z, o);
    if n == 1 {
      WalkZero(snap, p, s, z);
      var i :| 0 <= i < |prog.rules| && prog.rules[i] == BaseRule(Tc(p), p);
      assert ClosedUnder(prog.rules[i], snap, d, ZeroEdges());
      BaseFires(Tc(p), p, snap, d, ZeroEdges(), s, o);
    } else {
      WalksClosed(prog, preds, snap, d, p, s, n - 1, z);
      ClosureKeys(prog, preds, Tc(p));
      var i :| 0 <= i < |prog.rules| && prog.rules[i] == StepRule(Tc(p), p);
      assert ClosedUnder(prog.rules[i], snap, d, ZeroEdges());
      StepDerives(Tc(p), p, snap, d, ZeroEdges(), s, z, o);
    }
  }

  /** The derived closure of `p` holds exactly the ends of walks of one or more
      `p` edges. */
  lemma ClosureMeaning(prog: Program, preds: set<string>, snap: Snapshot, d: DerivedFacts, p: string, s: NodeId,
      o: NodeId)
    requires ClosureProgram(prog, preds) && NoCapture(preds) && p in preds && IsLeastModel(prog, snap, d)
    ensures Fact(snap, d, Tc(p), s, o) <==> Reaches(snap, p, s, o)
  {
    ClosureKeys(prog, preds, Tc(p));
    var m := WalkFacts(prog, preds, snap);
    WalksAreModel(prog, preds, snap);
    assert Below(d, m);
    WalkFactsMember(prog, preds, snap, p, s, o);
    if n :| n >= 1 && Connected(snap, p, s, o, n) { WalksClosed(prog, preds, snap, d, p, s, n, o); }
  }
}
