/** When the fixed-point loop of crates/polargraph-query/src/datalog.rs ends. */
module Termination {
  import opened Sequences
  import opened Store
  import opened Datalog
  import opened Semantics
  import opened Joins
  import opened Rules
  import opened Passes
  import opened Yielding
  import opened FixedPoint

  // ── Nodes a solution binds ───────────────────────────────────────────────

  /** `nodes` holds every node of the store and of the facts in view. */
  predicate Covers(nodes: set<NodeId>, snap: Snapshot, d: DerivedFacts) {
    StoreNodes(snap) <= nodes && Within(d, nodes)
  }

  /** The pattern reads derived facts under `sol`. */
  predicate ReadsFacts(vp: VarPattern, sol: Solution, ctx: Context) {
    IsUngraphed(vp) && ReadsDerived(Substitute(vp, sol, ctx.snapshot).pred, ctx.view)
  }

  /** A match binds known nodes, except where it names the edge of a derived fact. */
  lemma SeenNodes(vp: VarPattern, sol: Solution, m: Match, c: Solution, snap: Snapshot, d: DerivedFacts, e: EdgeDraw,
      nodes: set<NodeId>, x: string)
    requires Covers(nodes, snap, d) && Seen(vp, sol, m, InView(snap, d, e)) &&
             Contributes(vp, m, sol, c, InView(snap, d, e))
    requires x in NodeVars(vp, m) && !(vp.edgeVar == Some(x) && ReadsFacts(vp, sol, InView(snap, d, e)))
    ensures c.nodes[x] in nodes
  {
    hide ReachWithin, QuadNodes, Substitute;
    match m
    case Path(s, t) => WalkEndsInStore(snap, vp.pred.value, s, vp.maxHops.value, t);
    case Edge(q) =>
      if !vp.graph.InUnion? {
        QuadNodesMember(snap.quads, q);
      } else if !ReadsFacts(vp, sol, InView(snap, d, e)) {
        UnionTripleNodes(snap, q.triple);
      }
  }

  predicate KnownOff(r: Solution, nodes: set<NodeId>, open: set<string>) {
    forall x :: x in r.nodes && x !in open ==> r.nodes[x] in nodes
  }

  /** Outside `open`, an edge variable belongs to a pattern that reads storage. */
  ghost predicate EdgesStored(ps: seq<VarPattern>, sol: Solution, ctx: Context, open: set<string>) {
    forall i :: 0 <= i < |ps| && IsUngraphed(ps[i]) && ps[i].edgeVar.Some? && ps[i].edgeVar.value !in open ==>
      !NamesDerived(ps[i], ctx) && (Unnamed(ps[i]) ==> Tame(ps, sol, ps[i].predVar.value, ctx))
  }

  lemma StepKeepsNodes(ps: seq<VarPattern>, sol: Solution, c: Solution, snap: Snapshot, d: DerivedFacts, e: EdgeDraw,
      nodes: set<NodeId>, open: set<string>)
    requires ps != [] && snap.Valid() && sol.Valid() && Covers(nodes, snap, d) && KnownOff(sol, nodes, open)
    requires EdgesStored(ps, sol, InView(snap, d, e), open) && c in Step(ps[0], sol, InView(snap, d, e))
    ensures c.Valid() && KnownOff(c, nodes, open) && EdgesStored(ps[1..], c, InView(snap, d, e), open)
  {
    hide Step, Seen, Tame, Covers;
    var ctx := InView(snap, d, e);
    StepSees(ps[0], sol, c, ctx);
    var m :| Seen(ps[0], sol, m, ctx) && Contributes(ps[0], m, sol, c, ctx);
    forall x | x in c.nodes && x !in open ensures c.nodes[x] in nodes {
      if x !in sol.nodes {
        if ps[0].edgeVar == Some(x) { TameIsSteady(ps, sol, ctx); }
        SeenNodes(ps[0], sol, m, c, snap, d, e, nodes, x);
      }
    }
    forall i | 0 <= i < |ps[1..]| && Unnamed(ps[1..][i]) && Tame(ps, sol, ps[1..][i].predVar.value, ctx)
      ensures Tame(ps[1..], c, ps[1..][i].predVar.value, ctx) {
      TameStaysSeen(ps, sol, c, ps[1..][i].predVar.value, ctx);
    }
    assert forall i :: 0 <= i < |ps[1..]| ==> ps[1..][i] == ps[i + 1];
  }

  lemma {:induction false} SolveKeepsNodes(ps: seq<VarPattern>, sol: Solution, r: Solution, snap: Snapshot,
      d: DerivedFacts, e: EdgeDraw, nodes: set<NodeId>, open: set<string>)
    requires snap.Valid() && sol.Valid() && Covers(nodes, snap, d) && KnownOff(sol, nodes, open)
    requires EdgesStored(ps, sol, InView(snap, d, e), open) && r in Solve(ps, [sol], InView(snap, d, e))
    ensures KnownOff(r, nodes, open)
    decreases |ps|
  {
    if ps != [] {
      var c := SolveSplits(ps, sol, r, InView(snap, d, e));
      StepKeepsNodes(ps, sol, c, snap, d, e, nodes, open);
      SolveKeepsNodes(ps[1..], c, r, snap, d, e, nodes, open);
    }
  }

  // ── Programs no drawn id can escape from ─────────────────────────────────

  /** The pattern may come to read derived facts. */
  predicate MayRead(body: seq<VarPattern>, i: nat, derived: set<string>, snap: Snapshot)
    requires i < |body|
  {
    NamesOneOf(body[i], derived) ||
    (Unnamed(body[i]) && !LoosePredicate(body, body[i].predVar.value, derived, snap))
  }

  /** No head variable names the edge of a pattern that may read derived facts. */
  predicate Contained(rule: Rule, derived: set<string>, snap: Snapshot) {
    forall i :: 0 <= i < |rule.body| && MayRead(rule.body, i, derived, snap) ==>
      OptVars(rule.body[i].edgeVar) !! {rule.headSubject, rule.headObject}
  }

  predicate ContainedProgram(prog: Program, snap: Snapshot) {
    forall i :: 0 <= i < |prog.rules| ==> Contained(prog.rules[i], Derived(prog), snap)
  }

  /** The least-model reading asks for more. */
  lemma AdmissibleIsContained(prog: Program, snap: Snapshot)
    requires Admissible(prog, snap)
    ensures ContainedProgram(prog, snap)
  {
    forall i | 0 <= i < |prog.rules| ensures Contained(prog.rules[i], Derived(prog), snap) {
      assert GoodRule(prog.rules[i], Derived(prog), snap);
    }
  }

  function OpenEdges(body: seq<VarPattern>, derived: set<string>, snap: Snapshot): set<string> {
    set i, x | 0 <= i < |body| && MayRead(body, i, derived, snap) && x in OptVars(body[i].edgeVar) :: x
  }

  lemma BodyEdgesStored(body: seq<VarPattern>, derived: set<string>, snap: Snapshot, d: DerivedFacts, e: EdgeDraw)
    requires d.Keys <= derived
    ensures EdgesStored(body, EMPTY, InView(snap, d, e), OpenEdges(body, derived, snap))
  {
    var ctx, open := InView(snap, d, e), OpenEdges(body, derived, snap);
    forall i | 0 <= i < |body| && IsUngraphed(body[i]) && body[i].edgeVar.Some? && body[i].edgeVar.value !in open
      ensures !NamesDerived(body[i], ctx) && (Unnamed(body[i]) ==> Tame(body, EMPTY, body[i].predVar.value, ctx))
    {
      assert body[i].edgeVar.value in OptVars(body[i].edgeVar);
      assert !MayRead(body, i, derived, snap);
    }
  }

  /** A contained rule yields pairs of known nodes. */
  lemma ContainedYields(rule: Rule, derived: set<string>, snap: Snapshot, d: DerivedFacts, e: EdgeDraw,
      nodes: set<NodeId>, s: NodeId, o: NodeId)
    requires snap.Valid() && d.Keys <= derived && Contained(rule, derived, snap) && Covers(nodes, snap, d)
    requires Yields(rule, InView(snap, d, e), s, o)
    ensures s in nodes && o in nodes
  {
    var open := OpenEdges(rule.body, derived, snap);
    var r :| r in Solve(rule.body, [EMPTY], InView(snap, d, e)) && HeadIs(rule, r, s, o);
    BodyEdgesStored(rule.body, derived, snap, d, e);
    SolveKeepsNodes(rule.body, EMPTY, r, snap, d, e, nodes, open);
    assert rule.headSubject !in open && rule.headObject !in open;
  }

  lemma ApplyWithin(rule: Rule, snap: Snapshot, d: DerivedFacts, e: EdgeDraw, nodes: set<NodeId>)
    requires Within(d, nodes)
    requires forall s: NodeId, o: NodeId :: Yields(rule, InView(snap, d, e), s, o) ==> s in nodes && o in nodes
    ensures Within(Apply(rule, snap, d, e), nodes)
  {
    var d' := Apply(rule, snap, d, e);
    forall p: string, pair: NodePair | p in d' && pair in d'[p] ensures pair.0 in nodes && pair.1 in nodes {
      assert pair == (pair.0, pair.1);
      if p == rule.head && pair !in Lookup(d, p) { YieldSetMember(rule, InView(snap, d, e), pair.0, pair.1); }
    }
  }

  lemma SeedFactsWithin(prog: Program, snap: Snapshot)
    ensures Within(SeedFacts(prog.seeds), Universe(prog, snap)) && SeedFacts(prog.seeds).Keys == SeedPredicates(prog)
  {
    var d := SeedFacts(prog.seeds);
    forall p ensures p in d <==> p in SeedPredicates(prog) { SeedFactsAre(prog.seeds, p); }
    forall p: string, pair: NodePair | p in d && pair in d[p]
      ensures pair.0 in Universe(prog, snap) && pair.1 in Universe(prog, snap)
    {
      assert pair == (pair.0, pair.1);
      SeedFactsAre(prog.seeds, p);
      var i :| 0 <= i < |prog.seeds| && prog.seeds[i] == Seed(p, pair.0, pair.1);
      SeedNodesMember(prog.seeds, i);
    }
  }

  /** The facts held are those of derived predicates, over `nodes`. */
  predicate Tidy(prog: Program, d: DerivedFacts, nodes: set<NodeId>) {
    SeedPredicates(prog) <= d.Keys <= Derived(prog) && Within(d, nodes)
  }

  lemma {:induction false} ThroughContained(p: Process, prog: Program, snap: Snapshot, draws: Draws, n: nat,
      d: DerivedFacts, i: nat, nodes: set<NodeId>)
    requires snap.Valid() && ContainedProgram(prog, snap) && Runs(p, prog, snap, draws) && i <= |prog.rules|
    requires StoreNodes(snap) <= nodes && Tidy(prog, d, nodes)
    ensures Tidy(prog, p.Through(n, d, i), nodes)
  {
    hide Tidy, ContainedProgram, Runs;
    if i > 0 {
      ThroughContained(p, prog, snap, draws, n, d, i - 1, nodes);
      StepIs(p, prog, snap, draws, n, i - 1, p.Through(n, d, i - 1));
      ApplyContained(prog, snap, i - 1, p.Through(n, d, i - 1), draws(n, i - 1), nodes);
    }
  }

  lemma ApplyContained(prog: Program, snap: Snapshot, i: nat, d: DerivedFacts, e: EdgeDraw, nodes: set<NodeId>)
    requires snap.Valid() && ContainedProgram(prog, snap) && i < |prog.rules| && StoreNodes(snap) <= nodes &&
             Tidy(prog, d, nodes)
    ensures Tidy(prog, Apply(prog.rules[i], snap, d, e), nodes)
  {
    var rule := prog.rules[i];
    forall s: NodeId, o: NodeId | Yields(rule, InView(snap, d, e), s, o) ensures s in nodes && o in nodes {
      ContainedYields(rule, Derived(prog), snap, d, e, nodes, s, o);
    }
    ApplyWithin(rule, snap, d, e, nodes);
    assert rule.head in Heads(prog);
  }

  lemma {:induction false} RunContained(p: Process, prog: Program, snap: Snapshot, draws: Draws, n: nat)
    requires snap.Valid() && ContainedProgram(prog, snap) && Runs(p, prog, snap, draws)
    ensures Tidy(prog, p.Run(n), Universe(prog, snap))
  {
    hide Runs, ContainedProgram, Within;
    StartIs(p, prog, snap, draws);
    if n == 0 {
      SeedFactsWithin(prog, snap);
    } else {
      RunContained(p, prog, snap, draws, n - 1);
      ThroughContained(p, prog, snap, draws, n - 1, p.Run(n - 1), |prog.rules|, Universe(prog, snap));
    }
  }

  /** The loop ends on every contained program, stored heads and predicate
      variables included: all facts are over the universe, and every pass but the
      last adds one of the heads-by-nodes-squared facts there are. */
  lemma ContainedEnds(prog: Program, snap: Snapshot, draws: Draws)
    requires snap.Valid() && ContainedProgram(prog, snap)
    ensures RunOf(prog, snap, draws).Ends()
    ensures forall n: nat :: RunOf(prog, snap, draws).Last(n) ==>
              n <= |Heads(prog)| * (|Universe(prog, snap)| * |Universe(prog, snap)|) &&
              Within(RunOf(prog, snap, draws).Run(n + 1), Universe(prog, snap))
  {
    var p, nodes := RunOf(prog, snap, draws), Universe(prog, snap);
    RunValid(p, prog, snap, draws);
    forall n: nat ensures Within(p.Run(n), nodes) { RunContained(p, prog, snap, draws, n); }
    p.BoundedEnds(nodes);
    SameHeads(p, prog, snap, draws);
  }

  lemma SameHeads(p: Process, prog: Program, snap: Snapshot, draws: Draws)
    requires Runs(p, prog, snap, draws)
    ensures p.HeadSet() == Heads(prog)
  {
    forall h ensures h in p.HeadSet() <==> h in Heads(prog) {
      if h in Heads(prog) {
        var i :| 0 <= i < |prog.rules| && prog.rules[i].head == h;
        assert p.heads[i] == h;
      }
      if h in p.HeadSet() {
        var i :| 0 <= i < |p.heads| && p.heads[i] == h;
        assert prog.rules[i].head == h;
      }
    }
  }
}
