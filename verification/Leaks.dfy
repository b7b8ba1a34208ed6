/** Drawn edge ids that become nodes of derived facts, and why they are exactly
    what keeps the fixed-point loop of crates/polargraph-query/src/datalog.rs from
    ending. */
module Leaks {
  import opened Sequences
  import opened Store
  import opened Datalog
  import opened Semantics
  import opened Rules
  import opened Passes
  import opened Yielding
  import opened FixedPoint
  import opened Termination

  // ── Fresh ids ────────────────────────────────────────────────────────────

  function FactNodes(d: DerivedFacts): set<NodeId> {
    (set p, pair | p in d && pair in d[p] :: pair.0) + (set p, pair | p in d && pair in d[p] :: pair.1)
  }

  /** The nodes in use once `d` has been derived. */
  function Known(prog: Program, snap: Snapshot, d: DerivedFacts): set<NodeId> { Universe(prog, snap) + FactNodes(d) }

  lemma KnownCovers(prog: Program, snap: Snapshot, d: DerivedFacts)
    ensures Covers(Known(prog, snap, d), snap, d)
  {
    forall p: string, pair: NodePair | p in d && pair in d[p]
      ensures pair.0 in FactNodes(d) && pair.1 in FactNodes(d)
    {}
  }

  /** No id drawn is in use. */
  ghost predicate Fresh(e: EdgeDraw, known: set<NodeId>) {
    forall vp, sol: Solution, s: NodeId, o: NodeId ::
      e(vp, sol, s, o) !in known && e(vp, sol, s, o) !in sol.nodes.Values
  }

  ghost predicate FreshDraws(p: Process, prog: Program, snap: Snapshot, draws: Draws) {
    forall n: nat, i: nat :: i < |prog.rules| ==> Fresh(draws(n, i), Known(prog, snap, p.State(n, i)))
  }

  // Fresh draws exist for every program.

  ghost function UnusedIds(known: set<NodeId>): EdgeDraw {
    (vp: VarPattern, sol: Solution, s: NodeId, o: NodeId) => Above(known + sol.nodes.Values)
  }

  /** The run in which every read draws an id above those in use. */
  ghost function FreshRun(prog: Program, snap: Snapshot): Process {
    Process(
      (n: nat, i: nat, d: DerivedFacts) =>
        if i < |prog.rules| then Apply(prog.rules[i], snap, d, UnusedIds(Known(prog, snap, d))) else d,
      HeadList(prog.rules),
      SeedFacts(prog.seeds))
  }

  ghost function UnusedDraws(prog: Program, snap: Snapshot): Draws {
    (n: nat, i: nat) => UnusedIds(Known(prog, snap, FreshRun(prog, snap).State(n, i)))
  }

  lemma FollowsFresh(prog: Program, snap: Snapshot)
    ensures RunOf(prog, snap, UnusedDraws(prog, snap)).Follows(FreshRun(prog, snap))
  {
    var p, q := RunOf(prog, snap, UnusedDraws(prog, snap)), FreshRun(prog, snap);
    forall n: nat, i: nat | i < |p.heads| ensures p.step(n, i, q.State(n, i)) == q.State(n, i + 1) {
      StepIs(p, prog, snap, UnusedDraws(prog, snap), n, i, q.State(n, i));
      q.StateStep(n, i);
    }
  }

  /** Every program on every store has a run with fresh draws. */
  lemma FreshDrawsExist(prog: Program, snap: Snapshot) returns (draws: Draws)
    ensures FreshDraws(RunOf(prog, snap, draws), prog, snap, draws)
  {
    draws := UnusedDraws(prog, snap);
    var p, q := RunOf(prog, snap, draws), FreshRun(prog, snap);
    FollowsFresh(prog, snap);
    forall n: nat, i: nat | i < |prog.rules| ensures Fresh(draws(n, i), Known(prog, snap, p.State(n, i))) {
      p.FollowsRun(q, n);
      p.FollowsThrough(q, n, i);
      UnusedIsFresh(Known(prog, snap, q.State(n, i)));
    }
  }

  lemma UnusedIsFresh(known: set<NodeId>)
    ensures Fresh(UnusedIds(known), known)
  {}

  /** In pass `n` rule `i` yields a fact about a node not in use before: an id
      drawn for a derived edge has reached its head. */
  ghost predicate LeaksAt(p: Process, prog: Program, snap: Snapshot, draws: Draws, n: nat, i: nat)
    requires i < |prog.rules|
  {
    LeaksFrom(prog, snap, i, p.State(n, i), draws(n, i))
  }

  ghost predicate LeaksFrom(prog: Program, snap: Snapshot, i: nat, d: DerivedFacts, e: EdgeDraw)
    requires i < |prog.rules|
  {
    exists s: NodeId, o: NodeId :: Yields(prog.rules[i], InView(snap, d, e), s, o) &&
      !(s in Known(prog, snap, d) && o in Known(prog, snap, d))
  }

  // ── Replaying a row with other draws ─────────────────────────────────────

  /** `b` is `a` with every node outside `old` replaced by one outside `now`. */
  predicate Twins(a: Solution, b: Solution, old_: set<NodeId>, now: set<NodeId>) {
    a.preds == b.preds && a.values == b.values && a.nodes.Keys == b.nodes.Keys &&
    forall x :: x in a.nodes ==> if a.nodes[x] in old_ then b.nodes[x] == a.nodes[x] else b.nodes[x] !in now
  }

  /** Two rounds of the same reads: the later one sees at least the facts of the
      earlier, under the same names, and both draw ids not in use. */
  datatype Rounds = Rounds(snap: Snapshot, d: DerivedFacts, e: EdgeDraw, d': DerivedFacts, e': EdgeDraw,
                           before: set<NodeId>, after: set<NodeId>) {
    ghost predicate Valid() {
      snap.Valid() && d.Keys == d'.Keys && (forall p :: p in d ==> d[p] <= d'[p]) &&
      Covers(before, snap, d) && before <= after && Fresh(e, before) && Fresh(e', after)
    }

    function First(): Context { InView(snap, d, e) }

    function Second(): Context { InView(snap, d', e') }
  }

  /** The same match in the second round. */
  function Again(vp: VarPattern, sol: Solution, m: Match, rs: Rounds): Match {
    if m.Edge? && ReadsFacts(vp, sol, rs.First()) && m.quad.triple.Relation? then
      var t := m.quad.triple;
      Edge(m.quad.(triple := t.(edge := rs.e'(vp, sol, t.subject, t.obj))))
    else m
  }

  /** Bindings `sol'` had stay; new ones are kept if known and redrawn if not. */
  function Retold(c: Solution, sol': Solution, id: NodeId, known: set<NodeId>): Solution {
    Solution(
      map x | x in c.nodes ::
        if x in sol'.nodes then sol'.nodes[x] else if c.nodes[x] in known then c.nodes[x] else id,
      c.preds,
      c.values)
  }

  lemma SeenAgain(vp: VarPattern, sol: Solution, sol': Solution, m: Match, rs: Rounds)
    requires rs.Valid() && Twins(sol, sol', rs.before, rs.after) && Seen(vp, sol, m, rs.First())
    ensures Seen(vp, sol', Again(vp, sol', m, rs), rs.Second())
  {
    assert Substitute(vp, sol, rs.snap).pred == Substitute(vp, sol', rs.snap).pred;
  }

  /** A node the match binds that is not known is the id drawn, and was unbound. */
  lemma UnknownIsDrawn(vp: VarPattern, sol: Solution, m: Match, c: Solution, rs: Rounds, x: string)
    requires rs.Valid() && Seen(vp, sol, m, rs.First()) && Contributes(vp, m, sol, c, rs.First())
    requires x in NodeVars(vp, m) && c.nodes[x] !in rs.before
    ensures vp.edgeVar == Some(x) && ReadsFacts(vp, sol, rs.First()) && m.Edge? && m.quad.triple.Relation?
    ensures x !in sol.nodes
  {
    if !(vp.edgeVar == Some(x) && ReadsFacts(vp, sol, rs.First())) {
      SeenNodes(vp, sol, m, c, rs.snap, rs.d, rs.e, rs.before, x);
    }
    var t := m.quad.triple;
    assert c.nodes[x] == rs.e(vp, sol, t.subject, t.obj);
    forall y | y in sol.nodes ensures sol.nodes[y] in sol.nodes.Values {}
  }

  /** What a match demands of one slot, in the second round. */
  lemma SlotAgain(term: Term, node: NodeId, c: Solution, c': Solution, rs: Rounds)
    requires Twins(c, c', rs.before, rs.after) && SlotIs(term, node, c) && node in rs.before
    ensures SlotIs(term, node, c')
  {}

  lemma EndsKnown(vp: VarPattern, sol: Solution, m: Match, c: Solution, rs: Rounds)
    requires rs.Valid() && Seen(vp, sol, m, rs.First()) && Contributes(vp, m, sol, c, rs.First())
    ensures match m
            case Path(s, t) => s in rs.before && t in rs.before
            case Edge(q) =>
              q.triple.subject in rs.before && (q.triple.Relation? ==> q.triple.obj in rs.before) &&
              (q.triple.Relation? && !ReadsFacts(vp, sol, rs.First()) ==> q.triple.edge in rs.before) &&
              (vp.graph.InVar? ==> c.nodes[vp.graph.name] in rs.before)
  {
    match m
    case Path(s, t) => WalkEndsInStore(rs.snap, vp.pred.value, s, vp.maxHops.value, t);
    case Edge(q) =>
      if !vp.graph.InUnion? {
        QuadNodesMember(rs.snap.quads, q);
      } else if !ReadsFacts(vp, sol, rs.First()) {
        UnionTripleNodes(rs.snap, q.triple);
      }
  }

  lemma EdgeAgain(vp: VarPattern, sol: Solution, sol': Solution, m: Match, c: Solution, c': Solution, rs: Rounds)
    requires rs.Valid() && m.Edge? && Seen(vp, sol, m, rs.First()) && Contributes(vp, m, sol, c, rs.First())
    requires Twins(sol, sol', rs.before, rs.after) && Twins(c, c', rs.before, rs.after)
    requires ReadsFacts(vp, sol, rs.First()) && m.quad.triple.Relation? && vp.edgeVar.Some? ==>
      c.nodes[vp.edgeVar.value] !in rs.before ==>
      c'.nodes[vp.edgeVar.value] == rs.e'(vp, sol', m.quad.triple.subject, m.quad.triple.obj)
    ensures EdgeIs(vp, Again(vp, sol', m, rs).quad.triple, c')
  {
    EndsKnown(vp, sol, m, c, rs);
    assert ReadsFacts(vp, sol', rs.First()) == ReadsFacts(vp, sol, rs.First());
    var t := m.quad.triple;
    if vp.edgeVar.Some? && t.Relation? {
      if ReadsFacts(vp, sol, rs.First()) {
        assert c.nodes[vp.edgeVar.value] == rs.e(vp, sol, t.subject, t.obj);
      } else {
        SlotAgain(Var(vp.edgeVar.value), t.edge, c, c', rs);
      }
    }
  }

  lemma AgreesAgain(vp: VarPattern, sol: Solution, sol': Solution, m: Match, c: Solution, c': Solution, rs: Rounds)
    requires rs.Valid() && Seen(vp, sol, m, rs.First()) && Contributes(vp, m, sol, c, rs.First())
    requires Twins(sol, sol', rs.before, rs.after) && Twins(c, c', rs.before, rs.after)
    requires m.Edge? ==> EdgeIs(vp, Again(vp, sol', m, rs).quad.triple, c')
    ensures Agrees(vp, Again(vp, sol', m, rs), c', rs.Second())
  {
    EndsKnown(vp, sol, m, c, rs);
    match m
    case Path(s, t) =>
      SlotAgain(vp.subject, s, c, c', rs);
      SlotAgain(vp.obj, t, c, c', rs);
    case Edge(q) =>
      SlotAgain(vp.subject, q.triple.subject, c, c', rs);
      if q.triple.Relation? { SlotAgain(vp.obj, q.triple.obj, c, c', rs); }
  }

  lemma RetoldTwins(vp: VarPattern, sol: Solution, sol': Solution, m: Match, c: Solution, rs: Rounds, id: NodeId)
    requires rs.Valid() && Seen(vp, sol, m, rs.First()) && Contributes(vp, m, sol, c, rs.First())
    requires Twins(sol, sol', rs.before, rs.after) && id !in rs.after
    ensures Twins(c, Retold(c, sol', id, rs.before), rs.before, rs.after)
    ensures Extends(Retold(c, sol', id, rs.before), sol') && Retold(c, sol', id, rs.before).Valid()
  {}

  function IdFor(vp: VarPattern, sol': Solution, m: Match, rs: Rounds): NodeId {
    if m.Edge? && m.quad.triple.Relation? then rs.e'(vp, sol', m.quad.triple.subject, m.quad.triple.obj)
    else rs.e'(vp, sol', 0, 0)
  }

  /** Every step of the first round has a twin in the second. */
  lemma StepAgain(vp: VarPattern, sol: Solution, sol': Solution, c: Solution, rs: Rounds) returns (c': Solution)
    requires rs.Valid() && sol.Valid() && sol'.Valid() && Twins(sol, sol', rs.before, rs.after)
    requires c in Step(vp, sol, rs.First())
    ensures c' in Step(vp, sol', rs.Second()) && Twins(c, c', rs.before, rs.after) && c.Valid() && c'.Valid()
  {
    StepSees(vp, sol, c, rs.First());
    var m :| Seen(vp, sol, m, rs.First()) && Contributes(vp, m, sol, c, rs.First());
    c' := MatchAgain(vp, sol, sol', m, c, rs);
    StepSees(vp, sol', c', rs.Second());
  }

  lemma MatchAgain(vp: VarPattern, sol: Solution, sol': Solution, m: Match, c: Solution, rs: Rounds)
      returns (c': Solution)
    requires rs.Valid() && sol.Valid() && sol'.Valid() && Twins(sol, sol', rs.before, rs.after)
    requires Seen(vp, sol, m, rs.First()) && Contributes(vp, m, sol, c, rs.First())
    ensures SeesMatch(vp, sol', c', rs.Second()) && Twins(c, c', rs.before, rs.after) && c'.Valid()
  {
    var id := IdFor(vp, sol', m, rs);
    c' := Retold(c, sol', id, rs.before);
    RetoldTwins(vp, sol, sol', m, c, rs, id);
    if m.Edge? { EdgeRetold(vp, sol, sol', m, c, rs); }
    AgreesAgain(vp, sol, sol', m, c, c', rs);
    SeenAgain(vp, sol, sol', m, rs);
    ContributesAgain(vp, sol, sol', m, c, c', rs);
  }

  lemma EdgeRetold(vp: VarPattern, sol: Solution, sol': Solution, m: Match, c: Solution, rs: Rounds)
    requires rs.Valid() && m.Edge? && Seen(vp, sol, m, rs.First()) && Contributes(vp, m, sol, c, rs.First())
    requires Twins(sol, sol', rs.before, rs.after)
    ensures EdgeIs(vp, Again(vp, sol', m, rs).quad.triple, Retold(c, sol', IdFor(vp, sol', m, rs), rs.before))
  {
    var id := IdFor(vp, sol', m, rs);
    RetoldTwins(vp, sol, sol', m, c, rs, id);
    if vp.edgeVar.Some? && m.quad.triple.Relation? && c.nodes[vp.edgeVar.value] !in rs.before {
      UnknownIsDrawn(vp, sol, m, c, rs, vp.edgeVar.value);
    }
    EdgeAgain(vp, sol, sol', m, c, Retold(c, sol', id, rs.before), rs);
  }

  lemma ContributesAgain(vp: VarPattern, sol: Solution, sol': Solution, m: Match, c: Solution, c': Solution, rs: Rounds)
    requires Contributes(vp, m, sol, c, rs.First()) && Twins(sol, sol', rs.before, rs.after) &&
             Twins(c, c', rs.before, rs.after)
    requires c'.Valid() && Extends(c', sol') && Agrees(vp, Again(vp, sol', m, rs), c', rs.Second())
    ensures Contributes(vp, Again(vp, sol', m, rs), sol', c', rs.Second())
  {
    var m' := Again(vp, sol', m, rs);
    assert NodeVars(vp, m') == NodeVars(vp, m) && PredVars(vp, m') == PredVars(vp, m) &&
           ValueVars(vp, m') == ValueVars(vp, m);
  }

  lemma {:induction false} RowAgain(ps: seq<VarPattern>, sol: Solution, sol': Solution, r: Solution, rs: Rounds)
      returns (r': Solution)
    requires rs.Valid() && sol.Valid() && sol'.Valid() && Twins(sol, sol', rs.before, rs.after)
    requires r in Solve(ps, [sol], rs.First())
    ensures r' in Solve(ps, [sol'], rs.Second()) && Twins(r, r', rs.before, rs.after)
    decreases |ps|
  {
    if ps == [] {
      r' := sol';
    } else {
      var c := SolveSplits(ps, sol, r, rs.First());
      var c' := StepAgain(ps[0], sol, sol', c, rs);
      r' := RowAgain(ps[1..], c, c', r, rs);
      SolveFrom(ps, sol', c', r', rs.Second());
    }
  }

  // ── Leaks recur ──────────────────────────────────────────────────────────

  /** A leak is a new fact. */
  lemma LeakAdds(p: Process, prog: Program, snap: Snapshot, draws: Draws, n: nat, i: nat)
    requires Runs(p, prog, snap, draws) && i < |prog.rules| && LeaksAt(p, prog, snap, draws, n, i)
    ensures !p.AddsNothing(n, i) && !p.Quiet(n)
  {
    var d, e, rule := p.State(n, i), draws(n, i), prog.rules[i];
    var s: NodeId, o: NodeId :|
      Yields(rule, InView(snap, d, e), s, o) && !(s in Known(prog, snap, d) && o in Known(prog, snap, d));
    KnownCovers(prog, snap, d);
    StepIs(p, prog, snap, draws, n, i, d);
    p.StateStep(n, i);
    YieldSetMember(rule, InView(snap, d, e), s, o);
    assert (s, o) in Lookup(Apply(rule, snap, d, e), rule.head);
    assert (s, o) !in Lookup(d, rule.head);
    if p.Quiet(n) { p.QuietAt(n, |prog.rules|, i); }
  }

  /** Facts grow and keep their names, so what leaked once leaks again. */
  lemma LeakFromAgain(prog: Program, snap: Snapshot, i: nat, d: DerivedFacts, e: EdgeDraw, d': DerivedFacts,
      e': EdgeDraw)
    requires snap.Valid() && i < |prog.rules| && d.Keys == d'.Keys && forall p :: p in d ==> d[p] <= d'[p]
    requires Fresh(e, Known(prog, snap, d)) && Fresh(e', Known(prog, snap, d'))
    requires LeaksFrom(prog, snap, i, d, e)
    ensures LeaksFrom(prog, snap, i, d', e')
  {
    var before, after, rule := Known(prog, snap, d), Known(prog, snap, d'), prog.rules[i];
    var rs := Rounds(snap, d, e, d', e', before, after);
    KnownCovers(prog, snap, d);
    assert before <= after;
    var s: NodeId, o: NodeId :| Yields(rule, InView(snap, d, e), s, o) && !(s in before && o in before);
    var s', o' := YieldAgain(rule, s, o, rs);
  }

  /** A pair the rule yields in the first round has a twin in the second. */
  lemma YieldAgain(rule: Rule, s: NodeId, o: NodeId, rs: Rounds) returns (s': NodeId, o': NodeId)
    requires rs.Valid() && Yields(rule, rs.First(), s, o)
    ensures Yields(rule, rs.Second(), s', o')
    ensures (s !in rs.before ==> s' !in rs.after) && (o !in rs.before ==> o' !in rs.after)
  {
    var r :| r in Solve(rule.body, [EMPTY], rs.First()) && HeadIs(rule, r, s, o);
    var r' := RowAgain(rule.body, EMPTY, EMPTY, r, rs);
    s', o' := r'.nodes[rule.headSubject], r'.nodes[rule.headObject];
    assert HeadIs(rule, r', s', o');
  }

  lemma LeakRecurs(p: Process, prog: Program, snap: Snapshot, draws: Draws, n: nat, i: nat)
    requires snap.Valid() && Runs(p, prog, snap, draws) && FreshDraws(p, prog, snap, draws)
    requires n >= 1 && i < |prog.rules| && LeaksAt(p, prog, snap, draws, n, i)
    ensures LeaksAt(p, prog, snap, draws, n + 1, i)
  {
    RunValid(p, prog, snap, draws);
    p.NextPassGrows(n, i);
    LeakFromAgain(prog, snap, i, p.State(n, i), draws(n, i), p.State(n + 1, i), draws(n + 1, i));
  }

  ghost function Leaking(p: Process, prog: Program, snap: Snapshot, draws: Draws): (nat, nat) -> bool {
    (n: nat, i: nat) => i < |prog.rules| && LeaksAt(p, prog, snap, draws, n, i)
  }

  lemma LeakIsRestless(p: Process, prog: Program, snap: Snapshot, draws: Draws, n: nat, i: nat)
    requires snap.Valid() && Runs(p, prog, snap, draws) && FreshDraws(p, prog, snap, draws)
    requires n >= 1 && i < |prog.rules| && LeaksAt(p, prog, snap, draws, n, i)
    ensures !p.AddsNothing(n, i) && LeaksAt(p, prog, snap, draws, n + 1, i)
  {
    LeakAdds(p, prog, snap, draws, n, i);
    LeakRecurs(p, prog, snap, draws, n, i);
  }

  lemma LeaksAreRestless(p: Process, prog: Program, snap: Snapshot, draws: Draws)
    requires snap.Valid() && Runs(p, prog, snap, draws) && FreshDraws(p, prog, snap, draws)
    ensures p.Restless(Leaking(p, prog, snap, draws))
  {
    forall n: nat, i: nat | n >= 1 && i < |prog.rules| && LeaksAt(p, prog, snap, draws, n, i)
      ensures !p.AddsNothing(n, i) && LeaksAt(p, prog, snap, draws, n + 1, i)
    {
      LeakIsRestless(p, prog, snap, draws, n, i);
    }
    RestlessByCases(p, prog, snap, draws, Leaking(p, prog, snap, draws));
  }

  lemma RestlessByCases(p: Process, prog: Program, snap: Snapshot, draws: Draws, leaking: (nat, nat) -> bool)
    requires |p.heads| == |prog.rules|
    requires forall n: nat, i: nat :: leaking(n, i) <==> i < |prog.rules| && LeaksAt(p, prog, snap, draws, n, i)
    requires forall n: nat, i: nat :: n >= 1 && i < |prog.rules| && LeaksAt(p, prog, snap, draws, n, i) ==>
      !p.AddsNothing(n, i) && LeaksAt(p, prog, snap, draws, n + 1, i)
    ensures p.Restless(leaking)
  {}

  // ── Exactly when the loop ends ───────────────────────────────────────────

  lemma KnownWithin(prog: Program, snap: Snapshot, d: DerivedFacts, nodes: set<NodeId>)
    requires Universe(prog, snap) <= nodes && Within(d, nodes)
    ensures Known(prog, snap, d) <= nodes
  {}

  /** A rule that leaks nothing stays over the nodes it finds. */
  lemma TightRule(prog: Program, snap: Snapshot, i: nat, d: DerivedFacts, e: EdgeDraw, nodes: set<NodeId>)
    requires i < |prog.rules| && !LeaksFrom(prog, snap, i, d, e) && Universe(prog, snap) <= nodes && Within(d, nodes)
    ensures Within(Apply(prog.rules[i], snap, d, e), nodes)
  {
    KnownWithin(prog, snap, d, nodes);
    ApplyWithin(prog.rules[i], snap, d, e, nodes);
  }

  lemma TightStep(p: Process, prog: Program, snap: Snapshot, draws: Draws, n: nat, i: nat, nodes: set<NodeId>)
    requires Runs(p, prog, snap, draws) && i < |prog.rules| && !LeaksFrom(prog, snap, i, p.State(n, i), draws(n, i))
    requires Universe(prog, snap) <= nodes && Within(p.State(n, i), nodes)
    ensures Within(p.State(n, i + 1), nodes)
  {
    TightRule(prog, snap, i, p.State(n, i), draws(n, i), nodes);
    StepIs(p, prog, snap, draws, n, i, p.State(n, i));
    p.StateStep(n, i);
  }

  lemma {:induction false} TightPass(p: Process, prog: Program, snap: Snapshot, draws: Draws, n: nat, i: nat,
      nodes: set<NodeId>)
    requires Runs(p, prog, snap, draws) && i <= |prog.rules| && Universe(prog, snap) <= nodes && Within(p.Run(n), nodes)
    requires forall j: nat :: j < |prog.rules| ==> !LeaksFrom(prog, snap, j, p.State(n, j), draws(n, j))
    ensures Within(p.State(n, i), nodes)
    decreases i
  {
    if i == 0 {
      p.StateEnds(n);
    } else {
      TightPass(p, prog, snap, draws, n, i - 1, nodes);
      TightStep(p, prog, snap, draws, n, i - 1, nodes);
    }
  }

  lemma CalmPass(p: Process, prog: Program, snap: Snapshot, draws: Draws, n: nat, nodes: set<NodeId>)
    requires Runs(p, prog, snap, draws) && p.Calm(Leaking(p, prog, snap, draws), n)
    requires Universe(prog, snap) <= nodes && Within(p.Run(n), nodes)
    ensures Within(p.Run(n + 1), nodes)
  {
    forall j: nat | j < |prog.rules| ensures !LeaksFrom(prog, snap, j, p.State(n, j), draws(n, j)) {
      assert !Leaking(p, prog, snap, draws)(n, j);
    }
    TightPass(p, prog, snap, draws, n, |prog.rules|, nodes);
    p.StateEnds(n);
  }

  /** With fresh draws the loop ends exactly when, in every pass it comes to after
      the first, no id drawn for a derived edge reaches a rule's head. */
  lemma EndsExactly(prog: Program, snap: Snapshot, draws: Draws)
    requires snap.Valid() && FreshDraws(RunOf(prog, snap, draws), prog, snap, draws)
    ensures var p := RunOf(prog, snap, draws);
            p.Ends() <==> forall n: nat :: n >= 1 && p.Busy(n) ==> p.Calm(Leaking(p, prog, snap, draws), n)
  {
    var p := RunOf(prog, snap, draws);
    var leaking, nodes := Leaking(p, prog, snap, draws), Known(prog, snap, p.Run(1));
    RunValid(p, prog, snap, draws);
    LeaksAreRestless(p, prog, snap, draws);
    KnownCovers(prog, snap, p.Run(1));
    forall n: nat | n >= 1 && p.Calm(leaking, n) && Within(p.Run(n), nodes) ensures Within(p.Run(n + 1), nodes) {
      CalmPass(p, prog, snap, draws, n, nodes);
    }
    p.EndsUnlessRestless(leaking, nodes);
  }

  // ── The rules that leak ──────────────────────────────────────────────────

  lemma StepStaysValid(vp: VarPattern, sol: Solution, c: Solution, ctx: Context)
    requires ctx.snapshot.Valid() && sol.Valid() && c in Step(vp, sol, ctx)
    ensures c.Valid() && Extends(c, sol)
  {
    StepSees(vp, sol, c, ctx);
  }

  lemma {:induction false} SolveExtends(ps: seq<VarPattern>, sol: Solution, r: Solution, ctx: Context)
    requires ctx.snapshot.Valid() && sol.Valid() && r in Solve(ps, [sol], ctx)
    ensures Extends(r, sol)
    decreases |ps|
  {
    if ps != [] {
      var c := SolveSplits(ps, sol, r, ctx);
      StepStaysValid(ps[0], sol, c, ctx);
      SolveExtends(ps[1..], c, r, ctx);
      ExtendsTrans(sol, c, r);
    }
  }

  /** The step a row took at pattern `j`. */
  lemma {:induction false} RowPasses(ps: seq<VarPattern>, j: nat, sol: Solution, r: Solution, ctx: Context)
      returns (before: Solution, c: Solution)
    requires ctx.snapshot.Valid() && sol.Valid() && j < |ps| && r in Solve(ps, [sol], ctx)
    ensures before.Valid() && c in Step(ps[j], before, ctx) && Extends(r, c)
    decreases |ps|
  {
    hide Solve, Step;
    c := SolveSplits(ps, sol, r, ctx);
    StepStaysValid(ps[0], sol, c, ctx);
    if j == 0 {
      before := sol;
      SolveExtends(ps[1..], c, r, ctx);
    } else {
      before, c := RowPasses(ps[1..], j - 1, c, r, ctx);
    }
  }

  lemma DrawnHere(vp: VarPattern, sol: Solution, c: Solution, snap: Snapshot, d: DerivedFacts, e: EdgeDraw,
      known: set<NodeId>)
    requires snap.Valid() && sol.Valid() && Fresh(e, known) && NamesDerived(vp, InView(snap, d, e)) && vp.edgeVar.Some?
    requires c in Step(vp, sol, InView(snap, d, e))
    ensures vp.edgeVar.value in c.nodes && c.nodes[vp.edgeVar.value] !in known
  {
    StepSees(vp, sol, c, InView(snap, d, e));
    var m :| Seen(vp, sol, m, InView(snap, d, e)) && Contributes(vp, m, sol, c, InView(snap, d, e));
    assert EdgeIs(vp, m.quad.triple, c);
  }

  /** A variable naming the edge of a derived fact holds an id that was drawn. */
  lemma DrawnIsUnknown(ps: seq<VarPattern>, j: nat, r: Solution, snap: Snapshot, d: DerivedFacts, e: EdgeDraw,
      known: set<NodeId>)
    requires snap.Valid() && Fresh(e, known) && j < |ps| && r in Solve(ps, [EMPTY], InView(snap, d, e))
    requires NamesDerived(ps[j], InView(snap, d, e)) && ps[j].edgeVar.Some?
    ensures ps[j].edgeVar.value in r.nodes && r.nodes[ps[j].edgeVar.value] !in known
  {
    var before, c := RowPasses(ps, j, EMPTY, r, InView(snap, d, e));
    DrawnHere(ps[j], before, c, snap, d, e, known);
  }

  /** Every rule with the edge of a derived fact in its head: once it yields
      anything after the first pass, it adds a fact in every pass from then on. */
  lemma EdgeHeadNeverSettles(p: Process, prog: Program, snap: Snapshot, draws: Draws, n: nat, i: nat, j: nat, m: nat)
    requires snap.Valid() && Runs(p, prog, snap, draws) && FreshDraws(p, prog, snap, draws) && 1 <= n <= m
    requires i < |prog.rules| && j < |prog.rules[i].body| && NamesOneOf(prog.rules[i].body[j], Derived(prog))
    requires prog.rules[i].body[j].edgeVar in {Some(prog.rules[i].headSubject), Some(prog.rules[i].headObject)}
    requires YieldSet(prog.rules[i], InView(snap, p.State(n, i), draws(n, i))) != {}
    ensures LeaksAt(p, prog, snap, draws, n, i) && !p.AddsNothing(m, i) && !p.Quiet(m)
  {
    var rule, d, e := prog.rules[i], p.State(n, i), draws(n, i);
    var pair :| pair in YieldSet(rule, InView(snap, d, e));
    assert pair == (pair.0, pair.1);
    YieldSetMember(rule, InView(snap, d, e), pair.0, pair.1);
    var r :| r in Solve(rule.body, [EMPTY], InView(snap, d, e)) && HeadIs(rule, r, pair.0, pair.1);
    DerivedPresent(p, prog, snap, draws, n, i);
    DrawnIsUnknown(rule.body, j, r, snap, d, e, Known(prog, snap, d));
    LeaksAreRestless(p, prog, snap, draws);
    p.RestlessLasts(Leaking(p, prog, snap, draws), n, i, m);
  }

  /** After the first pass every derived predicate has its facts in memory. */
  lemma DerivedPresent(p: Process, prog: Program, snap: Snapshot, draws: Draws, n: nat, i: nat)
    requires Runs(p, prog, snap, draws) && n >= 1 && i <= |prog.rules|
    ensures Derived(prog) <= p.State(n, i).Keys
  {
    RunValid(p, prog, snap, draws);
    p.NamesSettle(n, i);
    forall h | h in Derived(prog) ensures h in p.Run(1) {
      if h in Heads(prog) {
        var k :| 0 <= k < |prog.rules| && prog.rules[k].head == h;
        p.HeadPresent(0, k);
      } else {
        SeedFactsAre(prog.seeds, h);
        p.RunKeeps(0, 1, h);
      }
    }
  }

  // ── Read off the rules ───────────────────────────────────────────────────

  /** A contained rule never leaks. */
  lemma ContainedIsTight(p: Process, prog: Program, snap: Snapshot, draws: Draws, n: nat, i: nat)
    requires snap.Valid() && Runs(p, prog, snap, draws) && i < |prog.rules|
    requires Contained(prog.rules[i], Derived(prog), snap)
    ensures !LeaksAt(p, prog, snap, draws, n, i)
  {
    var rule, d, e := prog.rules[i], p.State(n, i), draws(n, i);
    RunNamesDerived(p, prog, snap, draws, n);
    NamesAreDerived(p, prog, snap, draws, n, i);
    KnownCovers(prog, snap, d);
    forall s: NodeId, o: NodeId | Yields(rule, InView(snap, d, e), s, o)
      ensures s in Known(prog, snap, d) && o in Known(prog, snap, d)
    {
      ContainedYields(rule, Derived(prog), snap, d, e, Known(prog, snap, d), s, o);
    }
  }

  /** An edge-headed rule leaks exactly when it yields. */
  lemma EdgeHeadLeaks(p: Process, prog: Program, snap: Snapshot, draws: Draws, n: nat, i: nat)
    requires snap.Valid() && Runs(p, prog, snap, draws) && FreshDraws(p, prog, snap, draws) && n >= 1
    requires i < |prog.rules| && EdgeHead(prog.rules[i], Derived(prog))
    ensures LeaksAt(p, prog, snap, draws, n, i)
       <==> YieldSet(prog.rules[i], InView(snap, p.State(n, i), draws(n, i))) != {}
  {
    var rule, d, e := prog.rules[i], p.State(n, i), draws(n, i);
    if YieldSet(rule, InView(snap, d, e)) != {} {
      var j :| 0 <= j < |rule.body| && NamesOneOf(rule.body[j], Derived(prog)) &&
               rule.body[j].edgeVar in {Some(rule.headSubject), Some(rule.headObject)};
      EdgeHeadNeverSettles(p, prog, snap, draws, n, i, j, n);
    }
    if LeaksAt(p, prog, snap, draws, n, i) {
      var s: NodeId, o: NodeId :|
        Yields(rule, InView(snap, d, e), s, o) && !(s in Known(prog, snap, d) && o in Known(prog, snap, d));
      YieldSetMember(rule, InView(snap, d, e), s, o);
    }
  }

  /** In pass `n` no rule with the edge of a derived fact in its head yields. */
  ghost predicate EdgeHeadsIdle(p: Process, prog: Program, snap: Snapshot, draws: Draws, n: nat) {
    forall i: nat :: i < |prog.rules| && EdgeHead(prog.rules[i], Derived(prog)) ==>
      YieldSet(prog.rules[i], InView(snap, p.State(n, i), draws(n, i))) == {}
  }

  lemma CalmMeansIdle(p: Process, prog: Program, snap: Snapshot, draws: Draws, n: nat)
    requires snap.Valid() && Runs(p, prog, snap, draws) && FreshDraws(p, prog, snap, draws) && n >= 1
    requires forall i :: 0 <= i < |prog.rules| ==>
               Contained(prog.rules[i], Derived(prog), snap) || EdgeHead(prog.rules[i], Derived(prog))
    ensures p.Calm(Leaking(p, prog, snap, draws), n) <==> EdgeHeadsIdle(p, prog, snap, draws, n)
  {
    forall i: nat | i < |prog.rules|
      ensures LeaksAt(p, prog, snap, draws, n, i)
         <==> EdgeHead(prog.rules[i], Derived(prog)) &&
              YieldSet(prog.rules[i], InView(snap, p.State(n, i), draws(n, i))) != {}
    {
      if EdgeHead(prog.rules[i], Derived(prog)) {
        EdgeHeadLeaks(p, prog, snap, draws, n, i);
      } else {
        ContainedIsTight(p, prog, snap, draws, n, i);
      }
    }
    assert forall i: nat :: Leaking(p, prog, snap, draws)(n, i) <==>
                            i < |prog.rules| && LeaksAt(p, prog, snap, draws, n, i);
    assert |p.heads| == |prog.rules|;
  }

  /** For programs whose rules are each either contained or edge-headed, the loop
      ends exactly when no edge-headed rule yields anything after the first pass. */
  lemma EndsUnlessEdgesEscape(prog: Program, snap: Snapshot, draws: Draws)
    requires snap.Valid() && FreshDraws(RunOf(prog, snap, draws), prog, snap, draws)
    requires forall i :: 0 <= i < |prog.rules| ==>
               Contained(prog.rules[i], Derived(prog), snap) || EdgeHead(prog.rules[i], Derived(prog))
    ensures var p := RunOf(prog, snap, draws);
            p.Ends() <==> forall n: nat :: n >= 1 && p.Busy(n) ==> EdgeHeadsIdle(p, prog, snap, draws, n)
  {
    var p := RunOf(prog, snap, draws);
    EndsExactly(prog, snap, draws);
    forall n: nat | n >= 1
      ensures p.Calm(Leaking(p, prog, snap, draws), n) <==> EdgeHeadsIdle(p, prog, snap, draws, n)
    {
      CalmMeansIdle(p, prog, snap, draws, n);
    }
  }
}
