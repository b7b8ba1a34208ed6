/** Rules that join on a common object, node or value: what the fixed-point loop of
    crates/polargraph-query/src/datalog.rs derives from them, in terms of the store
    alone. */
module ValueRules {
  import opened Store
  import opened Datalog
  import opened Semantics
  import opened Joins
  import opened Rules
  import opened Passes
  import opened FixedPoint
  import opened Termination
  import opened PatternRows

  /** h(x, y) :- p(x, c), p(y, c) */
  function ShareRule(h: string, p: string): Rule { Rule(h, "x", "y", [PairOf("x", p, "c"), PairOf("y", p, "c")]) }

  function ShareProgram(h: string, p: string): Program { Program([], [ShareRule(h, p)]) }

  /** Some node is the object of a `p` relation from both, or some value other than a
      vector is a `p` property of both. */
  ghost predicate Share(snap: Snapshot, p: string, s: NodeId, o: NodeId) {
    exists t, u ::
      t in snap.UnionTriples() && u in snap.UnionTriples() && t.pred == p && u.pred == p && t.subject == s &&
      u.subject == o && SameObject(t, u)
  }

  predicate SameObject(t: Triple, u: Triple) {
    match (t, u)
    case (Relation(_, _, x, _), Relation(_, _, y, _)) => x == y
    case (Property(_, _, v), Property(_, _, w)) => v == w && !v.Vector?
    case _ => false
  }

  // ── When the rule fires ──────────────────────────────────────────────────

  function ShareAnswer(t: Triple, u: Triple): Solution {
    match t
    case Relation(s, _, c, _) => Solution(map["x" := s, "y" := u.subject, "c" := c], map[], map[])
    case Property(s, _, v) => Solution(map["x" := s, "y" := u.subject], map[], map["c" := v])
  }

  function Matched(t: Triple): Match { Edge(Quad(DEFAULT_GRAPH, t)) }

  lemma ShareFires(h: string, p: string, snap: Snapshot, d: DerivedFacts, e: EdgeDraw, t: Triple, u: Triple)
    requires p !in d && t in snap.UnionTriples() && u in snap.UnionTriples() && t.pred == u.pred == p
    requires SameObject(t, u)
    ensures Fires(ShareRule(h, p), InView(snap, d, e), t.subject, u.subject)
  {
    hide Visible, Agrees, MatchBinds, PairOf, SameObject;
    var rule, ctx, r, ms := ShareRule(h, p), InView(snap, d, e), ShareAnswer(t, u), [Matched(t), Matched(u)];
    ShareAgrees(p, snap, d, e, t, u);
    forall i | 0 <= i < 2 ensures Visible(rule.body[i], ms[i], ctx) && Agrees(rule.body[i], ms[i], r, ctx) {}
    forall n | Binds(r, n) ensures SomeMatchBinds(rule.body, ms, n) {
      ShareBinds(p, t, u, n);
      assert MatchBinds(rule.body[0], ms[0], n) || MatchBinds(rule.body[1], ms[1], n);
    }
    assert AnswerBy(rule.body, ms, EMPTY, r, ctx);
    assert HeadIs(rule, r, t.subject, u.subject);
  }

  lemma ShareAgrees(p: string, snap: Snapshot, d: DerivedFacts, e: EdgeDraw, t: Triple, u: Triple)
    requires p !in d && t in snap.UnionTriples() && u in snap.UnionTriples() && t.pred == u.pred == p
    requires SameObject(t, u)
    ensures Visible(PairOf("x", p, "c"), Matched(t), InView(snap, d, e)) &&
            Agrees(PairOf("x", p, "c"), Matched(t), ShareAnswer(t, u), InView(snap, d, e))
    ensures Visible(PairOf("y", p, "c"), Matched(u), InView(snap, d, e)) &&
            Agrees(PairOf("y", p, "c"), Matched(u), ShareAnswer(t, u), InView(snap, d, e))
  {}

  lemma ShareBinds(p: string, t: Triple, u: Triple, n: Name)
    requires SameObject(t, u) && Binds(ShareAnswer(t, u), n)
    ensures MatchBinds(PairOf("x", p, "c"), Matched(t), n) || MatchBinds(PairOf("y", p, "c"), Matched(u), n)
  {}

  lemma FiresShare(h: string, p: string, snap: Snapshot, d: DerivedFacts, e: EdgeDraw, s: NodeId, o: NodeId)
    requires p !in d && Fires(ShareRule(h, p), InView(snap, d, e), s, o)
    ensures Share(snap, p, s, o)
  {
    var rule, ctx := ShareRule(h, p), InView(snap, d, e);
    var r :| IsAnswer(rule.body, EMPTY, r, ctx) && HeadIs(rule, r, s, o);
    var ms: seq<Match> :| AnswerBy(rule.body, ms, EMPTY, r, ctx);
    assert Visible(rule.body[0], ms[0], ctx) && Agrees(rule.body[0], ms[0], r, ctx);
    assert Visible(rule.body[1], ms[1], ctx) && Agrees(rule.body[1], ms[1], r, ctx);
    var t, u := ms[0].quad.triple, ms[1].quad.triple;
    assert t in snap.UnionTriples() && u in snap.UnionTriples();
    assert SameObject(t, u);
  }

  // ── The least model ──────────────────────────────────────────────────────

  lemma ShareAdmissible(h: string, p: string, snap: Snapshot)
    requires snap.Valid() && p != h
    ensures Admissible(ShareProgram(h, p), snap) && Derived(ShareProgram(h, p)) == {h}
  {
    var prog := ShareProgram(h, p);
    assert prog.rules[0].head == h;
    assert Heads(prog) == {h} && SeedPredicates(prog) == {};
  }

  lemma ShareNodes(snap: Snapshot, p: string, s: NodeId, o: NodeId)
    requires Share(snap, p, s, o)
    ensures s in StoreNodes(snap) && o in StoreNodes(snap)
  {
    var t, u :|
      t in snap.UnionTriples() && u in snap.UnionTriples() && t.pred == p && u.pred == p && t.subject == s &&
      u.subject == o && SameObject(t, u);
    UnionTripleNodes(snap, t);
    UnionTripleNodes(snap, u);
  }

  ghost function ShareFacts(h: string, p: string, snap: Snapshot): DerivedFacts {
    map[h := set pair | pair in Product(StoreNodes(snap), StoreNodes(snap)) && Share(snap, p, pair.0, pair.1)]
  }

  lemma ShareFact(h: string, p: string, snap: Snapshot, s: NodeId, o: NodeId)
    ensures (s, o) in Lookup(ShareFacts(h, p, snap), h) <==> Share(snap, p, s, o)
  {
    if Share(snap, p, s, o) { ShareNodes(snap, p, s, o); }
  }

  lemma SharesAreModel(h: string, p: string, snap: Snapshot)
    requires snap.Valid() && p != h
    ensures IsModel(ShareProgram(h, p), snap, ShareFacts(h, p, snap))
  {
    hide Share;
    var prog, m := ShareProgram(h, p), ShareFacts(h, p, snap);
    ShareAdmissible(h, p, snap);
    forall s: NodeId, o: NodeId | Fires(prog.rules[0], InView(snap, m, ZeroEdges()), s, o)
      ensures (s, o) in Lookup(m, prog.rules[0].head)
    {
      FiresShare(h, p, snap, m, ZeroEdges(), s, o);
      ShareFact(h, p, snap, s, o);
    }
    assert ClosedUnder(prog.rules[0], snap, m, ZeroEdges());
  }

  lemma ShareModel(h: string, p: string, snap: Snapshot, d: DerivedFacts, s: NodeId, o: NodeId)
    requires snap.Valid() && p != h && IsLeastModel(ShareProgram(h, p), snap, d)
    ensures (s, o) in Lookup(d, h) <==> Share(snap, p, s, o)
  {
    var prog := ShareProgram(h, p);
    ShareAdmissible(h, p, snap);
    SharesAreModel(h, p, snap);
    assert Below(d, ShareFacts(h, p, snap));
    ShareFact(h, p, snap, s, o);
    if Share(snap, p, s, o) {
      var t, u :|
        t in snap.UnionTriples() && u in snap.UnionTriples() && t.pred == p && u.pred == p && t.subject == s &&
        u.subject == o && SameObject(t, u);
      assert ClosedUnder(prog.rules[0], snap, d, ZeroEdges());
      ShareFires(h, p, snap, d, ZeroEdges(), t, u);
    }
  }

  /** Whatever ids are drawn, the loop ends and leaves under `h` exactly the pairs of
      nodes with a common `p` object, node or value. */
  lemma SharedObjectsDerived(h: string, p: string, snap: Snapshot, draws: Draws)
    requires snap.Valid() && p != h
    ensures RunOf(ShareProgram(h, p), snap, draws).Ends()
    ensures forall n: nat, s: NodeId, o: NodeId :: RunOf(ShareProgram(h, p), snap, draws).Last(n) ==>
              ((s, o) in Lookup(RunOf(ShareProgram(h, p), snap, draws).Run(n + 1), h) <==> Share(snap, p, s, o))
  {
    var prog := ShareProgram(h, p);
    ShareAdmissible(h, p, snap);
    AdmissibleIsContained(prog, snap);
    ContainedEnds(prog, snap, draws);
    forall n: nat, s: NodeId, o: NodeId | RunOf(prog, snap, draws).Last(n)
      ensures (s, o) in Lookup(RunOf(prog, snap, draws).Run(n + 1), h) <==> Share(snap, p, s, o)
    {
      QuietIsLeastModel(RunOf(prog, snap, draws), prog, snap, draws, n);
      ShareModel(h, p, snap, RunOf(prog, snap, draws).Run(n + 1), s, o);
    }
  }
}
