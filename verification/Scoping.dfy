/** `scope_to_graph` (crates/polargraph-query/src/datalog.rs): running a scoped
    program on the whole store is running the program as written on the quads of
    the named graphs alone. */
module Scoping {
  import opened Sequences
  import opened Store
  import opened Datalog
  import opened Semantics
  import opened Joins
  import opened PatternOrder
  import opened Rules

  // ── Scoping in place ─────────────────────────────────────────────────────

  /** Patterns over derived predicates stay as they are, and so do patterns that
      already name a graph. */
  function ScopePattern(vp: VarPattern, derived: set<string>, graph: GraphTerm): VarPattern {
    if vp.graph.InUnion? && !(vp.pred.Some? && vp.pred.value in derived) then vp.(graph := graph) else vp
  }

  function ScopeBody(ps: seq<VarPattern>, derived: set<string>, graph: GraphTerm): seq<VarPattern> {
    seq(|ps|, i requires 0 <= i < |ps| => ScopePattern(ps[i], derived, graph))
  }

  function ScopeRule(rule: Rule, derived: set<string>, graph: GraphTerm): Rule {
    rule.(body := ScopeBody(rule.body, derived, graph))
  }

  function ScopeProgram(prog: Program, graph: GraphTerm): Program {
    prog.(rules := seq(|prog.rules|, i requires 0 <= i < |prog.rules| => ScopeRule(prog.rules[i], Heads(prog), graph)))
  }

  function RuleHeads(rules: seq<Rule>): set<string> { set i | 0 <= i < |rules| :: rules[i].head }

  lemma HeadsOf(rules: seq<Rule>)
    ensures RuleHeads(rules) == set r | r in rules :: r.head
  {
    forall h ensures h in RuleHeads(rules) <==> h in set r | r in rules :: r.head {
      if h in RuleHeads(rules) { var i :| 0 <= i < |rules| && rules[i].head == h; assert rules[i] in rules; }
    }
  }

  /** `now` is `was` reading `graph`, if `was` reads the union of all graphs and names
      none of the heads, and else `was` itself. */
  predicate ScopedAs(was: VarPattern, now: VarPattern, heads: set<string>, graph: GraphTerm) {
    if was.graph == InUnion && (forall h :: h in heads ==> was.pred != Some(h)) then now == was.(graph := graph)
    else now == was
  }

  /** The same rule with each pattern of its body so scoped. */
  predicate ScopedRule(was: Rule, now: Rule, heads: set<string>, graph: GraphTerm) {
    now == was.(body := now.body) && |now.body| == |was.body| &&
    forall k :: 0 <= k < |was.body| ==> ScopedAs(was.body[k], now.body[k], heads, graph)
  }

  lemma ScopedPatternIs(vp: VarPattern, heads: set<string>, graph: GraphTerm)
    ensures ScopedAs(vp, ScopePattern(vp, heads, graph), heads, graph)
  {}

  lemma ScopedRuleIs(rule: Rule, heads: set<string>, graph: GraphTerm)
    ensures ScopedRule(rule, ScopeRule(rule, heads, graph), heads, graph)
  {}

  method ScopeToGraph(patterns: array<VarPattern>, rules: array<Rule>, graph: GraphTerm)
    modifies patterns, rules
    ensures patterns[..] == ScopeBody(old(patterns[..]), RuleHeads(old(rules[..])), graph)
    ensures forall i :: 0 <= i < rules.Length ==> rules[i] == ScopeRule(old(rules[i]), RuleHeads(old(rules[..])), graph)
    ensures forall i :: 0 <= i < patterns.Length ==>
              ScopedAs(old(patterns[i]), patterns[i], set r | r in old(rules[..]) :: r.head, graph)
    ensures forall i :: 0 <= i < rules.Length ==>
              ScopedRule(old(rules[i]), rules[i], set r | r in old(rules[..]) :: r.head, graph)
  {
    hide ScopedAs, ScopedRule, ScopePattern;
    var derived := set i | 0 <= i < rules.Length :: rules[i].head;
    assert derived == RuleHeads(rules[..]);
    ghost var before := patterns[..];
    for i := 0 to patterns.Length
      modifies patterns
      invariant forall k :: 0 <= k < i ==> patterns[k] == ScopePattern(before[k], derived, graph)
      invariant forall k :: i <= k < patterns.Length ==> patterns[k] == before[k]
    {
      patterns[i] := ScopePattern(patterns[i], derived, graph);
    }
    for i := 0 to rules.Length
      modifies rules
      invariant forall k :: 0 <= k < i ==> rules[k] == ScopeRule(old(rules[k]), derived, graph)
      invariant forall k :: i <= k < rules.Length ==> rules[k] == old(rules[k])
    {
      var body := [];
      for j := 0 to |rules[i].body|
        invariant body == ScopeBody(rules[i].body[..j], derived, graph)
      {
        body := body + [ScopePattern(rules[i].body[j], derived, graph)];
      }
      assert rules[i].body[..|rules[i].body|] == rules[i].body;
      rules[i] := rules[i].(body := body);
    }
    HeadsOf(old(rules[..]));
    forall i | 0 <= i < patterns.Length ensures ScopedAs(old(patterns[i]), patterns[i], derived, graph) {
      ScopedPatternIs(old(patterns[i]), derived, graph);
    }
    forall i | 0 <= i < rules.Length ensures ScopedRule(old(rules[i]), rules[i], derived, graph) {
      ScopedRuleIs(old(rules[i]), derived, graph);
    }
  }

  // ── The store cut down to the named graphs ───────────────────────────────

  /** A term that names graphs outright. */
  predicate NamesGraphs(term: GraphTerm) { term.InDefault? || term.InGraph? || term.InIri? || term.InSet? }

  predicate NamesOneGraph(term: GraphTerm) { NamesGraphs(term) && !term.InSet? }

  function GraphsOf(term: GraphTerm, snap: Snapshot): set<GraphId>
    requires NamesGraphs(term)
  {
    match term
    case InDefault => {DEFAULT_GRAPH}
    case InGraph(g) => {g}
    case InIri(iri) => if iri in snap.graphIds then {snap.graphIds[iri]} else {}
    case InSet(gs) => set g | g in gs
  }

  function InThoseGraphs(gs: set<GraphId>): Quad -> bool { (q: Quad) => q.graph in gs }

  function CutTo(snap: Snapshot, gs: set<GraphId>): Snapshot {
    snap.(quads := Filter(InThoseGraphs(gs), snap.quads))
  }

  /** The store as the scoped patterns see it. */
  function Cut(snap: Snapshot, term: GraphTerm): Snapshot
    requires NamesGraphs(term)
  {
    CutTo(snap, GraphsOf(term, snap))
  }

  lemma CutMember(snap: Snapshot, gs: set<GraphId>, q: Quad)
    ensures q in CutTo(snap, gs).quads <==> q in snap.quads && q.graph in gs
  {
    FilterMember(InThoseGraphs(gs), snap.quads, q);
  }

  lemma {:induction false} FilterKeepsKeys(snap: Snapshot, gs: set<GraphId>, qs: seq<Quad>)
    requires snap.DistinctKeys(qs)
    ensures snap.DistinctKeys(Filter(InThoseGraphs(gs), qs))
  {
    if qs != [] {
      var rest := qs[1..];
      forall i, j | 0 <= i < j < |rest| && rest[i].graph == rest[j].graph
        ensures !snap.SameSpo(rest[i].triple, rest[j].triple)
      {
        assert rest[i] == qs[i + 1] && rest[j] == qs[j + 1];
      }
      FilterKeepsKeys(snap, gs, rest);
      var kept := Filter(InThoseGraphs(gs), rest);
      forall j | 0 <= j < |kept| && kept[j].graph == qs[0].graph ensures !snap.SameSpo(qs[0].triple, kept[j].triple) {
        FilterMember(InThoseGraphs(gs), rest, kept[j]);
        assert kept[j] in rest;
        var k :| 0 <= k < |rest| && rest[k] == kept[j];
        assert qs[k + 1] == kept[j];
      }
    }
  }

  lemma CutStaysValid(snap: Snapshot, gs: set<GraphId>)
    requires snap.Valid()
    ensures CutTo(snap, gs).Valid()
  {
    FilterKeepsKeys(snap, gs, snap.quads);
    SameDigestKeys(snap, CutTo(snap, gs), CutTo(snap, gs).quads);
  }

  lemma SameDigestKeys(a: Snapshot, b: Snapshot, qs: seq<Quad>)
    requires a.digest == b.digest && a.DistinctKeys(qs)
    ensures b.DistinctKeys(qs)
  {
    forall i, j | 0 <= i < j < |qs| && qs[i].graph == qs[j].graph ensures !b.SameSpo(qs[i].triple, qs[j].triple) {
      assert !a.SameSpo(qs[i].triple, qs[j].triple);
    }
  }

  /** All copies of one (subject, predicate, object) are the same triple: the same
      edge id, the same value. */
  predicate CopiesAgree(snap: Snapshot) {
    forall i, j ::
      0 <= i < |snap.quads| && 0 <= j < |snap.quads| && snap.SameSpo(snap.quads[i].triple, snap.quads[j].triple) ==>
      snap.quads[i].triple == snap.quads[j].triple
  }

  /** One graph holds one copy. */
  lemma OneGraphAgrees(snap: Snapshot, term: GraphTerm)
    requires snap.Valid() && NamesOneGraph(term)
    ensures CopiesAgree(Cut(snap, term))
  {
    var cut := Cut(snap, term);
    CutStaysValid(snap, GraphsOf(term, snap));
    forall i, j | 0 <= i < |cut.quads| && 0 <= j < |cut.quads| && cut.SameSpo(cut.quads[i].triple, cut.quads[j].triple)
      ensures cut.quads[i].triple == cut.quads[j].triple
    {
      CutMember(snap, GraphsOf(term, snap), cut.quads[i]);
      CutMember(snap, GraphsOf(term, snap), cut.quads[j]);
    }
  }

  /** The union of the cut store is what the named graphs hold. */
  lemma CutUnionHolds(snap: Snapshot, gs: set<GraphId>, t: Triple)
    requires CopiesAgree(CutTo(snap, gs))
    ensures t in CutTo(snap, gs).UnionTriples() <==> exists g :: g in gs && Quad(g, t) in snap.quads
  {
    var cut := CutTo(snap, gs);
    cut.UnionTriple(t);
    if t in cut.UnionTriples() {
      var q :| q in cut.quads && cut.LowestCopy(q) && q.triple == t;
      CutMember(snap, gs, q);
      assert q == Quad(q.graph, t);
    }
    if g :| g in gs && Quad(g, t) in snap.quads {
      CutMember(snap, gs, Quad(g, t));
      var low := cut.LowestOfFirst(Quad(g, t), |cut.quads|);
      assert cut.LowestCopy(low);
    }
  }

  lemma CutQuad(snap: Snapshot, gs: set<GraphId>, t: Triple) returns (g: GraphId)
    requires CopiesAgree(CutTo(snap, gs)) && t in CutTo(snap, gs).UnionTriples()
    ensures g in gs && Quad(g, t) in snap.quads
  {
    CutUnionHolds(snap, gs, t);
    g :| g in gs && Quad(g, t) in snap.quads;
  }

  // ── Scoping keeps the answers ────────────────────────────────────────────

  /** An unscoped pattern that follows no walk (walks ignore graphs). */
  predicate AllUngraphed(ps: seq<VarPattern>) { forall i :: 0 <= i < |ps| ==> IsUngraphed(ps[i]) }

  /** No pattern reads a predicate that is seeded but heads no rule: only heads
      are spared the scope. */
  predicate SparesSeeds(ps: seq<VarPattern>, prog: Program) {
    forall i :: 0 <= i < |ps| && ps[i].pred.Some? ==>
      ps[i].pred.value in SeedPredicates(prog) ==> ps[i].pred.value in Heads(prog)
  }

  predicate Scopable(ps: seq<VarPattern>, prog: Program) { AllUngraphed(ps) && SparesSeeds(ps, prog) }

  predicate ScopableProgram(prog: Program) {
    forall i :: 0 <= i < |prog.rules| ==> Scopable(prog.rules[i].body, prog)
  }

  lemma ScopesDerived(ps: seq<VarPattern>, prog: Program, graph: GraphTerm)
    requires SparesSeeds(ps, prog)
    ensures ScopeBody(ps, Heads(prog), graph) == ScopeBody(ps, Derived(prog), graph)
  {
    forall i | 0 <= i < |ps|
      ensures ScopePattern(ps[i], Heads(prog), graph) == ScopePattern(ps[i], Derived(prog), graph)
    {}
  }

  predicate BindsAlike(vp: VarPattern, m: Match, vp': VarPattern, m': Match) {
    NodeVars(vp, m) == NodeVars(vp', m') && PredVars(vp, m) == PredVars(vp', m') &&
    ValueVars(vp, m) == ValueVars(vp', m')
  }

  /** `vp` has a match that does for `r` what `m'` does as a match of `vp'`. */
  ghost predicate Moves(vp: VarPattern, vp': VarPattern, m': Match, r: Solution, ctx: Context) {
    exists m :: IsMoved(vp, m, vp', m', r, ctx)
  }

  ghost predicate IsMoved(vp: VarPattern, m: Match, vp': VarPattern, m': Match, r: Solution, ctx: Context) {
    Visible(vp, m, ctx) && Agrees(vp, m, r, ctx) && BindsAlike(vp, m, vp', m')
  }

  /** The scoped pattern has a match in the store for every match of the plain one
      in the cut store, and the other way round, binding alike. */
  lemma MatchScopes(vp: VarPattern, graph: GraphTerm, r: Solution, ctx: Context, ctx': Context, m': Match)
      returns (m: Match)
    requires IsUngraphed(vp) && NamesGraphs(graph) && ctx.view.Hybrid? && ctx'.view == ctx.view
    requires ctx'.snapshot == Cut(ctx.snapshot, graph) && ctx'.bindValues == ctx.bindValues &&
             CopiesAgree(ctx'.snapshot)
    requires Visible(vp, m', ctx') && Agrees(vp, m', r, ctx')
    ensures var vp' := ScopePattern(vp, ctx.view.derived.Keys, graph);
            Visible(vp', m, ctx) && Agrees(vp', m, r, ctx) && BindsAlike(vp', m, vp, m')
  {
    hide CopiesAgree;
    m := m';
    if !ReadsDerived(vp.pred, ctx.view) {
      var t := m'.quad.triple;
      var g := CutQuad(ctx.snapshot, GraphsOf(graph, ctx.snapshot), t);
      m := Edge(Quad(g, t));
    }
  }

  lemma MatchUnscopes(vp: VarPattern, graph: GraphTerm, r: Solution, ctx: Context, ctx': Context, m: Match)
      returns (m': Match)
    requires IsUngraphed(vp) && NamesGraphs(graph) && ctx.view.Hybrid? && ctx'.view == ctx.view
    requires ctx'.snapshot == Cut(ctx.snapshot, graph) && ctx'.bindValues == ctx.bindValues &&
             CopiesAgree(ctx'.snapshot)
    requires var vp' := ScopePattern(vp, ctx.view.derived.Keys, graph); Visible(vp', m, ctx) && Agrees(vp', m, r, ctx)
    ensures Visible(vp, m', ctx') && Agrees(vp, m', r, ctx')
    ensures BindsAlike(vp, m', ScopePattern(vp, ctx.view.derived.Keys, graph), m)
  {
    m' := m;
    if !ReadsDerived(vp.pred, ctx.view) {
      var q := m.quad;
      assert q.graph in GraphsOf(graph, ctx.snapshot) && q == Quad(q.graph, q.triple);
      CutUnionHolds(ctx.snapshot, GraphsOf(graph, ctx.snapshot), q.triple);
      m' := Edge(Quad(DEFAULT_GRAPH, q.triple));
    }
  }

  /** Scoped patterns have the same answers on the store as the plain ones on the
      graphs named, one graph or several, as long as copies agree. */
  lemma AnswersScope(ps: seq<VarPattern>, graph: GraphTerm, r: Solution, ctx: Context, ctx': Context)
    requires AllUngraphed(ps) && NamesGraphs(graph) && ctx.view.Hybrid? && ctx'.view == ctx.view
    requires ctx'.snapshot == Cut(ctx.snapshot, graph) && ctx'.bindValues == ctx.bindValues &&
             CopiesAgree(ctx'.snapshot)
    ensures IsAnswer(ScopeBody(ps, ctx.view.derived.Keys, graph), EMPTY, r, ctx) <==> IsAnswer(ps, EMPTY, r, ctx')
  {
    var ps' := ScopeBody(ps, ctx.view.derived.Keys, graph);
    if IsAnswer(ps, EMPTY, r, ctx') {
      var ms' :| AnswerBy(ps, ms', EMPTY, r, ctx');
      forall i | 0 <= i < |ps| ensures Moves(ps'[i], ps[i], ms'[i], r, ctx) {
        var m := MatchScopes(ps[i], graph, r, ctx, ctx', ms'[i]);
        assert IsMoved(ps'[i], m, ps[i], ms'[i], r, ctx);
      }
      AnswerMoves(ps, ms', ps', r, ctx', ctx);
    }
    if IsAnswer(ps', EMPTY, r, ctx) {
      var ms :| AnswerBy(ps', ms, EMPTY, r, ctx);
      forall i | 0 <= i < |ps| ensures Moves(ps[i], ps'[i], ms[i], r, ctx') {
        var m := MatchUnscopes(ps[i], graph, r, ctx, ctx', ms[i]);
        assert IsMoved(ps[i], m, ps'[i], ms[i], r, ctx');
      }
      AnswerMoves(ps', ms, ps, r, ctx, ctx');
    }
  }

  /** An answer carries over to patterns that match and bind alike. */
  lemma AnswerMoves(ps: seq<VarPattern>, ms: seq<Match>, qs: seq<VarPattern>, r: Solution, ctx: Context, ctx': Context)
    requires AnswerBy(ps, ms, EMPTY, r, ctx) && |qs| == |ps|
    requires forall i :: 0 <= i < |ps| ==> Moves(qs[i], ps[i], ms[i], r, ctx')
    ensures IsAnswer(qs, EMPTY, r, ctx')
  {
    var ns := MovedMatches(ps, ms, qs, r, ctx', |ps|);
    forall n | Binds(r, n) ensures Binds(EMPTY, n) || SomeMatchBinds(qs, ns, n) {
      if SomeMatchBinds(ps, ms, n) {
        var i :| 0 <= i < |ps| && MatchBinds(ps[i], ms[i], n);
        assert IsMoved(qs[i], ns[i], ps[i], ms[i], r, ctx');
        assert MatchBinds(qs[i], ns[i], n);
      }
    }
    forall i | 0 <= i < |qs| ensures Visible(qs[i], ns[i], ctx') && Agrees(qs[i], ns[i], r, ctx') {
      assert IsMoved(qs[i], ns[i], ps[i], ms[i], r, ctx');
    }
    assert AnswerBy(qs, ns, EMPTY, r, ctx');
  }

  lemma {:induction false} MovedMatches(ps: seq<VarPattern>, ms: seq<Match>, qs: seq<VarPattern>, r: Solution,
      ctx': Context, k: nat) returns (ns: seq<Match>)
    requires |ms| == |ps| == |qs| && k <= |ps|
    requires forall i :: 0 <= i < |ps| ==> Moves(qs[i], ps[i], ms[i], r, ctx')
    ensures |ns| == k && forall i :: 0 <= i < k ==> IsMoved(qs[i], ns[i], ps[i], ms[i], r, ctx')
  {
    hide IsMoved;
    ns := [];
    if k > 0 {
      var i := k - 1;
      ns := MovedMatches(ps, ms, qs, r, ctx', i);
      assert Moves(qs[i], ps[i], ms[i], r, ctx');
      var m :| IsMoved(qs[i], m, ps[i], ms[i], r, ctx');
      ns := ns + [m];
    }
  }

  // ── Scoping keeps the derived facts ──────────────────────────────────────

  lemma FiresScopes(rule: Rule, graph: GraphTerm, snap: Snapshot, d: DerivedFacts, s: NodeId, o: NodeId)
    requires AllUngraphed(rule.body) && NamesGraphs(graph) && CopiesAgree(Cut(snap, graph))
    ensures Fires(ScopeRule(rule, d.Keys, graph), InView(snap, d, ZeroEdges()), s, o)
       <==> Fires(rule, InView(Cut(snap, graph), d, ZeroEdges()), s, o)
  {
    var ctx, ctx' := InView(snap, d, ZeroEdges()), InView(Cut(snap, graph), d, ZeroEdges());
    var rule' := ScopeRule(rule, d.Keys, graph);
    forall r ensures IsAnswer(rule'.body, EMPTY, r, ctx) <==> IsAnswer(rule.body, EMPTY, r, ctx') {
      AnswersScope(rule.body, graph, r, ctx, ctx');
    }
  }

  lemma ScopedHeads(prog: Program, graph: GraphTerm)
    ensures Heads(ScopeProgram(prog, graph)) == Heads(prog) && Derived(ScopeProgram(prog, graph)) == Derived(prog)
  {
    var prog' := ScopeProgram(prog, graph);
    assert forall i :: 0 <= i < |prog.rules| ==> prog'.rules[i].head == prog.rules[i].head;
  }

  lemma ModelsScope(prog: Program, graph: GraphTerm, snap: Snapshot, d: DerivedFacts)
    requires ScopableProgram(prog) && NamesGraphs(graph) && CopiesAgree(Cut(snap, graph))
    ensures IsModel(ScopeProgram(prog, graph), snap, d) <==> IsModel(prog, Cut(snap, graph), d)
  {
    ScopedHeads(prog, graph);
    var prog', cut := ScopeProgram(prog, graph), Cut(snap, graph);
    if d.Keys == Derived(prog) {
      forall i | 0 <= i < |prog.rules|
        ensures ClosedUnder(prog'.rules[i], snap, d, ZeroEdges()) <==> ClosedUnder(prog.rules[i], cut, d, ZeroEdges())
      {
        ScopesDerived(prog.rules[i].body, prog, graph);
        assert prog'.rules[i] == ScopeRule(prog.rules[i], d.Keys, graph);
        forall s: NodeId, o: NodeId
          ensures Fires(prog'.rules[i], InView(snap, d, ZeroEdges()), s, o)
             <==> Fires(prog.rules[i], InView(cut, d, ZeroEdges()), s, o)
        {
          FiresScopes(prog.rules[i], graph, snap, d, s, o);
        }
      }
    }
  }

  // ── Scoping keeps the rows ───────────────────────────────────────────────

  /** With one graph left, the union keeps every quad of it. */
  lemma CutUnion(snap: Snapshot, term: GraphTerm, f: Triple -> Option<Solution>, h: Quad -> Option<Solution>)
    requires NamesOneGraph(term)
    requires forall q :: h(q) == if q.graph in GraphsOf(term, snap) then f(q.triple) else None
    ensures FilterMap(f, Cut(snap, term).UnionTriples()) == FilterMap(h, snap.quads)
  {
    var cut, gs := Cut(snap, term), GraphsOf(term, snap);
    forall q | q in cut.quads ensures cut.LowestCopy(q) {
      CutMember(snap, gs, q);
      forall i | 0 <= i < |cut.quads| ensures cut.quads[i].graph == q.graph { CutMember(snap, gs, cut.quads[i]); }
    }
    var inner: Quad -> Option<Solution> := (q: Quad) => f(q.triple);
    FilterMapCompose(cut.LowestTriple(), f, (q: Quad) => if cut.LowestCopy(q) then f(q.triple) else None, cut.quads);
    FilterMapSame((q: Quad) => if cut.LowestCopy(q) then f(q.triple) else None, inner, cut.quads);
    FilterThenMap(InThoseGraphs(gs), inner, h, snap.quads);
  }

  lemma ScopedHit(vp: VarPattern, graph: GraphTerm, sol: Solution, ctx: Context, ctx': Context, q: Quad)
    requires IsUngraphed(vp) && NamesGraphs(graph)
    requires ctx'.snapshot == Cut(ctx.snapshot, graph) && ctx'.bindValues == ctx.bindValues
    ensures QuadHit(vp.(graph := graph), sol, ctx)(q)
         == if q.graph in GraphsOf(graph, ctx.snapshot) then TripleHit(vp, sol, ctx')(q.triple) else None
  {
    var vp' := vp.(graph := graph);
    assert ScopeOf(graph, sol, ctx.snapshot).Admits(q.graph) <==> q.graph in GraphsOf(graph, ctx.snapshot);
    assert Substitute(vp', sol, ctx.snapshot) == Substitute(vp, sol, ctx'.snapshot);
    assert ExtendFull(q.triple, vp', sol, ctx.bindValues) == ExtendFull(q.triple, vp, sol, ctx'.bindValues);
  }

  lemma SubstitutesSame(vp: VarPattern, sol: Solution, a: Snapshot, b: Snapshot)
    requires a.digest == b.digest
    ensures Substitute(vp, sol, a) == Substitute(vp, sol, b)
  {}

  lemma DerivedReadSame(pattern: Pattern, ctx: Context, ctx': Context, draw: PairDraw)
    requires ReadsDerived(pattern.pred, ctx.view) && ctx'.view == ctx.view
    ensures Ungraphed(pattern, ctx, draw) == Ungraphed(pattern, ctx', draw)
  {}

  /** A pattern over derived facts does not look at the store. */
  lemma DerivedStepScopes(vp: VarPattern, sol: Solution, ctx: Context, ctx': Context)
    requires NamesDerived(vp, ctx) && ctx'.view == ctx.view
    requires ctx'.snapshot.digest == ctx.snapshot.digest && ctx'.bindValues == ctx.bindValues
    ensures Step(vp, sol, ctx) == Step(vp, sol, ctx')
  {
    var pattern := Substitute(vp, sol, ctx.snapshot);
    SubstitutesSame(vp, sol, ctx.snapshot, ctx'.snapshot);
    assert pattern.pred == vp.pred;
    DerivedReadSame(pattern, ctx, ctx', Drawn(vp, sol, ctx.view));
    assert MatchPattern(vp, sol, ctx) == MatchPattern(vp, sol, ctx');
  }

  /** A pattern over stored facts reads the named graph's quads either way. */
  lemma StoredStepScopes(vp: VarPattern, graph: GraphTerm, sol: Solution, ctx: Context, ctx': Context)
    requires IsUngraphed(vp) && NamesOneGraph(graph) &&
             !ReadsDerived(Substitute(vp, sol, ctx'.snapshot).pred, ctx'.view)
    requires ctx'.snapshot == Cut(ctx.snapshot, graph) && ctx'.bindValues == ctx.bindValues
    ensures Step(vp.(graph := graph), sol, ctx) == Step(vp, sol, ctx')
  {
    var vp', gs := vp.(graph := graph), GraphsOf(graph, ctx.snapshot);
    forall q ensures QuadHit(vp', sol, ctx)(q) == if q.graph in gs then TripleHit(vp, sol, ctx')(q.triple) else None {
      ScopedHit(vp, graph, sol, ctx, ctx', q);
    }
    StoredStep(vp, sol, ctx');
    GraphedStep(vp', sol, ctx);
    CutUnion(ctx.snapshot, graph, TripleHit(vp, sol, ctx'), QuadHit(vp', sol, ctx));
  }

  /** Pattern by pattern: the scoped pattern on the store yields the rows the
      plain pattern yields on the cut store. */
  lemma StepScopes(vp: VarPattern, graph: GraphTerm, sol: Solution, ctx: Context, ctx': Context)
    requires IsUngraphed(vp) && NamesOneGraph(graph) && ctx.view.Hybrid? && ctx'.view == ctx.view
    requires ctx'.snapshot == Cut(ctx.snapshot, graph) && ctx'.bindValues == ctx.bindValues
    requires SteadyRead(vp, sol, ctx')
    ensures Step(ScopePattern(vp, ctx.view.derived.Keys, graph), sol, ctx) == Step(vp, sol, ctx')
  {
    if ReadsDerived(vp.pred, ctx.view) {
      DerivedStepScopes(vp, sol, ctx, ctx');
    } else {
      StoredStepScopes(vp, graph, sol, ctx, ctx');
    }
  }

  lemma ScopeBodyPeels(ps: seq<VarPattern>, derived: set<string>, graph: GraphTerm)
    requires ps != []
    ensures var scoped := ScopeBody(ps, derived, graph);
            scoped != [] && scoped[0] == ScopePattern(ps[0], derived, graph) &&
            scoped[1..] == ScopeBody(ps[1..], derived, graph)
  {}

  lemma StepsScope(ps: seq<VarPattern>, graph: GraphTerm, sols: seq<Solution>, ctx: Context, ctx': Context)
    requires ps != [] && AllUngraphed(ps) && NamesOneGraph(graph) && ctx.view.Hybrid? && ctx'.view == ctx.view
    requires ctx'.snapshot == Cut(ctx.snapshot, graph) && ctx'.bindValues == ctx.bindValues
    requires forall s :: s in sols ==> Free(ps, s, ctx')
    ensures FlatMap(Stepper(ScopePattern(ps[0], ctx.view.derived.Keys, graph), ctx), sols)
         == FlatMap(Stepper(ps[0], ctx'), sols)
  {
    var f, g := Stepper(ScopePattern(ps[0], ctx.view.derived.Keys, graph), ctx), Stepper(ps[0], ctx');
    forall s | s in sols ensures f(s) == g(s) {
      TameIsSteady(ps, s, ctx');
      StepScopes(ps[0], graph, s, ctx, ctx');
    }
    FlatMapSame(f, g, sols);
  }

  lemma {:induction false} SolveScopes(ps: seq<VarPattern>, graph: GraphTerm, sols: seq<Solution>, ctx: Context,
      ctx': Context)
    requires AllUngraphed(ps) && NamesOneGraph(graph) && ctx.view.Hybrid? && ctx'.view == ctx.view &&
             ctx'.snapshot.Valid()
    requires ctx'.snapshot == Cut(ctx.snapshot, graph) && ctx'.bindValues == ctx.bindValues
    requires forall s :: s in sols ==> s.Valid() && Free(ps, s, ctx')
    ensures Solve(ScopeBody(ps, ctx.view.derived.Keys, graph), sols, ctx) == Solve(ps, sols, ctx')
  {
    if ps != [] {
      StepsScope(ps, graph, sols, ctx, ctx');
      var next := FlatMap(Stepper(ps[0], ctx'), sols);
      forall c | c in next ensures c.Valid() && Free(ps[1..], c, ctx') { StepsStayFree(ps, sols, c, ctx'); }
      SolveScopes(ps[1..], graph, next, ctx, ctx');
      ScopeBodyPeels(ps, ctx.view.derived.Keys, graph);
    }
  }

  lemma StepsStayFree(ps: seq<VarPattern>, sols: seq<Solution>, c: Solution, ctx: Context)
    requires ps != [] && ctx.snapshot.Valid() && forall s :: s in sols ==> s.Valid() && Free(ps, s, ctx)
    requires c in FlatMap(Stepper(ps[0], ctx), sols)
    ensures c.Valid() && Free(ps[1..], c, ctx)
  {
    FlatMapMember(Stepper(ps[0], ctx), sols, c);
    var init :| init in sols && c in Step(ps[0], init, ctx);
    StepSees(ps[0], init, c, ctx);
    forall i | 0 <= i < |ps[1..]| && Unnamed(ps[1..][i]) ensures Tame(ps[1..], c, ps[1..][i].predVar.value, ctx) {
      assert ps[1..][i] == ps[i + 1];
      TameStaysSeen(ps, init, c, ps[i + 1].predVar.value, ctx);
    }
  }

  // ── The theorem ──────────────────────────────────────────────────────────

  /** The scoped query on the store and the plain one on the cut store return the
      same rows equally often. */
  ghost predicate SameScopedRows(prog: Program, ps: seq<VarPattern>, graph: GraphTerm, snap: Snapshot, d: DerivedFacts,
      e: EdgeDraw, bindValues: bool)
    requires NamesGraphs(graph)
  {
    multiset(Solve(ScopeBody(ps, Heads(prog), graph), [EMPTY], Context(snap, Hybrid(d, e), bindValues)))
    == multiset(Solve(ps, [EMPTY], Context(Cut(snap, graph), Hybrid(d, e), bindValues)))
  }

  lemma RowsDiffer(prog: Program, ps: seq<VarPattern>, graph: GraphTerm, snap: Snapshot, d: DerivedFacts,
      e: EdgeDraw, bindValues: bool, row: Solution)
    requires NamesGraphs(graph)
    requires row in Solve(ScopeBody(ps, Heads(prog), graph), [EMPTY], Context(snap, Hybrid(d, e), bindValues))
        <==> row !in Solve(ps, [EMPTY], Context(Cut(snap, graph), Hybrid(d, e), bindValues))
    ensures !SameScopedRows(prog, ps, graph, snap, d, e, bindValues)
  {
    hide Solve;
    var a := Solve(ScopeBody(ps, Heads(prog), graph), [EMPTY], Context(snap, Hybrid(d, e), bindValues));
    var b := Solve(ps, [EMPTY], Context(Cut(snap, graph), Hybrid(d, e), bindValues));
    assert (row in multiset(a)) != (row in multiset(b));
  }

  /** Predicate variables of the query stay off derived names. */
  predicate LoosePredicates(ps: seq<VarPattern>, derived: set<string>, snap: Snapshot) {
    forall i :: 0 <= i < |ps| && Unnamed(ps[i]) ==> LoosePredicate(ps, ps[i].predVar.value, derived, snap)
  }

  lemma LooseIsFree(ps: seq<VarPattern>, derived: set<string>, snap: Snapshot, d: DerivedFacts, e: EdgeDraw,
      bindValues: bool)
    requires LoosePredicates(ps, derived, snap) && d.Keys <= derived
    ensures Free(ps, EMPTY, Context(snap, Hybrid(d, e), bindValues))
  {}

  lemma RowsScope(prog: Program, ps: seq<VarPattern>, graph: GraphTerm, snap: Snapshot, d: DerivedFacts, e: EdgeDraw,
      bindValues: bool)
    requires Scopable(ps, prog) && NamesOneGraph(graph) && LoosePredicates(ps, Derived(prog), Cut(snap, graph)) &&
             snap.Valid()
    requires d.Keys == Derived(prog)
    ensures SameScopedRows(prog, ps, graph, snap, d, e, bindValues)
  {
    CutStaysValid(snap, GraphsOf(graph, snap));
    ScopesDerived(ps, prog, graph);
    LooseIsFree(ps, Derived(prog), Cut(snap, graph), d, e, bindValues);
    SolveScopes(ps, graph, [EMPTY], Context(snap, Hybrid(d, e), bindValues),
      Context(Cut(snap, graph), Hybrid(d, e), bindValues));
  }

  /** Scoped to one graph, the rules derive from the whole store what the plain
      rules derive from the graph alone, and the scoped query returns the same
      rows equally often. */
  lemma ScopingIsRestriction(prog: Program, ps: seq<VarPattern>, graph: GraphTerm, snap: Snapshot, d: DerivedFacts,
      e: EdgeDraw, bindValues: bool)
    requires ScopableProgram(prog) && Scopable(ps, prog) && NamesOneGraph(graph) && snap.Valid()
    requires LoosePredicates(ps, Derived(prog), Cut(snap, graph))
    ensures IsLeastModel(ScopeProgram(prog, graph), snap, d) <==> IsLeastModel(prog, Cut(snap, graph), d)
    ensures IsLeastModel(ScopeProgram(prog, graph), snap, d) ==> SameScopedRows(prog, ps, graph, snap, d, e, bindValues)
  {
    OneGraphAgrees(snap, graph);
    LeastModelsScope(prog, graph, snap, d);
    if IsLeastModel(ScopeProgram(prog, graph), snap, d) {
      ScopedHeads(prog, graph);
      RowsScope(prog, ps, graph, snap, d, e, bindValues);
    }
  }

  lemma LeastModelsScope(prog: Program, graph: GraphTerm, snap: Snapshot, d: DerivedFacts)
    requires ScopableProgram(prog) && NamesGraphs(graph) && CopiesAgree(Cut(snap, graph))
    ensures IsLeastModel(ScopeProgram(prog, graph), snap, d) <==> IsLeastModel(prog, Cut(snap, graph), d)
  {
    forall m ensures IsModel(ScopeProgram(prog, graph), snap, m) <==> IsModel(prog, Cut(snap, graph), m) {
      ModelsScope(prog, graph, snap, m);
    }
  }
}
