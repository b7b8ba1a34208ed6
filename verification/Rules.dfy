/** What a recursive rule set means: models, least models, and monotonicity of
    rule bodies in the derived facts. */
module Rules {
  import opened Sequences
  import opened Store
  import opened Datalog
  import opened Reachability
  import opened Semantics
  import opened Joins

  datatype Rule = Rule(head: string, headSubject: string, headObject: string, body: seq<VarPattern>)

  /** A fact primed before the first rule is applied. */
  datatype Seed = Seed(pred: string, subject: NodeId, obj: NodeId)

  datatype Program = Program(seeds: seq<Seed>, rules: seq<Rule>)

  function Lookup(d: DerivedFacts, p: string): set<NodePair> { if p in d then d[p] else {} }

  function SeedPredicates(prog: Program): set<string> { set i | 0 <= i < |prog.seeds| :: prog.seeds[i].pred }

  function Heads(prog: Program): set<string> { set i | 0 <= i < |prog.rules| :: prog.rules[i].head }

  /** The predicates held in memory. */
  function Derived(prog: Program): set<string> { SeedPredicates(prog) + Heads(prog) }

  // ── What the evaluator asks of a program ─────────────────────────────────

  predicate NamesOneOf(vp: VarPattern, names: set<string>) {
    IsUngraphed(vp) && vp.pred.Some? && vp.pred.value in names
  }

  predicate HeadedBefore(prog: Program, p: string, i: nat)
    requires i <= |prog.rules|
  {
    exists j :: 0 <= j < i && prog.rules[j].head == p
  }

  /** Rule `i` names no head that it could find in storage: such a head is seeded,
      heads an earlier rule, or is not stored. */
  predicate ShelteredRule(prog: Program, snap: Snapshot, i: nat)
    requires i < |prog.rules|
  {
    forall k :: 0 <= k < |prog.rules[i].body| && NamesOneOf(prog.rules[i].body[k], Heads(prog)) ==>
      var p := prog.rules[i].body[k].pred.value;
      p in SeedPredicates(prog) || HeadedBefore(prog, p, i) || !snap.Stored(p)
  }

  /** A head that is also stored is in memory before any rule reads it. */
  predicate Sheltered(prog: Program, snap: Snapshot) {
    forall i :: 0 <= i < |prog.rules| ==> ShelteredRule(prog, snap, i)
  }

  predicate NoneStored(names: set<string>, snap: Snapshot) { forall p :: p in names ==> !snap.Stored(p) }

  /** A predicate variable standing alone for the predicate is used nowhere else,
      or can only ever be bound to a stored name while no derived name is stored. */
  predicate LoosePredicate(body: seq<VarPattern>, v: string, derived: set<string>, snap: Snapshot) {
    UsedOnce(body, v) ||
    (NoneStored(derived, snap) && forall j :: 0 <= j < |body| && Uses(body[j], v) ==> !NamesOneOf(body[j], derived))
  }

  /** Variables a pattern may bind to nodes. */
  function Mentions(vp: VarPattern): set<string> {
    TermVars(vp.subject) + TermVars(vp.obj) + OptVars(vp.edgeVar) + GraphVars(vp.graph)
  }

  /** The edge of pattern `i` is named but not looked at: no other slot of the
      body mentions it. */
  predicate PrivateEdge(body: seq<VarPattern>, i: nat)
    requires i < |body|
  {
    body[i].edgeVar.Some? ==>
      body[i].edgeVar.value !in TermVars(body[i].subject) + TermVars(body[i].obj) &&
      forall j :: 0 <= j < |body| && j != i ==> body[i].edgeVar.value !in Mentions(body[j])
  }

  /** What the least-model reading asks of a body: loose predicate variables, and
      edge ids of derived facts, which are drawn afresh on every read, unused. */
  predicate GoodBody(body: seq<VarPattern>, derived: set<string>, snap: Snapshot) {
    (forall i :: 0 <= i < |body| && Unnamed(body[i]) ==> LoosePredicate(body, body[i].predVar.value, derived, snap)) &&
    forall i :: 0 <= i < |body| && NamesOneOf(body[i], derived) ==> PrivateEdge(body, i)
  }

  /** ... and of a rule: such an edge is not a head variable either. */
  predicate GoodRule(rule: Rule, derived: set<string>, snap: Snapshot) {
    GoodBody(rule.body, derived, snap) &&
    forall i :: 0 <= i < |rule.body| && NamesOneOf(rule.body[i], derived) ==>
      OptVars(rule.body[i].edgeVar) !! {rule.headSubject, rule.headObject}
  }

  /** Every row a rule body gives is an answer to it. */
  ghost predicate Readable(prog: Program, snap: Snapshot) {
    snap.Valid() && Sheltered(prog, snap) &&
    forall i :: 0 <= i < |prog.rules| ==> GoodBody(prog.rules[i].body, Derived(prog), snap)
  }

  /** A head variable names the edge of a pattern over derived facts. */
  predicate EdgeHead(rule: Rule, derived: set<string>) {
    exists j :: 0 <= j < |rule.body| && NamesOneOf(rule.body[j], derived) &&
      rule.body[j].edgeVar in {Some(rule.headSubject), Some(rule.headObject)}
  }

  ghost predicate Admissible(prog: Program, snap: Snapshot) {
    snap.Valid() && Sheltered(prog, snap) &&
    forall i :: 0 <= i < |prog.rules| ==> GoodRule(prog.rules[i], Derived(prog), snap)
  }

  lemma AdmissibleIsReadable(prog: Program, snap: Snapshot)
    requires Admissible(prog, snap)
    ensures Readable(prog, snap)
  {
    forall i | 0 <= i < |prog.rules| ensures GoodBody(prog.rules[i].body, Derived(prog), snap) {
      assert GoodRule(prog.rules[i], Derived(prog), snap);
    }
  }

  // ── Models ───────────────────────────────────────────────────────────────

  function InView(snap: Snapshot, d: DerivedFacts, edgeOf: EdgeDraw): Context {
    Context(snap, Hybrid(d, edgeOf), true)
  }

  /** Some answer to the body binds the head variables to `s` and `o`. */
  ghost predicate Fires(rule: Rule, ctx: Context, s: NodeId, o: NodeId) {
    exists r :: IsAnswer(rule.body, EMPTY, r, ctx) && HeadIs(rule, r, s, o)
  }

  predicate HeadIs(rule: Rule, r: Solution, s: NodeId, o: NodeId) {
    rule.headSubject in r.nodes && r.nodes[rule.headSubject] == s &&
    rule.headObject in r.nodes && r.nodes[rule.headObject] == o
  }

  ghost predicate ClosedUnder(rule: Rule, snap: Snapshot, d: DerivedFacts, edgeOf: EdgeDraw) {
    forall s: NodeId, o: NodeId :: Fires(rule, InView(snap, d, edgeOf), s, o) ==> (s, o) in Lookup(d, rule.head)
  }

  predicate HoldsSeeds(prog: Program, d: DerivedFacts) {
    forall i :: 0 <= i < |prog.seeds| ==> (prog.seeds[i].subject, prog.seeds[i].obj) in Lookup(d, prog.seeds[i].pred)
  }

  function ZeroEdges(): EdgeDraw { (vp: VarPattern, sol: Solution, s: NodeId, o: NodeId) => 0 }

  /** Facts over the derived predicates that contain the seeds and satisfy every rule. */
  ghost predicate IsModel(prog: Program, snap: Snapshot, d: DerivedFacts) {
    d.Keys == Derived(prog) && HoldsSeeds(prog, d) &&
    forall i :: 0 <= i < |prog.rules| ==> ClosedUnder(prog.rules[i], snap, d, ZeroEdges())
  }

  predicate Below(d: DerivedFacts, m: DerivedFacts) {
    forall p :: p in d ==> d[p] <= Lookup(m, p)
  }

  ghost predicate IsLeastModel(prog: Program, snap: Snapshot, d: DerivedFacts) {
    IsModel(prog, snap, d) && forall m :: IsModel(prog, snap, m) ==> Below(d, m)
  }

  lemma BelowBothWays(a: DerivedFacts, b: DerivedFacts)
    requires a.Keys == b.Keys && Below(a, b) && Below(b, a)
    ensures a == b
  {
    forall p | p in a ensures a[p] == b[p] { assert a[p] <= Lookup(b, p) && b[p] <= Lookup(a, p); }
  }

  lemma LeastModelUnique(prog: Program, snap: Snapshot, a: DerivedFacts, b: DerivedFacts)
    requires IsLeastModel(prog, snap, a) && IsLeastModel(prog, snap, b)
    ensures a == b
  {
    assert Below(a, b) && Below(b, a);
    BelowBothWays(a, b);
  }

  /** The order of the rules, and repeating one, cannot matter: the least model
      depends on the set of rules only. */
  lemma RuleOrderIrrelevant(a: Program, b: Program, snap: Snapshot, d: DerivedFacts)
    requires a.seeds == b.seeds && (forall r :: r in a.rules <==> r in b.rules)
    ensures IsLeastModel(a, snap, d) <==> IsLeastModel(b, snap, d)
  {
    assert Derived(a) == Derived(b) by {
      forall p ensures p in Heads(a) <==> p in Heads(b) {
        if p in Heads(a) { var i :| 0 <= i < |a.rules| && a.rules[i].head == p; assert a.rules[i] in b.rules; }
        if p in Heads(b) { var i :| 0 <= i < |b.rules| && b.rules[i].head == p; assert b.rules[i] in a.rules; }
      }
    }
    forall m ensures IsModel(a, snap, m) <==> IsModel(b, snap, m) {
      if IsModel(a, snap, m) {
        forall i | 0 <= i < |b.rules|
          ensures ClosedUnder(b.rules[i], snap, m, ZeroEdges())
        {
          assert b.rules[i] in a.rules;
        }
      }
      if IsModel(b, snap, m) {
        forall i | 0 <= i < |a.rules|
          ensures ClosedUnder(a.rules[i], snap, m, ZeroEdges())
        {
          assert a.rules[i] in b.rules;
        }
      }
    }
  }

  // ── Monotonicity ─────────────────────────────────────────────────────────

  /** The pattern does not switch from storage to memory between `d` and `m`, unless
      storage has nothing for it. */
  predicate ReadsOn(vp: VarPattern, d: DerivedFacts, m: DerivedFacts, snap: Snapshot) {
    NamesOneOf(vp, m.Keys - d.Keys) ==> !snap.Stored(vp.pred.value)
  }

  /** `m` holds every fact of `d`, and the patterns read on. */
  predicate Grows(d: DerivedFacts, m: DerivedFacts, snap: Snapshot, ps: seq<VarPattern>) {
    Below(d, m) && forall i :: 0 <= i < |ps| ==> ReadsOn(ps[i], d, m, snap)
  }

  lemma UnionTripleStored(snap: Snapshot, t: Triple)
    requires t in snap.UnionTriples()
    ensures snap.Stored(t.pred)
  {
    snap.UnionTriple(t);
    var q :| q in snap.quads && snap.LowestCopy(q) && q.triple == t;
    var i :| 0 <= i < |snap.quads| && snap.quads[i] == q;
    assert snap.quads[i].triple.pred == t.pred;
  }

  lemma MatchGrows(vp: VarPattern, m: Match, r: Solution, snap: Snapshot, d: DerivedFacts, e: EdgeDraw,
      d': DerivedFacts, e': EdgeDraw)
    requires Below(d, d') && ReadsOn(vp, d, d', snap)
    requires Visible(vp, m, InView(snap, d, e)) && Agrees(vp, m, r, InView(snap, d, e))
    ensures Visible(vp, m, InView(snap, d', e')) && Agrees(vp, m, r, InView(snap, d', e'))
  {
    if m.Edge? && vp.graph.InUnion? && !ReadsDerived(vp.pred, InView(snap, d, e).view) {
      UnionTripleStored(snap, m.quad.triple);
    }
  }

  lemma AnswersGrow(ps: seq<VarPattern>, r: Solution, snap: Snapshot, d: DerivedFacts, e: EdgeDraw, d': DerivedFacts,
      e': EdgeDraw)
    requires Grows(d, d', snap, ps) && IsAnswer(ps, EMPTY, r, InView(snap, d, e))
    ensures IsAnswer(ps, EMPTY, r, InView(snap, d', e'))
  {
    var ctx, ctx' := InView(snap, d, e), InView(snap, d', e');
    var ms :| AnswerBy(ps, ms, EMPTY, r, ctx);
    forall i | 0 <= i < |ps| ensures Visible(ps[i], ms[i], ctx') && Agrees(ps[i], ms[i], r, ctx') {
      MatchGrows(ps[i], ms[i], r, snap, d, e, d', e');
    }
    assert AnswerBy(ps, ms, EMPTY, r, ctx');
  }

  /** A rule that fires keeps firing as derived facts are added, and the edge ids
      drawn play no part. */
  lemma FiresGrows(rule: Rule, snap: Snapshot, d: DerivedFacts, e: EdgeDraw, d': DerivedFacts, e': EdgeDraw,
      s: NodeId, o: NodeId)
    requires Grows(d, d', snap, rule.body) && Fires(rule, InView(snap, d, e), s, o)
    ensures Fires(rule, InView(snap, d', e'), s, o)
  {
    var r :| IsAnswer(rule.body, EMPTY, r, InView(snap, d, e)) && HeadIs(rule, r, s, o);
    AnswersGrow(rule.body, r, snap, d, e, d', e');
  }

  // ── The finite universe of derived facts ─────────────────────────────────

  function TripleNodes(t: Triple): set<NodeId> {
    match t
    case Relation(s, _, o, e) => {s, o, e}
    case Property(s, _, _) => {s}
  }

  function QuadNodes(qs: seq<Quad>): set<NodeId> {
    if qs == [] then {} else TripleNodes(qs[0].triple) + QuadNodes(qs[1..])
  }

  function SeedNodes(seeds: seq<Seed>): set<NodeId> {
    if seeds == [] then {} else {seeds[0].subject, seeds[0].obj} + SeedNodes(seeds[1..])
  }

  /** Subjects, objects and edge ids of the store, and nodes naming graphs. */
  function StoreNodes(snap: Snapshot): set<NodeId> { QuadNodes(snap.quads) + snap.graphNodes.Values }

  /** ... and the nodes of the seeds. */
  function Universe(prog: Program, snap: Snapshot): set<NodeId> { StoreNodes(snap) + SeedNodes(prog.seeds) }

  /** A node above all of `nodes`, and so none of them. */
  ghost function Above(nodes: set<NodeId>): (n: NodeId)
    ensures forall x :: x in nodes ==> x < n
  {
    if nodes == {} then 0
    else
      var x :| x in nodes;
      assert forall y :: y in nodes ==> y == x || y in nodes - {x};
      var n := Above(nodes - {x});
      if n <= x then x + 1 else n
  }

  predicate Within(d: DerivedFacts, nodes: set<NodeId>) {
    forall p :: p in d ==> forall pair :: pair in d[p] ==> pair.0 in nodes && pair.1 in nodes
  }

  lemma {:induction false} QuadNodesMember(qs: seq<Quad>, q: Quad)
    requires q in qs
    ensures TripleNodes(q.triple) <= QuadNodes(qs)
  {
    if q != qs[0] { QuadNodesMember(qs[1..], q); }
  }

  lemma {:induction false} SeedNodesMember(seeds: seq<Seed>, i: nat)
    requires i < |seeds|
    ensures seeds[i].subject in SeedNodes(seeds) && seeds[i].obj in SeedNodes(seeds)
  {
    if i > 0 { SeedNodesMember(seeds[1..], i - 1); }
  }

  lemma UnionTripleNodes(snap: Snapshot, t: Triple)
    requires t in snap.UnionTriples()
    ensures TripleNodes(t) <= StoreNodes(snap)
  {
    snap.UnionTriple(t);
    var q :| q in snap.quads && snap.LowestCopy(q) && q.triple == t;
    QuadNodesMember(snap.quads, q);
  }

  lemma WalkEndsInStore(snap: Snapshot, p: string, start: NodeId, hops: nat, target: NodeId)
    requires target in ReachWithin(snap, p, start, hops)
    ensures start in StoreNodes(snap) && target in StoreNodes(snap)
  {
    ReachNeedsEdge(snap, p, start, hops, target);
    var t :| t in snap.UnionTriples() && t.Relation? && t.pred == p && t.subject == start;
    UnionTripleNodes(snap, t);
    var from := {start} + ReachWithin(snap, p, start, hops - 1);
    NeighboursMember(snap.UnionTriples(), p, from, target);
    var u :| u in snap.UnionTriples() && u.Relation? && u.pred == p && u.subject in from && u.obj == target;
    UnionTripleNodes(snap, u);
  }
}
