/** The order of a query's patterns is unobservable, duplicate rows included. */
module PatternOrder {
  import opened Sequences
  import opened Store
  import opened Datalog
  import opened Evaluator
  import opened Semantics
  import opened Joins

  predicate MapsAgree<V(==)>(a: map<string, V>, b: map<string, V>) {
    forall x :: x in a && x in b ==> a[x] == b[x]
  }

  predicate Compatible(a: Solution, b: Solution) {
    MapsAgree(a.nodes, b.nodes) && MapsAgree(a.preds, b.preds) && MapsAgree(a.values, b.values) &&
    a.nodes.Keys !! b.values.Keys && a.values.Keys !! b.nodes.Keys
  }

  function Merge(a: Solution, b: Solution): Solution {
    Solution(a.nodes + b.nodes, a.preds + b.preds, a.values + b.values)
  }

  function Join(a: Solution, b: Solution): Option<Solution> {
    if Compatible(a, b) then Some(Merge(a, b)) else None
  }

  function Joiner(a: Solution): Solution -> Option<Solution> { (b: Solution) => Join(a, b) }

  /** The bindings a pattern contributes on its own, one entry per match. */
  ghost function Parts(vp: VarPattern, ctx: Context): seq<Solution> { Step(vp, EMPTY, ctx) }

  function JoinAll(sol: Solution, parts: seq<Solution>): seq<Solution> { FilterMap(Joiner(sol), parts) }

  // ── A step joins the solution with the pattern's own parts ───────────────

  lemma MergeExtends(a: Solution, b: Solution)
    requires Compatible(a, b) && a.Valid() && b.Valid()
    ensures Merge(a, b).Valid() && Extends(Merge(a, b), a) && Extends(Merge(a, b), b)
  {}

  /** Two parts that together bind what `r` binds, as `r` binds it, merge to `r`. */
  lemma MergeCovers(a: Solution, b: Solution, r: Solution)
    requires r.Valid() && Extends(r, a) && Extends(r, b)
    requires r.nodes.Keys == a.nodes.Keys + b.nodes.Keys
    requires r.preds.Keys == a.preds.Keys + b.preds.Keys
    requires r.values.Keys == a.values.Keys + b.values.Keys
    ensures Join(a, b) == Some(r)
  {
    assert Compatible(a, b);
    var m := Merge(a, b);
    assert m.nodes == r.nodes;
    assert m.preds == r.preds;
    assert m.values == r.values;
  }

  lemma ContributionSplits(vp: VarPattern, m: Match, sol: Solution, r: Solution, ctx: Context)
    requires sol.Valid() && Contributes(vp, m, sol, r, ctx)
    ensures var c := Restrict(r, EMPTY, vp, m); Contributes(vp, m, EMPTY, c, ctx) && Join(sol, c) == Some(r)
  {
    hide Agrees, NodeVars, PredVars, ValueVars, Join;
    var c := Restrict(r, EMPTY, vp, m);
    assert Extends(r, EMPTY);
    RestrictContributes(vp, m, EMPTY, r, ctx);
    AgreeingVarsBound(vp, m, r, ctx);
    RestrictKeys(vp, m, EMPTY, r);
    assert EMPTY.nodes.Keys == {} && EMPTY.preds.Keys == {} && EMPTY.values.Keys == {};
    MergeCovers(sol, c, r);
  }

  lemma ContributionMerges(vp: VarPattern, m: Match, sol: Solution, c: Solution, ctx: Context)
    requires sol.Valid() && Contributes(vp, m, EMPTY, c, ctx) && Compatible(sol, c)
    ensures Contributes(vp, m, sol, Merge(sol, c), ctx)
  {
    hide Agrees, NodeVars, PredVars, ValueVars, Compatible;
    MergeExtends(sol, c);
    AgreesGrows(vp, m, c, Merge(sol, c), ctx);
    assert Merge(sol, c).nodes.Keys == sol.nodes.Keys + c.nodes.Keys;
  }

  /** `hit` is the contribution of `m` to `sol`, if there is one. */
  ghost predicate IsHit(vp: VarPattern, m: Match, sol: Solution, hit: Option<Solution>, ctx: Context) {
    forall r :: hit == Some(r) <==> Contributes(vp, m, sol, r, ctx)
  }

  lemma HitsJoin(vp: VarPattern, m: Match, sol: Solution, alone: Option<Solution>, hit: Option<Solution>, ctx: Context)
    requires sol.Valid() && IsHit(vp, m, EMPTY, alone, ctx) && IsHit(vp, m, sol, hit, ctx)
    ensures hit == match alone case None => None case Some(c) => Join(sol, c)
  {
    if hit.Some? {
      ContributionSplits(vp, m, sol, hit.value, ctx);
      var c := Restrict(hit.value, EMPTY, vp, m);
      assert alone == Some(c);
    } else if alone.Some? && Compatible(sol, alone.value) {
      ContributionMerges(vp, m, sol, alone.value, ctx);
      assert hit == Some(Merge(sol, alone.value));
    }
  }

  // The pushed-down test of one triple, quad, or walk end, as a single map.

  function TripleHit(vp: VarPattern, sol: Solution, ctx: Context): Triple -> Option<Solution> {
    (t: Triple) =>
      if ctx.snapshot.Matches(Substitute(vp, sol, ctx.snapshot), t) then ExtendFull(t, vp, sol, ctx.bindValues)
      else None
  }

  function QuadHit(vp: VarPattern, sol: Solution, ctx: Context): Quad -> Option<Solution>
    requires !vp.graph.InUnion?
  {
    (q: Quad) => if ScannedQuad(q, vp, sol, ctx) then ExtendQuad(q, vp, sol, ctx) else None
  }

  /** A read of storage tests every visible triple. */
  lemma StoredStep(vp: VarPattern, sol: Solution, ctx: Context)
    requires IsUngraphed(vp) && !ReadsDerived(Substitute(vp, sol, ctx.snapshot).pred, ctx.view)
    ensures Step(vp, sol, ctx) == FilterMap(TripleHit(vp, sol, ctx), ctx.snapshot.UnionTriples())
  {
    var pattern := Substitute(vp, sol, ctx.snapshot);
    ctx.snapshot.EvaluateFilters(pattern);
    FilterThenMap(ctx.snapshot.Matching(pattern), Extender(vp, sol, ctx.bindValues), TripleHit(vp, sol, ctx),
      ctx.snapshot.UnionTriples());
  }

  /** The test of one derived pair, whatever id its edge is given. */
  function PairHit(vp: VarPattern, sol: Solution, p: string, ctx: Context): NodePair -> Option<Solution> {
    (pair: NodePair) => TripleHit(vp, sol, ctx)(Relation(pair.0, p, pair.1, 0))
  }

  lemma EdgeIgnored(vp: VarPattern, sol: Solution, p: string, pair: NodePair, e: EdgeId, ctx: Context)
    requires vp.edgeVar.None?
    ensures TripleHit(vp, sol, ctx)(Relation(pair.0, p, pair.1, e)) == PairHit(vp, sol, p, ctx)(pair)
  {}

  /** A read of derived facts tests every pair held for the predicate. */
  lemma DerivedStep(vp: VarPattern, sol: Solution, ctx: Context)
    requires NamesDerived(vp, ctx) && vp.edgeVar.None?
    ensures var p := vp.pred.value;
            Step(vp, sol, ctx) == FilterMap(PairHit(vp, sol, p, ctx), Listed(ctx.view.derived[p]))
  {
    var pattern, p := Substitute(vp, sol, ctx.snapshot), vp.pred.value;
    var draw, pairs := Drawn(vp, sol, ctx.view), Listed(ctx.view.derived[vp.pred.value]);
    var f, ts := Extender(vp, sol, ctx.bindValues), DerivedTriples(p, ctx.view.derived[p], draw);
    forall t | t in ts ensures PairMatching(pattern)(t) <==> ctx.snapshot.Matches(pattern, t) {
      DerivedTriple(t, p, ctx.view.derived[p], draw);
    }
    FilterThenMap(PairMatching(pattern), f, TripleHit(vp, sol, ctx), ts);
    forall pair ensures PairHit(vp, sol, p, ctx)(pair) == TripleHit(vp, sol, ctx)(PairTriple(p, draw)(pair).value) {
      EdgeIgnored(vp, sol, p, pair, draw(pair.0, pair.1), ctx);
    }
    FilterMapCompose(PairTriple(p, draw), TripleHit(vp, sol, ctx), PairHit(vp, sol, p, ctx), pairs);
  }

  lemma TripleJoins(vp: VarPattern, sol: Solution, ctx: Context, t: Triple)
    requires sol.Valid() && vp.graph.InUnion?
    ensures TripleHit(vp, sol, ctx)(t)
         == match TripleHit(vp, EMPTY, ctx)(t) case None => None case Some(c) => Join(sol, c)
  {
    var f, g, m := TripleHit(vp, EMPTY, ctx), TripleHit(vp, sol, ctx), Edge(Quad(DEFAULT_GRAPH, t));
    forall r ensures f(t) == Some(r) <==> Contributes(vp, m, EMPTY, r, ctx) { TripleMeaning(t, vp, EMPTY, r, ctx); }
    forall r ensures g(t) == Some(r) <==> Contributes(vp, m, sol, r, ctx) { TripleMeaning(t, vp, sol, r, ctx); }
    HitsJoin(vp, m, sol, f(t), g(t), ctx);
  }

  /** What one triple adds to `sol` is what it gives alone, joined to `sol`. */
  ghost predicate JoinsAlone(vp: VarPattern, sol: Solution, ctx: Context) {
    forall t ::
      TripleHit(vp, sol, ctx)(t) == match TripleHit(vp, EMPTY, ctx)(t) case None => None case Some(c) => Joiner(sol)(c)
  }

  lemma StoredJoin(vp: VarPattern, sol: Solution, ctx: Context)
    requires IsUngraphed(vp) && SteadyRead(vp, sol, ctx) && SteadyRead(vp, EMPTY, ctx) && !NamesDerived(vp, ctx)
    requires JoinsAlone(vp, sol, ctx)
    ensures Step(vp, sol, ctx) == JoinAll(sol, Parts(vp, ctx))
  {
    StoredStep(vp, sol, ctx);
    StoredStep(vp, EMPTY, ctx);
    FilterMapCompose(TripleHit(vp, EMPTY, ctx), Joiner(sol), TripleHit(vp, sol, ctx), ctx.snapshot.UnionTriples());
  }

  lemma DerivedJoin(vp: VarPattern, sol: Solution, ctx: Context)
    requires NamesDerived(vp, ctx) && vp.edgeVar.None? && JoinsAlone(vp, sol, ctx)
    ensures Step(vp, sol, ctx) == JoinAll(sol, Parts(vp, ctx))
  {
    DerivedStep(vp, sol, ctx);
    DerivedStep(vp, EMPTY, ctx);
    PairsJoin(vp, sol, vp.pred.value, Listed(ctx.view.derived[vp.pred.value]), ctx);
  }

  lemma PairsJoin(vp: VarPattern, sol: Solution, p: string, pairs: seq<NodePair>, ctx: Context)
    requires JoinsAlone(vp, sol, ctx)
    ensures FilterMap(PairHit(vp, sol, p, ctx), pairs) == JoinAll(sol, FilterMap(PairHit(vp, EMPTY, p, ctx), pairs))
  {
    forall pair ensures PairHit(vp, sol, p, ctx)(pair)
                     == match PairHit(vp, EMPTY, p, ctx)(pair) case None => None case Some(c) => Joiner(sol)(c) {
      var t := Relation(pair.0, p, pair.1, 0);
      assert PairHit(vp, sol, p, ctx)(pair) == TripleHit(vp, sol, ctx)(t);
    }
    FilterMapCompose(PairHit(vp, EMPTY, p, ctx), Joiner(sol), PairHit(vp, sol, p, ctx), pairs);
  }

  lemma UngraphedJoin(vp: VarPattern, sol: Solution, ctx: Context)
    requires IsUngraphed(vp) && Steady(vp, sol, ctx) && Steady(vp, EMPTY, ctx) && sol.Valid()
    ensures Step(vp, sol, ctx) == JoinAll(sol, Parts(vp, ctx))
  {
    forall t
      ensures TripleHit(vp, sol, ctx)(t)
           == match TripleHit(vp, EMPTY, ctx)(t) case None => None case Some(c) => Joiner(sol)(c)
    {
      TripleJoins(vp, sol, ctx, t);
    }
    if NamesDerived(vp, ctx) { DerivedJoin(vp, sol, ctx); } else { StoredJoin(vp, sol, ctx); }
  }

  lemma GraphedStep(vp: VarPattern, sol: Solution, ctx: Context)
    requires !vp.graph.InUnion? && vp.maxHops.None?
    ensures Step(vp, sol, ctx) == FilterMap(QuadHit(vp, sol, ctx), ctx.snapshot.quads)
  {
    var scope := ScopeOf(vp.graph, sol, ctx.snapshot);
    FilterThenMap(ctx.snapshot.InScope(Substitute(vp, sol, ctx.snapshot), scope), QuadExtender(vp, sol, ctx),
      QuadHit(vp, sol, ctx), ctx.snapshot.quads);
  }

  lemma GraphedJoin(vp: VarPattern, sol: Solution, ctx: Context)
    requires !vp.graph.InUnion? && vp.maxHops.None? && sol.Valid() && ctx.snapshot.Valid()
    ensures Step(vp, sol, ctx) == JoinAll(sol, Parts(vp, ctx))
  {
    var f, g, qs := QuadHit(vp, EMPTY, ctx), QuadHit(vp, sol, ctx), ctx.snapshot.quads;
    forall q ensures g(q) == match f(q) case None => None case Some(c) => Joiner(sol)(c) {
      forall r
        ensures f(q) == Some(r) <==> Contributes(vp, Edge(q), EMPTY, r, ctx)
      {
        QuadMeaning(q, vp, EMPTY, r, ctx);
      }
      forall r ensures g(q) == Some(r) <==> Contributes(vp, Edge(q), sol, r, ctx) { QuadMeaning(q, vp, sol, r, ctx); }
      HitsJoin(vp, Edge(q), sol, f(q), g(q), ctx);
    }
    GraphedStep(vp, sol, ctx);
    GraphedStep(vp, EMPTY, ctx);
    FilterMapCompose(f, Joiner(sol), g, qs);
  }

  // ── Walks ────────────────────────────────────────────────────────────────

  function TargetHit(vp: VarPattern, sol: Solution, start: NodeId): NodeId -> Option<Solution> {
    (target: NodeId) =>
      match BindNode(vp.subject, start, sol)
      case None => None
      case Some(base) => BindTarget(vp, base, target)
  }

  lemma {:induction false} NothingMaps<T(!new), U>(f: T -> Option<U>, s: seq<T>)
    requires forall x :: x in s ==> f(x) == None
    ensures FilterMap(f, s) == []
  {
    if s != [] {
      assert forall x :: x in s[1..] ==> x in s;
      NothingMaps(f, s[1..]);
      assert s[0] in s;
    }
  }

  lemma HopsFromMaps(vp: VarPattern, sol: Solution, snap: Snapshot, start: NodeId)
    requires vp.maxHops.Some? && vp.pred.Some?
    ensures HopsFrom(vp, sol, snap, start)
         == FilterMap(TargetHit(vp, sol, start), Listed(ReachWithin(snap, vp.pred.value, start, vp.maxHops.value)))
  {
    var ends := Listed(ReachWithin(snap, vp.pred.value, start, vp.maxHops.value));
    var f := TargetHit(vp, sol, start);
    match BindNode(vp.subject, start, sol)
    case None => NothingMaps(f, ends);
    case Some(base) =>
      var g := TargetBinder(vp, base);
      FilterThenMap((t: NodeId) => true, g, f, ends);
      FilterAll((t: NodeId) => true, ends);
  }

  lemma HopsFromJoin(vp: VarPattern, sol: Solution, ctx: Context, start: NodeId)
    requires vp.maxHops.Some? && vp.pred.Some? && sol.Valid() && (vp.subject.Bound? ==> vp.subject.id == start)
    ensures HopsFrom(vp, sol, ctx.snapshot, start) == JoinAll(sol, HopsFrom(vp, EMPTY, ctx.snapshot, start))
  {
    var f, g := TargetHit(vp, EMPTY, start), TargetHit(vp, sol, start);
    forall t ensures g(t) == match f(t) case None => None case Some(c) => Joiner(sol)(c) {
      forall r
        ensures f(t) == Some(r) <==> Contributes(vp, Path(start, t), EMPTY, r, ctx)
      {
        PathMeaning(vp, EMPTY, start, t, r, ctx);
      }
      forall r
        ensures g(t) == Some(r) <==> Contributes(vp, Path(start, t), sol, r, ctx)
      {
        PathMeaning(vp, sol, start, t, r, ctx);
      }
      HitsJoin(vp, Path(start, t), sol, f(t), g(t), ctx);
    }
    HopsFromMaps(vp, sol, ctx.snapshot, start);
    HopsFromMaps(vp, EMPTY, ctx.snapshot, start);
    FilterMapCompose(f, Joiner(sol), g, Listed(ReachWithin(ctx.snapshot, vp.pred.value, start, vp.maxHops.value)));
  }

  lemma {:induction false} DistinctSubjectsDistinct(ts: seq<Triple>, seen: set<NodeId>)
    ensures Distinct(DistinctSubjects(ts, seen))
  {
    if ts != [] {
      var seen' := if ts[0].Relation? && ts[0].subject !in seen then seen + {ts[0].subject} else seen;
      DistinctSubjectsDistinct(ts[1..], seen');
      var rest := DistinctSubjects(ts[1..], seen');
      forall i | 0 <= i < |rest| ensures rest[i] !in seen' { DistinctSubjectsMember(ts[1..], seen', rest[i]); }
    }
  }

  /** Starting from the bound subject alone, or from every subject and joining
      afterwards, gives the same rows. */
  lemma StartsJoin(vp: VarPattern, sol: Solution, snap: Snapshot)
    requires vp.maxHops.Some? && vp.pred.Some? && sol.Valid() && !(vp.subject.Var? && vp.subject.name in sol.values)
    ensures FlatMap(Hopper(vp, sol, snap), Starts(vp, EMPTY, snap))
         == FlatMap(Hopper(vp, sol, snap), Starts(vp, sol, snap))
  {
    if vp.subject.Var? && vp.subject.name in sol.nodes {
      var f, id, all := Hopper(vp, sol, snap), sol.nodes[vp.subject.name], Starts(vp, EMPTY, snap);
      DistinctSubjectsDistinct(snap.ScanByPredicate(vp.pred.value), {});
      assert Distinct(all);
      FlatMapSingle(f, all, id);
      assert FlatMap(f, [id]) == f(id);
      StartsMember(vp, EMPTY, snap, id);
      if f(id) != [] {
        var r := f(id)[0];
        HopsFromMeaning(vp, sol, id, r, Context(snap, Storage, false));
        var target :| Visible(vp, Path(id, target), Context(snap, Storage, false));
        ReachNeedsEdge(snap, vp.pred.value, id, vp.maxHops.value, target);
      }
    }
  }

  lemma {:induction false} NothingFlattens<T(!new), U>(f: T -> seq<U>, s: seq<T>)
    requires forall x :: x in s ==> f(x) == []
    ensures FlatMap(f, s) == []
  {
    if s != [] {
      assert forall x :: x in s[1..] ==> x in s;
      NothingFlattens(f, s[1..]);
      assert s[0] in s;
    }
  }

  lemma HopJoin(vp: VarPattern, sol: Solution, ctx: Context)
    requires vp.maxHops.Some? && sol.Valid()
    ensures Step(vp, sol, ctx) == JoinAll(sol, Parts(vp, ctx))
  {
    var snap := ctx.snapshot;
    if vp.pred.Some? {
      var starts := Starts(vp, EMPTY, snap);
      forall s | s in starts ensures Hopper(vp, sol, snap)(s) == FilterMap(Joiner(sol), Hopper(vp, EMPTY, snap)(s)) {
        HopsFromJoin(vp, sol, ctx, s);
      }
      FilterMapFlatMap(Hopper(vp, EMPTY, snap), Joiner(sol), Hopper(vp, sol, snap), starts);
      if vp.subject.Var? && vp.subject.name in sol.values {
        NothingFlattens(Hopper(vp, sol, snap), starts);
      } else {
        StartsJoin(vp, sol, snap);
      }
    }
  }

  /** What the pattern reads is fixed: over storage always; with derived facts in
      view, it names its predicate or binds none, and no edge of a derived fact. */
  predicate Stable(vp: VarPattern, ctx: Context) {
    ctx.view.Hybrid? ==> !Unnamed(vp) && EdgeFree(vp, ctx)
  }

  predicate AllStable(ps: seq<VarPattern>, ctx: Context) {
    forall i :: 0 <= i < |ps| ==> Stable(ps[i], ctx)
  }

  /** Whatever is bound already, a step joins it with the rows the pattern
      yields on its own, each as often as they pair up. */
  lemma StepIsJoin(vp: VarPattern, sol: Solution, ctx: Context)
    requires sol.Valid() && ctx.snapshot.Valid() && Stable(vp, ctx)
    ensures multiset(Step(vp, sol, ctx)) == multiset(JoinAll(sol, Parts(vp, ctx)))
  {
    StepJoins(vp, sol, ctx);
  }

  lemma StepJoins(vp: VarPattern, sol: Solution, ctx: Context)
    requires sol.Valid() && ctx.snapshot.Valid() && Stable(vp, ctx)
    ensures Step(vp, sol, ctx) == JoinAll(sol, Parts(vp, ctx))
  {
    if vp.maxHops.Some? { HopJoin(vp, sol, ctx); }
    else if vp.graph.InUnion? { UngraphedJoin(vp, sol, ctx); }
    else { GraphedJoin(vp, sol, ctx); }
  }

  // ── Joining two lists of parts in either order ───────────────────────────

  predicate AllValid(sols: seq<Solution>) { forall i :: 0 <= i < |sols| ==> sols[i].Valid() }

  function PartsJoiner(parts: seq<Solution>): Solution -> seq<Solution> { (s: Solution) => JoinAll(s, parts) }

  function JoinSeq(sols: seq<Solution>, parts: seq<Solution>): seq<Solution> { FlatMap(PartsJoiner(parts), sols) }

  lemma AgreeWithUnion<V>(a: map<string, V>, b: map<string, V>, c: map<string, V>)
    requires MapsAgree(a, b)
    ensures MapsAgree(a + b, c) <==> MapsAgree(a, c) && MapsAgree(b, c)
  {
    if MapsAgree(a + b, c) {
      forall x | x in a && x in c ensures a[x] == c[x] { assert (a + b)[x] == a[x]; }
      forall x | x in b && x in c ensures b[x] == c[x] { assert (a + b)[x] == b[x]; }
    }
  }

  lemma UnionSwaps<V>(a: map<string, V>, b: map<string, V>, c: map<string, V>)
    requires MapsAgree(b, c)
    ensures a + b + c == a + c + b
  {}

  lemma CompatibleWithMerge(a: Solution, b: Solution, c: Solution)
    requires Compatible(a, b)
    ensures Compatible(Merge(a, b), c) <==> Compatible(a, c) && Compatible(b, c)
  {
    AgreeWithUnion(a.nodes, b.nodes, c.nodes);
    AgreeWithUnion(a.preds, b.preds, c.preds);
    AgreeWithUnion(a.values, b.values, c.values);
    var m := Merge(a, b);
    assert m.nodes.Keys == a.nodes.Keys + b.nodes.Keys && m.values.Keys == a.values.Keys + b.values.Keys;
  }

  lemma CompatibleSymmetric(a: Solution, b: Solution)
    ensures Compatible(a, b) <==> Compatible(b, a)
  {}

  /** Joining is commutative and associative where it is defined. */
  lemma JoinSwaps(sol: Solution, c: Solution, d: Solution)
    ensures (Compatible(sol, c) && Compatible(Merge(sol, c), d))
       <==> (Compatible(sol, d) && Compatible(Merge(sol, d), c))
    ensures Compatible(sol, c) && Compatible(Merge(sol, c), d) ==> Merge(Merge(sol, c), d) == Merge(Merge(sol, d), c)
  {
    if Compatible(sol, c) { CompatibleWithMerge(sol, c, d); }
    if Compatible(sol, d) { CompatibleWithMerge(sol, d, c); }
    CompatibleSymmetric(c, d);
    if Compatible(sol, c) && Compatible(Merge(sol, c), d) {
      UnionSwaps(sol.nodes, c.nodes, d.nodes);
      UnionSwaps(sol.preds, c.preds, d.preds);
      UnionSwaps(sol.values, c.values, d.values);
    }
  }

  function Row(s: Option<Solution>): seq<Solution> { match s case None => [] case Some(r) => [r] }

  lemma JoinAllPeels(sol: Solution, c: Solution, cs: seq<Solution>)
    ensures JoinAll(sol, [c] + cs) == Row(Join(sol, c)) + JoinAll(sol, cs)
  {
    assert ([c] + cs)[0] == c && ([c] + cs)[1..] == cs;
  }

  /** Joining one row and then `ds`, or `ds` onto the row where it exists. */
  lemma JoinRow(s: Option<Solution>, ds: seq<Solution>)
    ensures JoinSeq(Row(s), ds) == match s case None => [] case Some(r) => JoinAll(r, ds)
  {
    if s.Some? { FlatMapOne(PartsJoiner(ds), s.value); }
  }

  lemma JoinSingle(sol: Solution, c: Solution)
    ensures JoinAll(sol, [c]) == Row(Join(sol, c))
  {
    assert [c] == [c] + [];
    JoinAllPeels(sol, c, []);
  }

  lemma JoinPairSwaps(sol: Solution, c: Solution, d: Solution)
    ensures JoinSeq(Row(Join(sol, d)), [c]) == JoinSeq(Row(Join(sol, c)), [d])
  {
    JoinSwaps(sol, c, d);
    JoinRow(Join(sol, d), [c]);
    JoinRow(Join(sol, c), [d]);
    if Compatible(sol, d) { JoinSingle(Merge(sol, d), c); }
    if Compatible(sol, c) { JoinSingle(Merge(sol, c), d); }
  }

  /** Joining every row of `JoinAll(sol, ds)` with one part `c` is joining `c`
      first and then all of `ds`. */
  lemma {:induction false} JoinOneAfter(sol: Solution, c: Solution, ds: seq<Solution>)
    ensures JoinSeq(JoinAll(sol, ds), [c]) == JoinSeq(Row(Join(sol, c)), ds)
  {
    JoinRow(Join(sol, c), ds);
    if ds != [] {
      var d, rest := ds[0], ds[1..];
      assert ds == [d] + rest;
      JoinOneAfter(sol, c, rest);
      JoinAllPeels(sol, d, rest);
      FlatMapConcat(PartsJoiner([c]), Row(Join(sol, d)), JoinAll(sol, rest));
      JoinPairSwaps(sol, c, d);
      JoinRow(Join(sol, c), [d]);
      JoinRow(Join(sol, c), rest);
      if Compatible(sol, c) { JoinAllPeels(Merge(sol, c), d, rest); JoinSingle(Merge(sol, c), d); }
    }
  }

  lemma {:induction false} JoinSeqPeels(sols: seq<Solution>, c: Solution, cs: seq<Solution>)
    ensures multiset(JoinSeq(sols, [c] + cs)) == multiset(JoinSeq(sols, [c])) + multiset(JoinSeq(sols, cs))
  {
    if sols != [] {
      JoinSeqPeels(sols[1..], c, cs);
      FilterMapConcat(Joiner(sols[0]), [c], cs);
    }
  }

  lemma {:induction false} JoinSeqSwaps(sol: Solution, cs: seq<Solution>, ds: seq<Solution>)
    ensures multiset(JoinSeq(JoinAll(sol, cs), ds)) == multiset(JoinSeq(JoinAll(sol, ds), cs))
  {
    if cs == [] {
      NothingFlattens(PartsJoiner([]), JoinAll(sol, ds));
    } else {
      var c, rest := cs[0], cs[1..];
      assert cs == [c] + rest;
      JoinSeqSwaps(sol, rest, ds);
      JoinSeqPeels(JoinAll(sol, ds), c, rest);
      JoinOneAfter(sol, c, ds);
      JoinAllPeels(sol, c, rest);
      FlatMapConcat(PartsJoiner(ds), Row(Join(sol, c)), JoinAll(sol, rest));
    }
  }

  // ── Queries ──────────────────────────────────────────────────────────────

  ghost function Steps(vp: VarPattern, sols: seq<Solution>, ctx: Context): seq<Solution> {
    FlatMap(Stepper(vp, ctx), sols)
  }

  lemma {:induction false} StepsAreJoin(vp: VarPattern, sols: seq<Solution>, ctx: Context)
    requires AllValid(sols) && ctx.snapshot.Valid() && Stable(vp, ctx)
    ensures Steps(vp, sols, ctx) == JoinSeq(sols, Parts(vp, ctx)) && AllValid(Steps(vp, sols, ctx))
  {
    if sols != [] {
      assert AllValid(sols[1..]);
      StepsAreJoin(vp, sols[1..], ctx);
      StepJoins(vp, sols[0], ctx);
      var step := Step(vp, sols[0], ctx);
      forall i | 0 <= i < |step| ensures step[i].Valid() { StepMeaning(vp, sols[0], step[i], ctx); }
    }
  }

  lemma StepSwaps(a: VarPattern, b: VarPattern, s: Solution, ctx: Context)
    requires s.Valid() && ctx.snapshot.Valid() && Stable(a, ctx) && Stable(b, ctx)
    ensures multiset(Steps(b, Step(a, s, ctx), ctx)) == multiset(Steps(a, Step(b, s, ctx), ctx))
  {
    FlatMapOne(Stepper(a, ctx), s);
    FlatMapOne(Stepper(b, ctx), s);
    StepsAreJoin(a, [s], ctx);
    StepsAreJoin(b, [s], ctx);
    StepsAreJoin(b, Step(a, s, ctx), ctx);
    StepsAreJoin(a, Step(b, s, ctx), ctx);
    StepJoins(a, s, ctx);
    StepJoins(b, s, ctx);
    JoinSeqSwaps(s, Parts(a, ctx), Parts(b, ctx));
  }

  lemma StepsPeel(a: VarPattern, b: VarPattern, sols: seq<Solution>, ctx: Context)
    requires sols != []
    ensures Steps(b, Steps(a, sols, ctx), ctx)
         == Steps(b, Step(a, sols[0], ctx), ctx) + Steps(b, Steps(a, sols[1..], ctx), ctx)
  {
    FlatMapConcat(Stepper(b, ctx), Step(a, sols[0], ctx), Steps(a, sols[1..], ctx));
  }

  lemma {:induction false} StepsSwap(a: VarPattern, b: VarPattern, sols: seq<Solution>, ctx: Context)
    requires AllValid(sols) && ctx.snapshot.Valid() && Stable(a, ctx) && Stable(b, ctx)
    ensures multiset(Steps(b, Steps(a, sols, ctx), ctx)) == multiset(Steps(a, Steps(b, sols, ctx), ctx))
  {
    if sols != [] {
      assert AllValid(sols[1..]);
      StepsSwap(a, b, sols[1..], ctx);
      StepsPeel(a, b, sols, ctx);
      StepsPeel(b, a, sols, ctx);
      StepSwaps(a, b, sols[0], ctx);
    }
  }

  lemma SolveCons(x: VarPattern, ps: seq<VarPattern>, sols: seq<Solution>, ctx: Context)
    ensures Solve([x] + ps, sols, ctx) == Solve(ps, Steps(x, sols, ctx), ctx)
  {
    assert ([x] + ps)[1..] == ps;
  }

  lemma FrontSwaps(x: VarPattern, y: VarPattern, ps: seq<VarPattern>, sols: seq<Solution>, ctx: Context)
    requires AllValid(sols) && ctx.snapshot.Valid() && Stable(x, ctx) && Stable(y, ctx)
    ensures multiset(Solve([x] + ps, Steps(y, sols, ctx), ctx)) == multiset(Solve([y] + ps, Steps(x, sols, ctx), ctx))
  {
    SolveCons(x, ps, Steps(y, sols, ctx), ctx);
    SolveCons(y, ps, Steps(x, sols, ctx), ctx);
    StepsSwap(y, x, sols, ctx);
    SeedOrder(ps, Steps(x, Steps(y, sols, ctx), ctx), Steps(y, Steps(x, sols, ctx), ctx), ctx);
  }

  /** Two queries give the same rows with the same multiplicities. */
  ghost predicate SameRows(ps: seq<VarPattern>, qs: seq<VarPattern>, sols: seq<Solution>, ctx: Context) {
    multiset(Solve(ps, sols, ctx)) == multiset(Solve(qs, sols, ctx))
  }

  lemma BubblePast(y: VarPattern, x: VarPattern, ps: seq<VarPattern>, qs: seq<VarPattern>, sols: seq<Solution>,
      ctx: Context)
    requires AllValid(sols) && ctx.snapshot.Valid() && Stable(x, ctx) && Stable(y, ctx)
    requires SameRows(ps, [x] + qs, Steps(y, sols, ctx), ctx)
    ensures SameRows([y] + ps, [x] + ([y] + qs), sols, ctx)
  {
    FrontSwaps(x, y, qs, sols, ctx);
    SolveCons(y, ps, sols, ctx);
    SolveCons(x, [y] + qs, sols, ctx);
  }

  /** Moving a pattern to the front of those before it changes nothing. */
  lemma {:induction false} SolveBubble(before: seq<VarPattern>, x: VarPattern, after: seq<VarPattern>,
      sols: seq<Solution>, ctx: Context)
    requires AllValid(sols) && ctx.snapshot.Valid() && AllStable(before, ctx) && Stable(x, ctx)
    ensures SameRows(before + [x] + after, [x] + (before + after), sols, ctx)
    decreases |before|, 1
  {
    if before == [] {
      assert before + [x] + after == [x] + (before + after);
    } else {
      var y, rest := before[0], before[1..];
      assert Stable(y, ctx) && AllStable(rest, ctx);
      SolveBubbleStep(y, rest, x, after, sols, ctx);
      ConcatPeels(before, [x] + after);
      ConcatPeels(before, after);
      assert before + [x] + after == before + ([x] + after);
    }
  }

  lemma ConcatPeels<T>(a: seq<T>, b: seq<T>)
    requires a != []
    ensures a + b == [a[0]] + (a[1..] + b)
  {}

  lemma SolveBubbleStep(y: VarPattern, rest: seq<VarPattern>, x: VarPattern, after: seq<VarPattern>,
      sols: seq<Solution>, ctx: Context)
    requires AllValid(sols) && ctx.snapshot.Valid() && Stable(y, ctx) && AllStable(rest, ctx) && Stable(x, ctx)
    ensures SameRows([y] + (rest + ([x] + after)), [x] + ([y] + (rest + after)), sols, ctx)
    decreases |rest| + 1, 0
  {
    StepsAreJoin(y, sols, ctx);
    SolveBubble(rest, x, after, Steps(y, sols, ctx), ctx);
    assert rest + [x] + after == rest + ([x] + after);
    BubblePast(y, x, rest + ([x] + after), rest + after, sols, ctx);
  }

  lemma StabilityPermutes(ps: seq<VarPattern>, qs: seq<VarPattern>, ctx: Context)
    requires multiset(ps) == multiset(qs) && AllStable(ps, ctx)
    ensures AllStable(qs, ctx)
  {
    forall i | 0 <= i < |qs| ensures Stable(qs[i], ctx) {
      assert qs[i] in multiset(ps);
      assert qs[i] in ps;
    }
  }

  /** Any permutation of the patterns gives the same rows with the same
      multiplicities. */
  lemma {:induction false} OrderIndependent(ps: seq<VarPattern>, qs: seq<VarPattern>, sols: seq<Solution>, ctx: Context)
    requires multiset(ps) == multiset(qs)
    requires AllValid(sols) && ctx.snapshot.Valid() && AllStable(ps, ctx)
    ensures SameRows(ps, qs, sols, ctx)
  {
    if ps == [] {
      assert |qs| == |multiset(qs)| == |multiset(ps)| == 0;
    } else {
      var x, rest := ps[0], ps[1..];
      var before, after := PeelPermutation(ps, qs);
      StabilityPermutes(ps, qs, ctx);
      assert AllStable(before, ctx) by { assert forall i :: 0 <= i < |before| ==> before[i] == qs[i]; }
      SolveBubble(before, x, after, sols, ctx);
      SolveCons(x, before + after, sols, ctx);
      StepsAreJoin(x, sols, ctx);
      assert AllStable(rest, ctx);
      OrderIndependent(rest, before + after, Steps(x, sols, ctx), ctx);
    }
  }
}
