/** The evaluation loops of crates/polargraph-query/src/datalog.rs. Hash sets are
    iterated in no particular order, so each loop is tied to its specification
    up to the order of the rows. */
module Evaluator {
  import opened Sequences
  import opened Store
  import opened Datalog
  import opened Reachability

  /** The elements of a hash set in the order it happens to iterate. */
  method Iterate<T(!new, ==)>(s: set<T>) returns (r: seq<T>)
    ensures multiset(r) == multiset(s)
  {
    r := [];
    var rest := s;
    while rest != {}
      invariant rest <= s && multiset(r) == multiset(s - rest)
      decreases |rest|
    {
      var x :| x in rest;
      assert s - (rest - {x}) == (s - rest) + {x};
      rest, r := rest - {x}, r + [x];
    }
    assert s - rest == s;
  }

  /** A scan in whatever order the index, or the hash map that merges graphs, gives
      it. */
  method Scanned<T(!new)>(s: seq<T>) returns (r: seq<T>)
    ensures multiset(r) == multiset(s)
  {
    r := [];
    var rest := s;
    while rest != []
      invariant multiset(r) + multiset(rest) == multiset(s)
      decreases |rest|
    {
      var i :| 0 <= i < |rest|;
      assert rest == rest[..i] + [rest[i]] + rest[i + 1..];
      r, rest := r + [rest[i]], rest[..i] + rest[i + 1..];
    }
  }

  /** Storage, or the derived pairs of a derived predicate as relations under the
      ids drawn for this read. */
  method EvaluateHybrid(pattern: Pattern, ctx: Context, edgeOf: PairDraw) returns (triples: seq<Triple>)
    ensures multiset(triples) == multiset(Ungraphed(pattern, ctx, edgeOf))
  {
    if ReadsDerived(pattern.pred, ctx.view) {
      var p := pattern.pred.value;
      var pairs := Iterate(ctx.view.derived[p]);
      triples := [];
      ghost var keep, make := PairMatching(pattern), PairTriple(p, edgeOf);
      for i := 0 to |pairs|
        invariant triples == Filter(keep, FilterMap(make, pairs[..i]))
      {
        var pair := pairs[i];
        var t := Relation(pair.0, p, pair.1, edgeOf(pair.0, pair.1));
        assert pairs[..i + 1] == pairs[..i] + [pair] && pair == (pair.0, pair.1);
        FilterMapConcat(make, pairs[..i], [pair]);
        FilterMapOne(make, pair);
        FilterConcat(keep, FilterMap(make, pairs[..i]), [t]);
        FilterOne(keep, t);
        if PairMatches(pattern, pair) {
          triples := triples + [t];
        }
      }
      assert pairs[..|pairs|] == pairs;
      FilterMapPermutes(make, pairs, Listed(ctx.view.derived[p]));
      FilterPermutes(keep, FilterMap(make, pairs), FilterMap(make, Listed(ctx.view.derived[p])));
    } else {
      triples := Scanned(ctx.snapshot.Evaluate(pattern));
    }
  }

  method ExtendUngraphed(vp: VarPattern, sol: Solution, ctx: Context) returns (out: seq<Solution>)
    requires vp.graph.InUnion?
    ensures multiset(out) == multiset(MatchPattern(vp, sol, ctx))
  {
    var pattern := Substitute(vp, sol, ctx.snapshot);
    var triples := EvaluateHybrid(pattern, ctx, Drawn(vp, sol, ctx.view));
    ghost var f := Extender(vp, sol, ctx.bindValues);
    out := [];
    for i := 0 to |triples|
      invariant out == FilterMap(f, triples[..i])
    {
      assert triples[..i + 1] == triples[..i] + [triples[i]];
      FilterMapConcat(f, triples[..i], [triples[i]]);
      FilterMapOne(f, triples[i]);
      var next := ExtendFull(triples[i], vp, sol, ctx.bindValues);
      if next.Some? {
        out := out + [next.value];
      }
    }
    assert triples[..|triples|] == triples;
    FilterMapPermutes(f, triples, Ungraphed(pattern, ctx, Drawn(vp, sol, ctx.view)));
  }

  method ExtendGraphed(vp: VarPattern, sol: Solution, ctx: Context) returns (out: seq<Solution>)
    requires !vp.graph.InUnion?
    ensures multiset(out) == multiset(MatchPattern(vp, sol, ctx))
  {
    var pattern := Substitute(vp, sol, ctx.snapshot);
    var quads := Scanned(ctx.snapshot.ScanScoped(pattern, ScopeOf(vp.graph, sol, ctx.snapshot)));
    ghost var f := QuadExtender(vp, sol, ctx);
    out := [];
    for i := 0 to |quads|
      invariant out == FilterMap(f, quads[..i])
    {
      assert quads[..i + 1] == quads[..i] + [quads[i]];
      FilterMapConcat(f, quads[..i], [quads[i]]);
      FilterMapOne(f, quads[i]);
      var next := ExtendFull(quads[i].triple, vp, sol, ctx.bindValues);
      if next.Some? {
        var bound := BindGraph(quads[i].graph, vp.graph, next.value, ctx.snapshot);
        if bound.Some? {
          out := out + [bound.value];
        }
      }
    }
    assert quads[..|quads|] == quads;
    FilterMapPermutes(f, quads, ctx.snapshot.ScanScoped(pattern, ScopeOf(vp.graph, sol, ctx.snapshot)));
  }

  /** Match one pattern for one partial solution. */
  method ExtendByPattern(vp: VarPattern, sol: Solution, ctx: Context) returns (out: seq<Solution>)
    ensures multiset(out) == multiset(MatchPattern(vp, sol, ctx))
  {
    if vp.graph.InUnion? {
      out := ExtendUngraphed(vp, sol, ctx);
    } else {
      out := ExtendGraphed(vp, sol, ctx);
    }
  }

  /** Walk out from one starting node and bind each node reached. */
  method ExtendFromStart(vp: VarPattern, sol: Solution, snap: Snapshot, start: NodeId) returns (out: seq<Solution>)
    requires vp.maxHops.Some? && vp.pred.Some?
    ensures multiset(out) == multiset(HopsFrom(vp, sol, snap, start))
  {
    out := [];
    var base := BindNode(vp.subject, start, sol);
    if base.Some? {
      var reached := ReachableFromHops(start, vp.pred.value, snap, vp.maxHops.value);
      var targets := Iterate(reached);
      ghost var f := TargetBinder(vp, base.value);
      for i := 0 to |targets|
        invariant out == FilterMap(f, targets[..i])
      {
        assert targets[..i + 1] == targets[..i] + [targets[i]];
        FilterMapConcat(f, targets[..i], [targets[i]]);
        FilterMapOne(f, targets[i]);
        var b := BindTarget(vp, base.value, targets[i]);
        if b.Some? {
          out := out + [b.value];
        }
      }
      assert targets[..|targets|] == targets;
      FilterMapPermutes(f, targets, Listed(reached));
    }
  }

  /** A bounded transitive pattern for one partial solution. */
  method ExtendByHops(vp: VarPattern, sol: Solution, snap: Snapshot) returns (out: seq<Solution>)
    requires vp.maxHops.Some?
    ensures multiset(out) == multiset(HopPattern(vp, sol, snap))
  {
    out := [];
    if vp.pred.Some? && !(vp.subject.Var? && vp.subject.name in sol.values) {
      var starts := Scanned(Starts(vp, sol, snap));
      out := ExtendFromStarts(vp, sol, snap, starts);
      FlatMapPermutes(Hopper(vp, sol, snap), starts, Starts(vp, sol, snap));
    }
  }

  method ExtendFromStarts(vp: VarPattern, sol: Solution, snap: Snapshot, starts: seq<NodeId>)
      returns (out: seq<Solution>)
    requires vp.maxHops.Some? && vp.pred.Some?
    ensures multiset(out) == multiset(FlatMap(Hopper(vp, sol, snap), starts))
  {
    out := [];
    ghost var f := Hopper(vp, sol, snap);
    for i := 0 to |starts|
      invariant multiset(out) == multiset(FlatMap(f, starts[..i]))
    {
      FlatMapSnoc(f, starts, i);
      var more := ExtendFromStart(vp, sol, snap, starts[i]);
      out := out + more;
    }
    assert starts[..|starts|] == starts;
  }

  lemma FlatMapSnoc<T(!new), U(!new)>(f: T -> seq<U>, s: seq<T>, i: nat)
    requires i < |s|
    ensures FlatMap(f, s[..i + 1]) == FlatMap(f, s[..i]) + f(s[i])
  {
    assert s[..i + 1] == s[..i] + [s[i]];
    FlatMapConcat(f, s[..i], [s[i]]);
    FlatMapOne(f, s[i]);
  }

  /** Extend every partial solution by one pattern. */
  method ExtendAll(vp: VarPattern, solutions: seq<Solution>, ctx: Context) returns (next: seq<Solution>)
    ensures multiset(next) == multiset(FlatMap(Stepper(vp, ctx), solutions))
  {
    next := [];
    ghost var f := Stepper(vp, ctx);
    for i := 0 to |solutions|
      invariant multiset(next) == multiset(FlatMap(f, solutions[..i]))
    {
      FlatMapSnoc(f, solutions, i);
      var more;
      if vp.maxHops.Some? {
        more := ExtendByHops(vp, solutions[i], ctx.snapshot);
      } else {
        more := ExtendByPattern(vp, solutions[i], ctx);
      }
      next := next + more;
    }
    assert solutions[..|solutions|] == solutions;
  }

  /** Patterns left to right, each joined against every partial solution. */
  method EvaluateSolutions(ps: seq<VarPattern>, initial: seq<Solution>, ctx: Context) returns (solutions: seq<Solution>)
    ensures multiset(solutions) == multiset(Solve(ps, initial, ctx))
  {
    hide Solve, Step;
    solutions := initial;
    var k := 0;
    assert ps[0..] == ps;
    while k < |ps| && solutions != []
      invariant 0 <= k <= |ps| && RestToDo(ps, k, solutions, initial, ctx)
    {
      var vp := ps[k];
      var next := ExtendAll(vp, solutions, ctx);
      PatternDone(ps, k, solutions, next, ctx);
      solutions, k := next, k + 1;
    }
    NothingToDo(ps, k, solutions, ctx);
  }

  /** Applying the patterns from the `k`th on to `solutions` is what remains. */
  ghost predicate RestToDo(ps: seq<VarPattern>, k: nat, solutions: seq<Solution>, initial: seq<Solution>, ctx: Context)
    requires k <= |ps|
  {
    multiset(Solve(ps[k..], solutions, ctx)) == multiset(Solve(ps, initial, ctx))
  }

  /** The loop stops when patterns or partial solutions run out. */
  lemma NothingToDo(ps: seq<VarPattern>, k: nat, solutions: seq<Solution>, ctx: Context)
    requires k <= |ps| && (k == |ps| || solutions == [])
    ensures Solve(ps[k..], solutions, ctx) == solutions
  {
    if solutions == [] { NoSeeds(ps[k..], ctx); }
  }

  lemma PatternDone(ps: seq<VarPattern>, k: nat, solutions: seq<Solution>, next: seq<Solution>, ctx: Context)
    requires k < |ps| && multiset(next) == multiset(FlatMap(Stepper(ps[k], ctx), solutions))
    ensures multiset(Solve(ps[k + 1..], next, ctx)) == multiset(Solve(ps[k..], solutions, ctx))
  {
    var rest := ps[k..];
    assert rest[0] == ps[k] && rest[1..] == ps[k + 1..];
    SeedOrder(ps[k + 1..], FlatMap(Stepper(ps[k], ctx), solutions), next, ctx);
  }

  lemma {:induction false} SeedOrder(ps: seq<VarPattern>, s1: seq<Solution>, s2: seq<Solution>, ctx: Context)
    requires multiset(s1) == multiset(s2)
    ensures multiset(Solve(ps, s1, ctx)) == multiset(Solve(ps, s2, ctx))
  {
    if ps != [] {
      var f := Stepper(ps[0], ctx);
      FlatMapPermutes(f, s1, s2);
      SeedOrder(ps[1..], FlatMap(f, s1), FlatMap(f, s2), ctx);
    }
  }

  /** No partial solution, no result: evaluation may stop early. */
  lemma {:induction false} NoSeeds(ps: seq<VarPattern>, ctx: Context)
    ensures Solve(ps, [], ctx) == []
  {
    if ps != [] { NoSeeds(ps[1..], ctx); }
  }
}
