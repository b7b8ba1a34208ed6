/** `execute_recursive` (crates/polargraph-query/src/datalog.rs): passes over the
    rules until one adds nothing. Each pass sees at once what its earlier rules
    added. */
module FixedPoint {
  import opened Store
  import opened Datalog
  import opened Evaluator
  import opened Rules
  import opened Passes
  import opened Yielding

  /** The ids drawn while a given pass applies a given rule. */
  type Draws = (nat, nat) -> EdgeDraw

  // ── The run of a program ─────────────────────────────────────────────────

  ghost predicate ArePairs(rule: Rule, ctx: Context, pairs: set<NodePair>) {
    forall s: NodeId, o: NodeId {:trigger Yields(rule, ctx, s, o)} :: (s, o) in pairs <==> Yields(rule, ctx, s, o)
  }

  lemma FinitelyMany(rule: Rule, ctx: Context)
    ensures exists pairs: set<NodePair> :: ArePairs(rule, ctx, pairs)
  {
    var pairs := set r | r in Solve(rule.body, [EMPTY], ctx) && rule.headSubject in r.nodes &&
                 rule.headObject in r.nodes ::
      (r.nodes[rule.headSubject], r.nodes[rule.headObject]);
    forall s: NodeId, o: NodeId ensures (s, o) in pairs <==> Yields(rule, ctx, s, o) {
      if r :| r in Solve(rule.body, [EMPTY], ctx) && HeadIs(rule, r, s, o) {
        assert (r.nodes[rule.headSubject], r.nodes[rule.headObject]) == (s, o);
      }
    }
    assert ArePairs(rule, ctx, pairs);
  }

  /** The pairs the rule yields. */
  ghost function YieldSet(rule: Rule, ctx: Context): (pairs: set<NodePair>)
    ensures ArePairs(rule, ctx, pairs)
  {
    FinitelyMany(rule, ctx);
    var pairs :| ArePairs(rule, ctx, pairs);
    pairs
  }

  lemma YieldSetMember(rule: Rule, ctx: Context, s: NodeId, o: NodeId)
    ensures (s, o) in YieldSet(rule, ctx) <==> Yields(rule, ctx, s, o)
  {}

  /** `d` with everything `rule` yields from it added under the rule's head. */
  ghost function Apply(rule: Rule, snap: Snapshot, d: DerivedFacts, e: EdgeDraw): DerivedFacts {
    d[rule.head := Lookup(d, rule.head) + YieldSet(rule, InView(snap, d, e))]
  }

  function SeedFacts(seeds: seq<Seed>): DerivedFacts {
    if seeds == [] then map[] else WithFact(SeedFacts(seeds[..|seeds| - 1]), seeds[|seeds| - 1])
  }

  function WithFact(d: DerivedFacts, seed: Seed): DerivedFacts {
    d[seed.pred := Lookup(d, seed.pred) + {(seed.subject, seed.obj)}]
  }

  function HeadList(rules: seq<Rule>): seq<string> { seq(|rules|, i requires 0 <= i < |rules| => rules[i].head) }

  /** `p` is the run of the program under these draws. */
  ghost predicate Runs(p: Process, prog: Program, snap: Snapshot, draws: Draws) {
    p.start == SeedFacts(prog.seeds) && p.heads == HeadList(prog.rules) &&
    forall n: nat, i: nat, d {:trigger Apply(prog.rules[i], snap, d, draws(n, i))} ::
      i < |prog.rules| ==> p.step(n, i, d) == Apply(prog.rules[i], snap, d, draws(n, i))
  }

  /** The run of the program, had its loop not stopped. */
  ghost function RunOf(prog: Program, snap: Snapshot, draws: Draws): (p: Process)
    ensures Runs(p, prog, snap, draws)
  {
    Process(
      (n: nat, i: nat, d: DerivedFacts) => if i < |prog.rules| then Apply(prog.rules[i], snap, d, draws(n, i)) else d,
      HeadList(prog.rules),
      SeedFacts(prog.seeds))
  }

  lemma StepIs(p: Process, prog: Program, snap: Snapshot, draws: Draws, n: nat, i: nat, d: DerivedFacts)
    requires Runs(p, prog, snap, draws) && i < |prog.rules|
    ensures p.step(n, i, d) == Apply(prog.rules[i], snap, d, draws(n, i))
  {}

  lemma StartIs(p: Process, prog: Program, snap: Snapshot, draws: Draws)
    requires Runs(p, prog, snap, draws)
    ensures p.Run(0) == SeedFacts(prog.seeds) && |p.heads| == |prog.rules|
  {}

  lemma RunValid(p: Process, prog: Program, snap: Snapshot, draws: Draws)
    requires Runs(p, prog, snap, draws)
    ensures p.Valid()
  {
    forall n: nat, i: nat, d ensures p.StepAdds(n, i, d) {
      if i < |p.heads| { StepIs(p, prog, snap, draws, n, i, d); }
    }
  }

  // ── The loop ─────────────────────────────────────────────────────────────

  /** Insert the head pairs of `solutions`; rows that leave a head variable
      without a node derive nothing. */
  method InsertHeads(rule: Rule, solutions: seq<Solution>, before: set<NodePair>)
      returns (entry: set<NodePair>, added: bool)
    ensures forall s: NodeId, o: NodeId ::
              (s, o) in entry <==> (s, o) in before || exists r :: r in solutions && HeadIs(rule, r, s, o)
    ensures before <= entry && (added <==> entry != before)
  {
    entry, added := before, false;
    for i := 0 to |solutions|
      invariant forall s: NodeId, o: NodeId ::
                  (s, o) in entry <==> (s, o) in before || exists j :: 0 <= j < i && HeadIs(rule, solutions[j], s, o)
      invariant before <= entry && (added <==> entry != before)
    {
      var sol := solutions[i];
      if rule.headSubject in sol.nodes && rule.headObject in sol.nodes {
        var s, o := sol.nodes[rule.headSubject], sol.nodes[rule.headObject];
        assert HeadIs(rule, solutions[i], s, o);
        if (s, o) !in entry {
          entry, added := entry + {(s, o)}, true;
        }
      }
    }
  }

  method ApplyRule(rule: Rule, snap: Snapshot, d: DerivedFacts, e: EdgeDraw) returns (d': DerivedFacts, added: bool)
    ensures d' == Apply(rule, snap, d, e)
    ensures added <==> Lookup(d', rule.head) != Lookup(d, rule.head)
  {
    var ctx := InView(snap, d, e);
    var solutions := EvaluateSolutions(rule.body, [EMPTY], ctx);
    var entry;
    entry, added := InsertHeads(rule, solutions, Lookup(d, rule.head));
    d' := d[rule.head := entry];
    forall r ensures r in solutions <==> r in Solve(rule.body, [EMPTY], ctx) {
      assert r in solutions <==> r in multiset(solutions);
      assert r in Solve(rule.body, [EMPTY], ctx) <==> r in multiset(Solve(rule.body, [EMPTY], ctx));
    }
    forall pair: NodePair ensures pair in entry <==> pair in Lookup(d, rule.head) + YieldSet(rule, ctx) {
      assert pair == (pair.0, pair.1);
      YieldSetMember(rule, ctx, pair.0, pair.1);
    }
    assert entry == Lookup(d, rule.head) + YieldSet(rule, ctx);
  }

  method Pass(prog: Program, snap: Snapshot, draws: Draws, n: nat, start: DerivedFacts, ghost p: Process)
      returns (d: DerivedFacts, added: bool)
    requires Runs(p, prog, snap, draws) && start == p.Run(n)
    ensures d == p.Run(n + 1) && (added <==> !p.Quiet(n))
  {
    d, added := start, false;
    p.StateEnds(n);
    for i := 0 to |prog.rules|
      invariant d == p.State(n, i)
      invariant added <==> !p.QuietUpTo(n, i)
    {
      var next, more := ApplyRule(prog.rules[i], snap, d, draws(n, i));
      StepIs(p, prog, snap, draws, n, i, d);
      p.StateStep(n, i);
      d, added := next, added || more;
    }
  }

  method Prime(seeds: seq<Seed>) returns (d: DerivedFacts)
    ensures d == SeedFacts(seeds)
  {
    d := map[];
    for i := 0 to |seeds|
      invariant d == SeedFacts(seeds[..i])
    {
      assert seeds[..i + 1][..i] == seeds[..i];
      d := d[seeds[i].pred := Lookup(d, seeds[i].pred) + {(seeds[i].subject, seeds[i].obj)}];
    }
    assert seeds[..|seeds|] == seeds;
  }

  /** Rules to a fixed point, for every program whose run ends: the loop stops
      after the first pass that adds nothing, and what it returns is then the least
      model of an admissible program. */
  method ExecuteRecursive(prog: Program, snap: Snapshot, draws: Draws)
      returns (derived: DerivedFacts, ghost passes: nat)
    requires RunOf(prog, snap, draws).Ends()
    ensures passes > 0 && derived == RunOf(prog, snap, draws).Run(passes) && RunOf(prog, snap, draws).Last(passes - 1)
    ensures Admissible(prog, snap) ==> IsLeastModel(prog, snap, derived)
  {
    derived, passes := Loop(prog, snap, draws, RunOf(prog, snap, draws));
    LastIsLeastModel(RunOf(prog, snap, draws), prog, snap, draws, passes);
  }

  method Loop(prog: Program, snap: Snapshot, draws: Draws, ghost p: Process)
      returns (derived: DerivedFacts, ghost passes: nat)
    requires Runs(p, prog, snap, draws) && p.Ends()
    ensures passes > 0 && derived == p.Run(passes) && p.Last(passes - 1)
  {
    ghost var last: nat :| p.Last(last);
    derived := Prime(prog.seeds);
    var added, n := true, 0;
    while added
      invariant derived == p.Run(n)
      invariant if added then p.Busy(n) else n > 0 && p.Last(n - 1)
      decreases last + 1 - n, added
    {
      if n > last { p.BusyBefore(n, last); }
      derived, added := Pass(prog, snap, draws, n, derived, p);
      n := n + 1;
    }
    passes := n;
  }

  // ── The least model ──────────────────────────────────────────────────────

  lemma {:induction false} SeedFactsAre(seeds: seq<Seed>, p: string)
    ensures p in SeedFacts(seeds) <==> exists i :: 0 <= i < |seeds| && seeds[i].pred == p
    ensures forall s: NodeId, o: NodeId ::
              (s, o) in Lookup(SeedFacts(seeds), p) <==> exists i :: 0 <= i < |seeds| && seeds[i] == Seed(p, s, o)
  {
    if seeds != [] {
      var before, last := seeds[..|seeds| - 1], seeds[|seeds| - 1];
      SeedFactsAre(before, p);
      assert forall i :: 0 <= i < |before| ==> before[i] == seeds[i];
      assert forall i :: 0 <= i < |seeds| ==> i < |before| || seeds[i] == last;
      assert seeds[|seeds| - 1] == last;
    }
  }

  /** Facts of the derived predicates that hold the seeds and lie in every model. */
  ghost predicate UnderModels(prog: Program, snap: Snapshot, d: DerivedFacts) {
    SeedPredicates(prog) <= d.Keys <= Derived(prog) && HoldsSeeds(prog, d) &&
    forall m :: IsModel(prog, snap, m) ==> Below(d, m)
  }

  lemma SeedsUnderModels(prog: Program, snap: Snapshot)
    ensures UnderModels(prog, snap, SeedFacts(prog.seeds))
  {
    var d := SeedFacts(prog.seeds);
    forall p ensures p in d <==> p in SeedPredicates(prog) { SeedFactsAre(prog.seeds, p); }
    forall i | 0 <= i < |prog.seeds|
      ensures (prog.seeds[i].subject, prog.seeds[i].obj) in Lookup(d, prog.seeds[i].pred)
    {
      SeedFactsAre(prog.seeds, prog.seeds[i].pred);
      assert prog.seeds[i] == Seed(prog.seeds[i].pred, prog.seeds[i].subject, prog.seeds[i].obj);
    }
    forall m, p | IsModel(prog, snap, m) && p in d ensures d[p] <= Lookup(m, p) {
      SeedFactsAre(prog.seeds, p);
      forall pair | pair in d[p] ensures pair in Lookup(m, p) {
        assert pair == (pair.0, pair.1);
        var i :| 0 <= i < |prog.seeds| && prog.seeds[i] == Seed(p, pair.0, pair.1);
        assert (prog.seeds[i].subject, prog.seeds[i].obj) in Lookup(m, prog.seeds[i].pred);
      }
    }
  }

  /** The heads of the rules before rule `i` have their entries. */
  predicate HoldsHeads(prog: Program, d: DerivedFacts, i: nat)
    requires i <= |prog.rules|
  {
    forall j :: 0 <= j < i ==> prog.rules[j].head in d
  }

  /** Once the heads before it are held, a sheltered rule reads on. */
  lemma HeldReadsOn(prog: Program, snap: Snapshot, i: nat, d: DerivedFacts, m: DerivedFacts)
    requires i < |prog.rules| && ShelteredRule(prog, snap, i) && HoldsHeads(prog, d, i)
    requires SeedPredicates(prog) <= d.Keys && m.Keys <= Derived(prog) && Below(d, m)
    ensures Grows(d, m, snap, prog.rules[i].body)
  {
    var body := prog.rules[i].body;
    forall k | 0 <= k < |body| && NamesOneOf(body[k], m.Keys - d.Keys) ensures !snap.Stored(body[k].pred.value) {
      assert NamesOneOf(body[k], Heads(prog));
    }
  }

  /** What a rule yields from facts inside a model is in that model. */
  lemma YieldsWithinModel(prog: Program, snap: Snapshot, i: nat, d: DerivedFacts, e: EdgeDraw, m: DerivedFacts,
      pair: NodePair)
    requires Readable(prog, snap) && i < |prog.rules| && UnderModels(prog, snap, d) && IsModel(prog, snap, m)
    requires HoldsHeads(prog, d, i) && pair in YieldSet(prog.rules[i], InView(snap, d, e))
    ensures pair in Lookup(m, prog.rules[i].head)
  {
    var rule := prog.rules[i];
    assert pair == (pair.0, pair.1);
    YieldSetMember(rule, InView(snap, d, e), pair.0, pair.1);
    YieldsFires(rule, Derived(prog), snap, d, e, pair.0, pair.1);
    assert ShelteredRule(prog, snap, i);
    HeldReadsOn(prog, snap, i, d, m);
    FiresGrows(rule, snap, d, e, m, ZeroEdges(), pair.0, pair.1);
    assert ClosedUnder(rule, snap, m, ZeroEdges());
  }

  lemma ApplyUnderModels(prog: Program, snap: Snapshot, i: nat, d: DerivedFacts, e: EdgeDraw)
    requires Readable(prog, snap) && i < |prog.rules| && UnderModels(prog, snap, d) && HoldsHeads(prog, d, i)
    ensures UnderModels(prog, snap, Apply(prog.rules[i], snap, d, e))
    ensures HoldsHeads(prog, Apply(prog.rules[i], snap, d, e), i + 1)
  {
    var d', head := Apply(prog.rules[i], snap, d, e), prog.rules[i].head;
    assert head in Heads(prog);
    forall m | IsModel(prog, snap, m) ensures Below(d', m) {
      assert Below(d, m);
      forall pair | pair in d'[head] ensures pair in Lookup(m, head) {
        if pair !in Lookup(d, head) { YieldsWithinModel(prog, snap, i, d, e, m, pair); }
      }
    }
    forall j | 0 <= j < |prog.seeds|
      ensures (prog.seeds[j].subject, prog.seeds[j].obj) in Lookup(d', prog.seeds[j].pred)
    {}
  }

  lemma {:induction false} ThroughUnderModels(p: Process, prog: Program, snap: Snapshot, draws: Draws, n: nat,
      d: DerivedFacts, i: nat)
    requires Readable(prog, snap) && Runs(p, prog, snap, draws) && i <= |prog.rules| && UnderModels(prog, snap, d)
    ensures UnderModels(prog, snap, p.Through(n, d, i)) && HoldsHeads(prog, p.Through(n, d, i), i)
  {
    hide UnderModels, Readable, Runs;
    if i > 0 {
      ThroughUnderModels(p, prog, snap, draws, n, d, i - 1);
      ApplyUnderModels(prog, snap, i - 1, p.Through(n, d, i - 1), draws(n, i - 1));
      StepIs(p, prog, snap, draws, n, i - 1, p.Through(n, d, i - 1));
    }
  }

  lemma {:induction false} RunUnderModels(p: Process, prog: Program, snap: Snapshot, draws: Draws, n: nat)
    requires Readable(prog, snap) && Runs(p, prog, snap, draws)
    ensures UnderModels(prog, snap, p.Run(n))
  {
    hide UnderModels, Readable, Runs;
    StartIs(p, prog, snap, draws);
    if n == 0 {
      SeedsUnderModels(prog, snap);
    } else {
      RunUnderModels(p, prog, snap, draws, n - 1);
      ThroughUnderModels(p, prog, snap, draws, n - 1, p.Run(n - 1), |prog.rules|);
    }
  }

  // ── Names ────────────────────────────────────────────────────────────────

  lemma {:induction false} NamesAreDerived(p: Process, prog: Program, snap: Snapshot, draws: Draws, n: nat, i: nat)
    requires Runs(p, prog, snap, draws) && i <= |prog.rules| && p.Run(n).Keys <= Derived(prog)
    ensures p.State(n, i).Keys <= Derived(prog)
    decreases i
  {
    if i == 0 {
      p.StateEnds(n);
    } else {
      NamesAreDerived(p, prog, snap, draws, n, i - 1);
      RunValid(p, prog, snap, draws);
      p.StepKeeps(n, i - 1, p.heads[i - 1]);
      assert p.heads[i - 1] == prog.rules[i - 1].head && prog.rules[i - 1].head in Heads(prog);
    }
  }

  /** Only derived predicates get an entry. */
  lemma {:induction false} RunNamesDerived(p: Process, prog: Program, snap: Snapshot, draws: Draws, n: nat)
    requires Runs(p, prog, snap, draws)
    ensures p.Run(n).Keys <= Derived(prog)
  {
    if n == 0 {
      forall q | q in SeedFacts(prog.seeds) ensures q in Derived(prog) { SeedFactsAre(prog.seeds, q); }
    } else {
      RunNamesDerived(p, prog, snap, draws, n - 1);
      NamesAreDerived(p, prog, snap, draws, n - 1, |prog.rules|);
      p.StateEnds(n - 1);
    }
  }

  // ── Quiet passes ─────────────────────────────────────────────────────────

  /** A rule that adds nothing to `d` is satisfied by any facts that hold the same. */
  lemma AddsNothingCloses(rule: Rule, derived: set<string>, snap: Snapshot, d: DerivedFacts, e: EdgeDraw,
      end: DerivedFacts)
    requires snap.Valid() && GoodRule(rule, derived, snap) && d.Keys <= derived
    requires d.Keys <= end.Keys && forall p :: Lookup(end, p) == Lookup(d, p)
    requires Lookup(Apply(rule, snap, d, e), rule.head) == Lookup(d, rule.head)
    ensures ClosedUnder(rule, snap, end, ZeroEdges())
  {
    assert Grows(end, d, snap, rule.body);
    forall s: NodeId, o: NodeId | Fires(rule, InView(snap, end, ZeroEdges()), s, o)
      ensures (s, o) in Lookup(end, rule.head)
    {
      FiresGrows(rule, snap, end, ZeroEdges(), d, e, s, o);
      YieldsWhatFires(rule, derived, snap, d, e, s, o);
      YieldSetMember(rule, InView(snap, d, e), s, o);
      assert (s, o) in Lookup(Apply(rule, snap, d, e), rule.head);
    }
  }

  lemma QuietIsClosed(p: Process, prog: Program, snap: Snapshot, draws: Draws, n: nat, i: nat)
    requires snap.Valid() && Runs(p, prog, snap, draws) && p.Quiet(n)
    requires i < |prog.rules| && GoodRule(prog.rules[i], Derived(prog), snap)
    ensures ClosedUnder(prog.rules[i], snap, p.Run(n + 1), ZeroEdges())
  {
    var d := p.State(n, i);
    RunValid(p, prog, snap, draws);
    RunNamesDerived(p, prog, snap, draws, n);
    NamesAreDerived(p, prog, snap, draws, n, i);
    p.HeadPresent(n, i);
    p.QuietAt(n, |prog.rules|, i);
    forall q ensures Lookup(p.Run(n + 1), q) == Lookup(d, q) { SameInQuietPass(p, n, i, q); }
    StepIs(p, prog, snap, draws, n, i, d);
    p.StateStep(n, i);
    AddsNothingCloses(prog.rules[i], Derived(prog), snap, d, draws(n, i), p.Run(n + 1));
  }

  lemma SameInQuietPass(p: Process, n: nat, i: nat, q: string)
    requires p.Valid() && p.Quiet(n) && i <= |p.heads|
    ensures Lookup(p.Run(n + 1), q) == Lookup(p.State(n, i), q)
  {
    p.Keeps(n, 0, i, q);
    p.Keeps(n, i, |p.heads|, q);
    p.QuietKeeps(n, |p.heads|, q);
    p.StateEnds(n);
  }

  /** After a pass every head has an entry. */
  lemma HeadsHeld(p: Process, prog: Program, snap: Snapshot, draws: Draws, n: nat)
    requires Runs(p, prog, snap, draws)
    ensures Heads(prog) <= p.Run(n + 1).Keys
  {
    RunValid(p, prog, snap, draws);
    forall h | h in Heads(prog) ensures h in p.Run(n + 1) {
      var i :| 0 <= i < |prog.rules| && prog.rules[i].head == h;
      p.HeadPresent(n, i);
    }
  }

  /** The facts after a pass that adds nothing are the least model. */
  lemma QuietIsLeastModel(p: Process, prog: Program, snap: Snapshot, draws: Draws, n: nat)
    requires Admissible(prog, snap) && Runs(p, prog, snap, draws) && p.Quiet(n)
    ensures IsLeastModel(prog, snap, p.Run(n + 1))
  {
    AdmissibleIsReadable(prog, snap);
    RunUnderModels(p, prog, snap, draws, n + 1);
    HeadsHeld(p, prog, snap, draws, n);
    forall i | 0 <= i < |prog.rules| ensures ClosedUnder(prog.rules[i], snap, p.Run(n + 1), ZeroEdges()) {
      QuietIsClosed(p, prog, snap, draws, n, i);
    }
  }

  lemma LastIsLeastModel(p: Process, prog: Program, snap: Snapshot, draws: Draws, passes: nat)
    requires Runs(p, prog, snap, draws) && passes > 0 && p.Last(passes - 1)
    ensures Admissible(prog, snap) ==> IsLeastModel(prog, snap, p.Run(passes))
  {
    if Admissible(prog, snap) { QuietIsLeastModel(p, prog, snap, draws, passes - 1); }
  }
}
