/** Rules with the edge of a derived fact in their head: whether the fixed-point
    loop of crates/polargraph-query/src/datalog.rs ends, told from the program and
    the store alone. */
module EdgeHeads {
  import opened Sequences
  import opened Store
  import opened Datalog
  import opened Semantics
  import opened Joins
  import opened Rules
  import opened Passes
  import opened Yielding
  import opened FixedPoint
  import opened Termination
  import opened Leaks

  // ── The program without its edge heads ───────────────────────────────────

  /** An edge-headed rule with its body taken away, so that it derives nothing. */
  function Still(rule: Rule, derived: set<string>): Rule {
    if EdgeHead(rule, derived) then rule.(body := []) else rule
  }

  function Stilled(prog: Program): Program {
    prog.(rules := seq(|prog.rules|, i requires 0 <= i < |prog.rules| => Still(prog.rules[i], Derived(prog))))
  }

  lemma StilledNames(prog: Program)
    ensures Heads(Stilled(prog)) == Heads(prog) && Derived(Stilled(prog)) == Derived(prog)
  {
    assert forall i :: 0 <= i < |prog.rules| ==> Stilled(prog).rules[i].head == prog.rules[i].head;
  }

  lemma NoBodyNoFact(rule: Rule, ctx: Context, s: NodeId, o: NodeId)
    requires rule.body == []
    ensures !Fires(rule, ctx, s, o)
  {
    if Fires(rule, ctx, s, o) {
      var r :| IsAnswer(rule.body, EMPTY, r, ctx) && HeadIs(rule, r, s, o);
      EmptyQueryAnswers(EMPTY, r, ctx);
      assert false;
    }
  }

  lemma StilledSheltered(prog: Program, snap: Snapshot, i: nat)
    requires i < |prog.rules| && ShelteredRule(prog, snap, i)
    ensures ShelteredRule(Stilled(prog), snap, i)
  {
    StilledNames(prog);
    var prog', body := Stilled(prog), Stilled(prog).rules[i].body;
    forall k | 0 <= k < |body| && NamesOneOf(body[k], Heads(prog'))
      ensures var p := body[k].pred.value;
              p in SeedPredicates(prog') || HeadedBefore(prog', p, i) || !snap.Stored(p)
    {
      var p := body[k].pred.value;
      assert body == prog.rules[i].body;
      if HeadedBefore(prog, p, i) {
        var j :| 0 <= j < i && prog.rules[j].head == p;
        assert prog'.rules[j].head == p;
      }
    }
  }

  /** Without edge heads a readable program is one the least-model reading covers. */
  lemma StilledAdmissible(prog: Program, snap: Snapshot)
    requires Readable(prog, snap)
    ensures Admissible(Stilled(prog), snap)
  {
    StilledNames(prog);
    forall i | 0 <= i < |prog.rules| ensures ShelteredRule(Stilled(prog), snap, i) { StilledSheltered(prog, snap, i); }
    forall i | 0 <= i < |prog.rules| ensures GoodRule(Stilled(prog).rules[i], Derived(prog), snap) {
      StillIsGood(prog.rules[i], Derived(prog), snap);
    }
  }

  lemma StillIsGood(rule: Rule, derived: set<string>, snap: Snapshot)
    requires GoodBody(rule.body, derived, snap)
    ensures GoodRule(Still(rule, derived), derived, snap)
  {
    if !EdgeHead(rule, derived) { NoEdgeHeadIsGood(rule, derived, snap); }
  }

  lemma NoEdgeHeadIsGood(rule: Rule, derived: set<string>, snap: Snapshot)
    requires GoodBody(rule.body, derived, snap) && !EdgeHead(rule, derived)
    ensures GoodRule(rule, derived, snap)
  {
    forall i | 0 <= i < |rule.body| && NamesOneOf(rule.body[i], derived)
      ensures OptVars(rule.body[i].edgeVar) !! {rule.headSubject, rule.headObject}
    {
      assert rule.body[i].edgeVar !in {Some(rule.headSubject), Some(rule.headObject)};
    }
  }

  /** An admissible program has a least model: what its loop returns. */
  lemma LeastModelExists(prog: Program, snap: Snapshot, draws: Draws) returns (m: DerivedFacts)
    requires Admissible(prog, snap)
    ensures IsLeastModel(prog, snap, m) && RunOf(prog, snap, draws).Ends()
  {
    AdmissibleIsContained(prog, snap);
    ContainedEnds(prog, snap, draws);
    var p := RunOf(prog, snap, draws);
    var n: nat :| p.Last(n);
    QuietIsLeastModel(p, prog, snap, draws, n);
    m := p.Run(n + 1);
  }

  lemma StilledHasModel(prog: Program, snap: Snapshot, draws: Draws) returns (m: DerivedFacts)
    requires Readable(prog, snap)
    ensures IsLeastModel(Stilled(prog), snap, m) && RunOf(Stilled(prog), snap, draws).Ends()
  {
    StilledAdmissible(prog, snap);
    m := LeastModelExists(Stilled(prog), snap, draws);
  }

  // ── Idle edge heads do no harm ───────────────────────────────────────────

  ghost predicate Idle(rule: Rule, snap: Snapshot, d: DerivedFacts) {
    forall s: NodeId, o: NodeId :: !Fires(rule, InView(snap, d, ZeroEdges()), s, o)
  }

  /** No rule with the edge of a derived fact in its head derives anything from `d`. */
  ghost predicate EdgeHeadsIdleIn(prog: Program, snap: Snapshot, d: DerivedFacts) {
    forall i :: 0 <= i < |prog.rules| && EdgeHead(prog.rules[i], Derived(prog)) ==> Idle(prog.rules[i], snap, d)
  }

  lemma IdleModel(prog: Program, snap: Snapshot, m: DerivedFacts)
    requires IsModel(Stilled(prog), snap, m) && EdgeHeadsIdleIn(prog, snap, m)
    ensures IsModel(prog, snap, m)
  {
    StilledNames(prog);
    forall i | 0 <= i < |prog.rules| ensures ClosedUnder(prog.rules[i], snap, m, ZeroEdges()) {
      assert ClosedUnder(Stilled(prog).rules[i], snap, m, ZeroEdges());
      if EdgeHead(prog.rules[i], Derived(prog)) { assert Idle(prog.rules[i], snap, m); }
    }
  }

  lemma BelowIsWithin(d: DerivedFacts, m: DerivedFacts)
    requires Below(d, m)
    ensures Within(d, FactNodes(m))
  {
    forall p: string, pair: NodePair | p in d && pair in d[p]
      ensures pair.0 in FactNodes(m) && pair.1 in FactNodes(m)
    {
      assert p in m && pair in m[p];
    }
  }

  /** A run that stays inside a model ends. */
  lemma ModelBounds(prog: Program, snap: Snapshot, draws: Draws, m: DerivedFacts)
    requires Readable(prog, snap) && IsModel(prog, snap, m)
    ensures RunOf(prog, snap, draws).Ends()
  {
    var p := RunOf(prog, snap, draws);
    RunValid(p, prog, snap, draws);
    forall n: nat ensures Within(p.Run(n), FactNodes(m)) {
      RunUnderModels(p, prog, snap, draws, n);
      BelowIsWithin(p.Run(n), m);
    }
    p.BoundedEnds(FactNodes(m));
  }

  // ── A run that ends leaves them idle ─────────────────────────────────────

  /** After a pass all derived predicates have entries, and the seeds are held. */
  lemma PassHolds(p: Process, prog: Program, snap: Snapshot, draws: Draws, n: nat)
    requires Readable(prog, snap) && Runs(p, prog, snap, draws)
    ensures p.Run(n + 1).Keys == Derived(prog) && HoldsSeeds(prog, p.Run(n + 1))
  {
    hide Readable, IsModel;
    RunUnderModels(p, prog, snap, draws, n + 1);
    HeadsHeld(p, prog, snap, draws, n);
  }

  /** The facts after a quiet pass satisfy every rule without an edge head. */
  lemma QuietIsStilledModel(p: Process, prog: Program, snap: Snapshot, draws: Draws, n: nat)
    requires Readable(prog, snap) && Runs(p, prog, snap, draws) && p.Quiet(n)
    ensures IsModel(Stilled(prog), snap, p.Run(n + 1))
  {
    var d, prog' := p.Run(n + 1), Stilled(prog);
    hide ClosedUnder, GoodBody, Sheltered;
    StilledNames(prog);
    PassHolds(p, prog, snap, draws, n);
    forall i | 0 <= i < |prog.rules| ensures ClosedUnder(prog'.rules[i], snap, d, ZeroEdges()) {
      StillIsClosed(p, prog, snap, draws, n, i);
    }
  }

  lemma StillIsClosed(p: Process, prog: Program, snap: Snapshot, draws: Draws, n: nat, i: nat)
    requires Readable(prog, snap) && Runs(p, prog, snap, draws) && p.Quiet(n) && i < |prog.rules|
    ensures ClosedUnder(Still(prog.rules[i], Derived(prog)), snap, p.Run(n + 1), ZeroEdges())
  {
    hide Fires, GoodRule, GoodBody, Sheltered;
    var rule, ctx := Still(prog.rules[i], Derived(prog)), InView(snap, p.Run(n + 1), ZeroEdges());
    if EdgeHead(prog.rules[i], Derived(prog)) {
      forall s: NodeId, o: NodeId ensures !Fires(rule, ctx, s, o) { NoBodyNoFact(rule, ctx, s, o); }
    } else {
      NoEdgeHeadIsGood(prog.rules[i], Derived(prog), snap);
      QuietIsClosed(p, prog, snap, draws, n, i);
    }
  }

  /** The same facts, whatever names have an entry. */
  ghost predicate HoldAlike(c: DerivedFacts, d: DerivedFacts) { forall p :: Lookup(c, p) == Lookup(d, p) }

  /** An edge head that fires over all the names yields a row with an id not in use,
      from any facts that hold the same. */
  lemma EdgeHeadYieldsUnknown(rule: Rule, derived: set<string>, snap: Snapshot, d: DerivedFacts, c: DerivedFacts,
      e: EdgeDraw, known: set<NodeId>) returns (s: NodeId, o: NodeId)
    requires snap.Valid() && GoodBody(rule.body, derived, snap) && EdgeHead(rule, derived)
    requires d.Keys == derived && c.Keys <= derived && HoldAlike(c, d)
    requires Fresh(e, known) && !Idle(rule, snap, d)
    ensures Yields(rule, InView(snap, c, e), s, o) && !(s in known && o in known)
  {
    hide GoodBody, IsAnswer, Fresh, Yields, HoldAlike;
    var ctx := InView(snap, d, ZeroEdges());
    var s0: NodeId, o0: NodeId :| Fires(rule, ctx, s0, o0);
    var r :| IsAnswer(rule.body, EMPTY, r, ctx) && HeadIs(rule, r, s0, o0);
    var j :| 0 <= j < |rule.body| && NamesOneOf(rule.body[j], derived) &&
             rule.body[j].edgeVar in {Some(rule.headSubject), Some(rule.headObject)};
    ReadIsHeld(rule.body, j, r, snap, d, c);
    HoldsSame(d, c, snap, rule.body);
    AnswersGrow(rule.body, r, snap, d, ZeroEdges(), c, e);
    s, o := AnswerRedrawn(rule, j, r, derived, snap, c, e, known);
  }

  lemma HoldsSame(d: DerivedFacts, c: DerivedFacts, snap: Snapshot, ps: seq<VarPattern>)
    requires c.Keys <= d.Keys && HoldAlike(c, d)
    ensures Grows(d, c, snap, ps)
  {}

  /** The row behind an answer has the ids this evaluation draws. */
  lemma AnswerRedrawn(rule: Rule, j: nat, r: Solution, derived: set<string>, snap: Snapshot, c: DerivedFacts,
      e: EdgeDraw, known: set<NodeId>) returns (s: NodeId, o: NodeId)
    requires snap.Valid() && GoodBody(rule.body, derived, snap) && c.Keys <= derived && Fresh(e, known)
    requires IsAnswer(rule.body, EMPTY, r, InView(snap, c, e)) && {rule.headSubject, rule.headObject} <= r.nodes.Keys
    requires j < |rule.body| && NamesDerived(rule.body[j], InView(snap, c, e))
    requires rule.body[j].edgeVar in {Some(rule.headSubject), Some(rule.headObject)}
    ensures Yields(rule, InView(snap, c, e), s, o) && !(s in known && o in known)
  {
    hide Solve, IsAnswer, Fresh;
    GoodIsFree(rule.body, derived, snap, c, e);
    var r' := SolveComplete(rule.body, EMPTY, r, InView(snap, c, e));
    DrawnIsUnknown(rule.body, j, r', snap, c, e, known);
    s, o := r'.nodes[rule.headSubject], r'.nodes[rule.headObject];
    assert HeadIs(rule, r', s, o);
  }

  /** An answer rests on a fact of each derived predicate it names, so facts that
      hold the same have the name. */
  lemma ReadIsHeld(body: seq<VarPattern>, j: nat, r: Solution, snap: Snapshot, d: DerivedFacts, c: DerivedFacts)
    requires j < |body| && NamesOneOf(body[j], d.Keys) && IsAnswer(body, EMPTY, r, InView(snap, d, ZeroEdges()))
    requires HoldAlike(c, d)
    ensures body[j].pred.value in c
  {
    var ms: seq<Match> :| AnswerBy(body, ms, EMPTY, r, InView(snap, d, ZeroEdges()));
    assert Visible(body[j], ms[j], InView(snap, d, ZeroEdges()));
    var t := ms[j].quad.triple;
    assert (t.subject, t.obj) in Lookup(d, body[j].pred.value);
    assert (t.subject, t.obj) in Lookup(c, body[j].pred.value);
  }

  /** After a quiet pass no edge head fires: what it drew would have been a new fact. */
  lemma QuietIsIdle(p: Process, prog: Program, snap: Snapshot, draws: Draws, n: nat, i: nat)
    requires Readable(prog, snap) && Runs(p, prog, snap, draws) && FreshDraws(p, prog, snap, draws) && p.Quiet(n)
    requires i < |prog.rules| && EdgeHead(prog.rules[i], Derived(prog)) && p.Run(n + 1).Keys == Derived(prog)
    ensures Idle(prog.rules[i], snap, p.Run(n + 1))
  {
    var rule, c, e := prog.rules[i], p.State(n, i), draws(n, i);
    if !Idle(rule, snap, p.Run(n + 1)) {
      RunValid(p, prog, snap, draws);
      RunNamesDerived(p, prog, snap, draws, n);
      NamesAreDerived(p, prog, snap, draws, n, i);
      forall q ensures Lookup(c, q) == Lookup(p.Run(n + 1), q) { SameInQuietPass(p, n, i, q); }
      var s, o := EdgeHeadYieldsUnknown(rule, Derived(prog), snap, p.Run(n + 1), c, e, Known(prog, snap, c));
      assert LeaksAt(p, prog, snap, draws, n, i);
      LeakAdds(p, prog, snap, draws, n, i);
    }
  }

  lemma IdleBelow(rule: Rule, snap: Snapshot, m: DerivedFacts, d: DerivedFacts)
    requires Idle(rule, snap, d) && Below(m, d) && m.Keys == d.Keys
    ensures Idle(rule, snap, m)
  {
    forall s: NodeId, o: NodeId ensures !Fires(rule, InView(snap, m, ZeroEdges()), s, o) {
      if Fires(rule, InView(snap, m, ZeroEdges()), s, o) {
        FiresGrows(rule, snap, m, ZeroEdges(), d, ZeroEdges(), s, o);
      }
    }
  }

  lemma EndMeansIdle(prog: Program, snap: Snapshot, draws: Draws, m: DerivedFacts, n: nat)
    requires Readable(prog, snap) && FreshDraws(RunOf(prog, snap, draws), prog, snap, draws)
    requires IsLeastModel(Stilled(prog), snap, m) && RunOf(prog, snap, draws).Quiet(n)
    ensures EdgeHeadsIdleIn(prog, snap, m) && Below(m, RunOf(prog, snap, draws).Run(n + 1))
  {
    var p := RunOf(prog, snap, draws);
    var d := p.Run(n + 1);
    StilledNames(prog);
    QuietIsStilledModel(p, prog, snap, draws, n);
    forall i | 0 <= i < |prog.rules| && EdgeHead(prog.rules[i], Derived(prog)) ensures Idle(prog.rules[i], snap, m) {
      QuietIsIdle(p, prog, snap, draws, n, i);
      IdleBelow(prog.rules[i], snap, m, d);
    }
  }

  // ── The theorem ──────────────────────────────────────────────────────────

  /** With fresh draws, the loop ends exactly when no rule with the edge of a derived
      fact in its head fires in the least model of the others. That model exists, and
      the loop comes to it for them alone (`StilledHasModel`); if the loop ends for
      the whole program it returns the same. */
  lemma EndsIffEdgeHeadsIdle(prog: Program, snap: Snapshot, draws: Draws, m: DerivedFacts)
    requires Readable(prog, snap) && FreshDraws(RunOf(prog, snap, draws), prog, snap, draws)
    requires IsLeastModel(Stilled(prog), snap, m)
    ensures RunOf(prog, snap, draws).Ends() <==> EdgeHeadsIdleIn(prog, snap, m)
    ensures forall n: nat :: RunOf(prog, snap, draws).Last(n) ==> RunOf(prog, snap, draws).Run(n + 1) == m
  {
    var p := RunOf(prog, snap, draws);
    if EdgeHeadsIdleIn(prog, snap, m) {
      IdleModel(prog, snap, m);
      ModelBounds(prog, snap, draws, m);
    }
    forall n: nat | p.Last(n) ensures EdgeHeadsIdleIn(prog, snap, m) && p.Run(n + 1) == m {
      EndMeansIdle(prog, snap, draws, m, n);
      IdleModel(prog, snap, m);
      EndIsModel(prog, snap, draws, m, n);
    }
  }

  lemma EndIsModel(prog: Program, snap: Snapshot, draws: Draws, m: DerivedFacts, n: nat)
    requires Readable(prog, snap) && IsModel(prog, snap, m)
    requires Below(m, RunOf(prog, snap, draws).Run(n + 1))
    ensures RunOf(prog, snap, draws).Run(n + 1) == m
  {
    var p := RunOf(prog, snap, draws);
    var d := p.Run(n + 1);
    hide IsModel;
    PassHolds(p, prog, snap, draws, n);
    BelowModel(p, prog, snap, draws, n + 1, m);
    BelowBothWays(d, m);
  }

  lemma BelowModel(p: Process, prog: Program, snap: Snapshot, draws: Draws, n: nat, m: DerivedFacts)
    requires Readable(prog, snap) && Runs(p, prog, snap, draws) && IsModel(prog, snap, m)
    ensures Below(p.Run(n), m) && m.Keys == Derived(prog)
  {
    hide Below;
    RunUnderModels(p, prog, snap, draws, n);
  }
}
