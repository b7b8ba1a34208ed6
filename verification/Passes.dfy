/** Passes over a list of rules that add facts under their heads, repeated until
    one adds nothing: what such a loop leaves, whatever the rules do. */
module Passes {
  import opened Store
  import opened Datalog
  import opened Reachability
  import opened Rules

  /** Adding to `d` under `head` only. */
  predicate AddsUnder(d: DerivedFacts, head: string, d': DerivedFacts) {
    d'.Keys == d.Keys + {head} && (forall p :: p in d && p != head ==> d'[p] == d[p]) && Lookup(d, head) <= d'[head]
  }

  /** `step(n, i, d)` is what rule `i` makes of `d` in pass `n`. */
  datatype Process = Process(step: (nat, nat, DerivedFacts) -> DerivedFacts, heads: seq<string>, start: DerivedFacts) {

    ghost predicate Valid() { forall n: nat, i: nat, d :: StepAdds(n, i, d) }

    /** Rule `i` adds under its own head only. */
    predicate StepAdds(n: nat, i: nat, d: DerivedFacts) { i < |heads| ==> AddsUnder(d, heads[i], step(n, i, d)) }

    /** `d` after the first `i` rules of pass `n`. */
    function Through(n: nat, d: DerivedFacts, i: nat): DerivedFacts {
      if i == 0 then d else step(n, i - 1, Through(n, d, i - 1))
    }

    /** The facts after `n` passes, had the loop not stopped before. */
    function Run(n: nat): DerivedFacts {
      if n == 0 then start else Through(n - 1, Run(n - 1), |heads|)
    }

    /** The facts after `n` passes and the first `i` rules of the next. */
    function State(n: nat, i: nat): DerivedFacts { Through(n, Run(n), i) }

    lemma StateStep(n: nat, i: nat)
      ensures State(n, i + 1) == step(n, i, State(n, i))
    {}

    /** One rule keeps every fact and adds its head to the names. */
    lemma StepKeeps(n: nat, i: nat, p: string)
      requires Valid() && i < |heads|
      ensures Lookup(State(n, i), p) <= Lookup(State(n, i + 1), p) &&
              State(n, i + 1).Keys == State(n, i).Keys + {heads[i]}
      ensures p != heads[i] ==> Lookup(State(n, i), p) == Lookup(State(n, i + 1), p)
    {
      StateStep(n, i);
      assert StepAdds(n, i, State(n, i));
    }

    lemma StateEnds(n: nat)
      ensures State(n, 0) == Run(n) && State(n, |heads|) == Run(n + 1)
    {}

    predicate AddsNothing(n: nat, i: nat)
      requires i < |heads|
    {
      Lookup(State(n, i + 1), heads[i]) == Lookup(State(n, i), heads[i])
    }

    predicate QuietUpTo(n: nat, i: nat)
      requires i <= |heads|
    {
      i == 0 || (QuietUpTo(n, i - 1) && AddsNothing(n, i - 1))
    }

    /** No rule adds a fact in pass `n`. */
    predicate Quiet(n: nat) { QuietUpTo(n, |heads|) }

    /** None of the first `n` passes was quiet. */
    predicate Busy(n: nat) { n == 0 || (Busy(n - 1) && !Quiet(n - 1)) }

    /** Pass `n` is the first quiet one: the loop stops after it. */
    predicate Last(n: nat) { Quiet(n) && Busy(n) }

    ghost predicate Ends() { exists n: nat :: Last(n) }

    lemma {:induction false} QuietAt(n: nat, i: nat, j: nat)
      requires j < i <= |heads| && QuietUpTo(n, i)
      ensures AddsNothing(n, j)
    {
      if j < i - 1 { QuietAt(n, i - 1, j); }
    }

    lemma {:induction false} LoudAt(n: nat, i: nat) returns (j: nat)
      requires i <= |heads| && !QuietUpTo(n, i)
      ensures j < i && !AddsNothing(n, j)
    {
      j := i - 1;
      if !QuietUpTo(n, i - 1) { j := LoudAt(n, i - 1); }
    }

    lemma {:induction false} BusyBefore(n: nat, m: nat)
      requires Busy(n) && m < n
      ensures !Quiet(m)
    {
      if m < n - 1 { BusyBefore(n - 1, m); }
    }

    /** Some pass is the last, or none of the first `n` is quiet. */
    lemma {:induction false} BusyOrLast(n: nat)
      ensures Busy(n) || exists m: nat :: m < n && Last(m)
    {
      if n > 0 {
        BusyOrLast(n - 1);
        if Busy(n - 1) && !Busy(n) { assert Last(n - 1); }
      }
    }

    /** The loop goes on for ever exactly when every pass is busy. */
    lemma EndsOrBusy(n: nat)
      ensures !Ends() ==> Busy(n)
    {
      BusyOrLast(n);
    }

    // ── Facts only grow ────────────────────────────────────────────────────

    lemma {:induction false} Keeps(n: nat, j: nat, i: nat, p: string)
      requires Valid() && j <= i <= |heads|
      ensures Lookup(State(n, j), p) <= Lookup(State(n, i), p) && State(n, j).Keys <= State(n, i).Keys
      decreases i
    {
      if j < i {
        Keeps(n, j, i - 1, p);
        StepKeeps(n, i - 1, p);
      }
    }

    lemma PassKeeps(n: nat, p: string)
      requires Valid()
      ensures Lookup(Run(n), p) <= Lookup(Run(n + 1), p) && Run(n).Keys <= Run(n + 1).Keys
    {
      Keeps(n, 0, |heads|, p);
      StateEnds(n);
    }

    lemma {:induction false} RunKeeps(m: nat, n: nat, p: string)
      requires Valid() && m <= n
      ensures Lookup(Run(m), p) <= Lookup(Run(n), p) && Run(m).Keys <= Run(n).Keys
      decreases n
    {
      if m < n {
        RunKeeps(m, n - 1, p);
        PassKeeps(n - 1, p);
      }
    }

    /** A head has an entry once its rule has been applied. */
    lemma HeadPresent(n: nat, j: nat)
      requires Valid() && j < |heads|
      ensures heads[j] in Run(n + 1) && State(n, j).Keys <= Run(n + 1).Keys
    {
      StepKeeps(n, j, heads[j]);
      Keeps(n, j + 1, |heads|, heads[j]);
      Keeps(n, j, |heads|, heads[j]);
      StateEnds(n);
    }

    /** In a quiet pass every intermediate state holds the same facts. */
    lemma {:induction false} QuietKeeps(n: nat, i: nat, p: string)
      requires Valid() && i <= |heads| && QuietUpTo(n, i)
      ensures Lookup(State(n, i), p) == Lookup(Run(n), p)
      decreases i
    {
      if i > 0 {
        QuietKeeps(n, i - 1, p);
        StepKeeps(n, i - 1, p);
      }
    }

    lemma {:induction false} NamesWithin(n: nat, i: nat, names: set<string>)
      requires Valid() && i <= |heads| && Run(n).Keys == names && forall j :: 0 <= j < |heads| ==> heads[j] in names
      ensures State(n, i).Keys == names
      decreases i
    {
      if i == 0 {
        StateEnds(n);
      } else {
        NamesWithin(n, i - 1, names);
        StepKeeps(n, i - 1, heads[i - 1]);
      }
    }

    lemma {:induction false} RunNamesSettle(n: nat)
      requires Valid() && n >= 1
      ensures Run(n).Keys == Run(1).Keys
    {
      if n > 1 {
        forall j | 0 <= j < |heads| ensures heads[j] in Run(1).Keys { HeadPresent(0, j); }
        RunNamesSettle(n - 1);
        NamesWithin(n - 1, |heads|, Run(1).Keys);
        StateEnds(n - 1);
      }
    }

    /** From the second pass on the facts go by a fixed set of names. */
    lemma NamesSettle(n: nat, i: nat)
      requires Valid() && n >= 1 && i <= |heads|
      ensures State(n, i).Keys == Run(1).Keys
    {
      forall j | 0 <= j < |heads| ensures heads[j] in Run(1).Keys { HeadPresent(0, j); }
      RunNamesSettle(n);
      NamesWithin(n, i, Run(1).Keys);
    }

    /** Each rule finds in the next pass what it found in this one, or more. */
    lemma NextPassHolds(n: nat, i: nat, q: string)
      requires Valid() && i <= |heads|
      ensures Lookup(State(n, i), q) <= Lookup(State(n + 1, i), q)
    {
      Keeps(n, i, |heads|, q);
      StateEnds(n);
      StateEnds(n + 1);
      Keeps(n + 1, 0, i, q);
    }

    lemma NextPassGrows(n: nat, i: nat)
      requires Valid() && n >= 1 && i <= |heads|
      ensures State(n, i).Keys == State(n + 1, i).Keys &&
              forall q :: q in State(n, i) ==> State(n, i)[q] <= State(n + 1, i)[q]
    {
      NamesSettle(n, i);
      NamesSettle(n + 1, i);
      forall q | q in State(n, i) ensures State(n, i)[q] <= State(n + 1, i)[q] { NextPassHolds(n, i, q); }
    }

    /** The process does what `q` does wherever `q` comes. */
    ghost predicate Follows(q: Process) {
      start == q.start && heads == q.heads &&
      forall n: nat, i: nat :: i < |heads| ==> step(n, i, q.State(n, i)) == q.State(n, i + 1)
    }

    lemma {:induction false} FollowsThrough(q: Process, n: nat, i: nat)
      requires Follows(q) && i <= |heads| && Run(n) == q.Run(n)
      ensures State(n, i) == q.State(n, i)
      decreases i
    {
      if i == 0 {
        StateEnds(n);
        q.StateEnds(n);
      } else {
        FollowsThrough(q, n, i - 1);
        StateStep(n, i - 1);
      }
    }

    lemma {:induction false} FollowsRun(q: Process, n: nat)
      requires Follows(q)
      ensures Run(n) == q.Run(n)
    {
      if n > 0 {
        FollowsRun(q, n - 1);
        FollowsThrough(q, n - 1, |heads|);
        StateEnds(n - 1);
        q.StateEnds(n - 1);
      }
    }

    // ── Rules that can never stop ──────────────────────────────────────────

    /** From the second pass on, a restless rule adds something and stays restless. */
    ghost predicate Restless(restless: (nat, nat) -> bool) {
      forall n: nat, i: nat :: n >= 1 && i < |heads| && restless(n, i) ==> !AddsNothing(n, i) && restless(n + 1, i)
    }

    lemma {:induction false} RestlessLasts(restless: (nat, nat) -> bool, n: nat, i: nat, m: nat)
      requires Restless(restless) && 1 <= n <= m && i < |heads| && restless(n, i)
      ensures restless(m, i) && !AddsNothing(m, i) && !Quiet(m)
      decreases m
    {
      if n < m { RestlessLasts(restless, n, i, m - 1); }
      if Quiet(m) { QuietAt(m, |heads|, i); }
    }

    /** Over finitely many nodes in all passes where nothing is restless, the loop
        ends exactly when it comes to no restless rule after the first pass. */
    lemma EndsUnlessRestless(restless: (nat, nat) -> bool, nodes: set<NodeId>)
      requires Valid() && Restless(restless) && Within(Run(1), nodes)
      requires forall n: nat :: n >= 1 && Calm(restless, n) && Within(Run(n), nodes) ==> Within(Run(n + 1), nodes)
      ensures Ends() <==> forall n: nat :: n >= 1 && Busy(n) ==> Calm(restless, n)
    {
      if forall n: nat :: n >= 1 && Busy(n) ==> Calm(restless, n) {
        if !Ends() {
          var n := |HeadSet()| * (|nodes| * |nodes|) + 2;
          forall m: nat ensures Busy(m) { EndsOrBusy(m); }
          CalmWithin(restless, nodes, n);
          RunGrows(1, n);
          FactsFit(nodes, Run(n));
        }
      } else {
        var n: nat :| n >= 1 && Busy(n) && !Calm(restless, n);
        var i :| 0 <= i < |heads| && restless(n, i);
        forall m: nat ensures !Quiet(m) {
          if m < n { BusyBefore(n, m); } else { RestlessLasts(restless, n, i, m); }
        }
      }
    }

    /** Nothing is restless in pass `n`. */
    ghost predicate Calm(restless: (nat, nat) -> bool, n: nat) { forall i: nat :: i < |heads| ==> !restless(n, i) }

    lemma {:induction false} CalmWithin(restless: (nat, nat) -> bool, nodes: set<NodeId>, n: nat)
      requires Within(Run(1), nodes) && n >= 1 && forall m: nat :: m >= 1 ==> Calm(restless, m)
      requires forall m: nat :: m >= 1 && Calm(restless, m) && Within(Run(m), nodes) ==> Within(Run(m + 1), nodes)
      ensures Within(Run(n), nodes)
    {
      if n > 1 { CalmWithin(restless, nodes, n - 1); }
    }

    // ── Counting facts ─────────────────────────────────────────────────────

    /** The facts held under the heads. */
    function HeadFacts(d: DerivedFacts): set<(string, NodePair)> {
      set p, pair | p in heads && pair in Lookup(d, p) :: (p, pair)
    }

    lemma StepGrows(n: nat, i: nat)
      requires Valid() && i < |heads|
      ensures HeadFacts(State(n, i)) <= HeadFacts(State(n, i + 1))
      ensures !AddsNothing(n, i) ==> HeadFacts(State(n, i)) < HeadFacts(State(n, i + 1))
    {
      forall p ensures Lookup(State(n, i), p) <= Lookup(State(n, i + 1), p) { Keeps(n, i, i + 1, p); }
      if !AddsNothing(n, i) {
        var pair :| pair in Lookup(State(n, i + 1), heads[i]) && pair !in Lookup(State(n, i), heads[i]);
        assert (heads[i], pair) in HeadFacts(State(n, i + 1)) && (heads[i], pair) !in HeadFacts(State(n, i));
      }
    }

    lemma {:induction false} PassGrows(n: nat, i: nat)
      requires Valid() && i <= |heads|
      ensures HeadFacts(Run(n)) <= HeadFacts(State(n, i))
      ensures !QuietUpTo(n, i) ==> HeadFacts(Run(n)) < HeadFacts(State(n, i))
      decreases i
    {
      if i == 0 {
        StateEnds(n);
      } else {
        PassGrows(n, i - 1);
        StepGrows(n, i - 1);
      }
    }

    lemma PassCounts(n: nat)
      requires Valid()
      ensures if Quiet(n) then |HeadFacts(Run(n))| <= |HeadFacts(Run(n + 1))|
              else |HeadFacts(Run(n))| < |HeadFacts(Run(n + 1))|
    {
      PassGrows(n, |heads|);
      StateEnds(n);
      Cardinality(HeadFacts(Run(n)), HeadFacts(Run(n + 1)));
    }

    /** Every busy pass adds at least one fact. */
    lemma {:induction false} RunGrows(m: nat, n: nat)
      requires Valid() && m <= n && Busy(n)
      ensures |HeadFacts(Run(n))| >= n - m
      decreases n
    {
      if m < n {
        RunGrows(m, n - 1);
        PassCounts(n - 1);
      }
    }

    // ── A bound ────────────────────────────────────────────────────────────

    /** Every fact a head could hold over `nodes`. */
    function Space(nodes: set<NodeId>): set<(string, NodePair)> {
      Product(HeadSet(), Product(nodes, nodes))
    }

    function HeadSet(): set<string> { set p | p in heads }

    lemma SpaceSize(nodes: set<NodeId>)
      ensures |Space(nodes)| == |HeadSet()| * (|nodes| * |nodes|)
    {
      ProductSize(nodes, nodes);
      ProductSize(HeadSet(), Product(nodes, nodes));
    }

    lemma FactsFit(nodes: set<NodeId>, d: DerivedFacts)
      requires Within(d, nodes)
      ensures |HeadFacts(d)| <= |HeadSet()| * (|nodes| * |nodes|)
    {
      forall f | f in HeadFacts(d) ensures f in Space(nodes) {
        assert f.1 == (f.1.0, f.1.1);
      }
      Cardinality(HeadFacts(d), Space(nodes));
      SpaceSize(nodes);
    }

    /** Facts that stay over finitely many nodes end the loop, within the number of
        facts there are. */
    lemma BoundedEnds(nodes: set<NodeId>)
      requires Valid() && forall n: nat :: Within(Run(n), nodes)
      ensures Ends() && forall n: nat :: Last(n) ==> n <= |HeadSet()| * (|nodes| * |nodes|)
    {
      var bound := |HeadSet()| * (|nodes| * |nodes|);
      forall n: nat | Busy(n) ensures n <= bound {
        RunGrows(0, n);
        FactsFit(nodes, Run(n));
      }
      BusyOrLast(bound + 1);
    }
  }

  // ── Sizes ────────────────────────────────────────────────────────────────

  function Product<A, B>(a: set<A>, b: set<B>): set<(A, B)> {
    set x, y | x in a && y in b :: (x, y)
  }

  lemma ProductPeels<A, B>(a: set<A>, b: set<B>, x: A)
    requires x in a
    ensures Product(a, b) == Product(a - {x}, b) + Product({x}, b) && Product(a - {x}, b) !! Product({x}, b)
  {}

  lemma OneMoreRow(n: nat, m: nat)
    requires n > 0
    ensures n * m == (n - 1) * m + m
  {}

  lemma {:induction false} ProductSize<A, B>(a: set<A>, b: set<B>)
    ensures |Product(a, b)| == |a| * |b|
  {
    if a != {} {
      var x :| x in a;
      ProductSize(a - {x}, b);
      RowSize(x, b);
      ProductPeels(a, b, x);
      OneMoreRow(|a|, |b|);
    }
  }

  lemma {:induction false} RowSize<A, B>(x: A, b: set<B>)
    ensures |Product({x}, b)| == |b|
  {
    if b != {} {
      var y :| y in b;
      RowSize(x, b - {y});
      assert Product({x}, b) == Product({x}, b - {y}) + {(x, y)};
    } else {
      assert Product({x}, b) == {};
    }
  }
}
