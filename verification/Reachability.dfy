/** Bounded breadth-first search: `reachable_from_hops`
    (crates/polargraph-query/src/datalog.rs). */
module Reachability {
  import opened Sequences
  import opened Store
  import opened Datalog

  ghost predicate HasEdge(snap: Snapshot, p: string, x: NodeId, y: NodeId) {
    exists t :: t in snap.UnionTriples() && t.Relation? && t.pred == p && t.subject == x && t.obj == y
  }

  /** A sequence of nodes, each joined to the next by a `p` edge. */
  ghost predicate Walk(snap: Snapshot, p: string, path: seq<NodeId>) {
    forall i :: 0 <= i < |path| - 1 ==> HasEdge(snap, p, path[i], path[i + 1])
  }

  /** A walk of `n` edges from `x` to `y`. */
  ghost predicate WalkOf(snap: Snapshot, p: string, path: seq<NodeId>, x: NodeId, y: NodeId, n: nat) {
    |path| == n + 1 && path[0] == x && path[n] == y && Walk(snap, p, path)
  }

  ghost predicate Connected(snap: Snapshot, p: string, x: NodeId, y: NodeId, n: nat) {
    exists path :: WalkOf(snap, p, path, x, y, n)
  }

  /** `y` ends some walk of at least one edge from `x`. */
  ghost predicate Reaches(snap: Snapshot, p: string, x: NodeId, y: NodeId) {
    exists n :: n >= 1 && Connected(snap, p, x, y, n)
  }

  // ── Walks, one edge at a time ────────────────────────────────────────────

  lemma {:induction false} NeighboursMember(ts: seq<Triple>, p: string, from: set<NodeId>, y: NodeId)
    ensures y in Neighbours(ts, p, from)
       <==> exists t :: t in ts && t.Relation? && t.pred == p && t.subject in from && t.obj == y
  {
    if ts != [] {
      NeighboursMember(ts[1..], p, from, y);
      assert forall t :: t in ts <==> t == ts[0] || t in ts[1..];
    }
  }

  lemma SuccessorsMember(snap: Snapshot, p: string, from: set<NodeId>, y: NodeId)
    ensures y in Successors(snap, p, from) <==> exists x :: x in from && HasEdge(snap, p, x, y)
  {
    NeighboursMember(snap.UnionTriples(), p, from, y);
  }

  lemma WalkLast(snap: Snapshot, p: string, x: NodeId, y: NodeId, n: nat)
    ensures Connected(snap, p, x, y, n + 1) <==> exists z :: Connected(snap, p, x, z, n) && HasEdge(snap, p, z, y)
  {
    if Connected(snap, p, x, y, n + 1) {
      var path :| WalkOf(snap, p, path, x, y, n + 1);
      assert WalkOf(snap, p, path[..n + 1], x, path[n], n);
      assert HasEdge(snap, p, path[n], path[n + 1]);
    }
    if z :| Connected(snap, p, x, z, n) && HasEdge(snap, p, z, y) {
      var path :| WalkOf(snap, p, path, x, z, n);
      assert WalkOf(snap, p, path + [y], x, y, n + 1);
    }
  }

  lemma WalkZero(snap: Snapshot, p: string, x: NodeId, y: NodeId)
    ensures Connected(snap, p, x, y, 0) <==> x == y
  {
    if x == y { assert WalkOf(snap, p, [x], x, y, 0); }
  }

  /** The recursive reach set is exactly the ends of walks of 1 to `hops` edges. */
  lemma {:induction false} ReachWithinMeaning(snap: Snapshot, p: string, start: NodeId, hops: nat, y: NodeId)
    ensures y in ReachWithin(snap, p, start, hops) <==> exists n :: 1 <= n <= hops && Connected(snap, p, start, y, n)
  {
    if hops > 0 {
      ReachLast(snap, p, start, hops, y);
      if x :| x in {start} + ReachWithin(snap, p, start, hops - 1) && HasEdge(snap, p, x, y) {
        ReachWithinMeaning(snap, p, start, hops - 1, x);
        WalkZero(snap, p, start, x);
        var n :| 0 <= n <= hops - 1 && Connected(snap, p, start, x, n);
        WalkLast(snap, p, start, y, n);
        assert Connected(snap, p, start, y, n + 1);
      }
      if n :| 1 <= n <= hops && Connected(snap, p, start, y, n) {
        WalkLast(snap, p, start, y, n - 1);
        var z :| Connected(snap, p, start, z, n - 1) && HasEdge(snap, p, z, y);
        WalkZero(snap, p, start, z);
        ReachWithinMeaning(snap, p, start, hops - 1, z);
        assert z in {start} + ReachWithin(snap, p, start, hops - 1);
      }
    }
  }

  lemma ReachLast(snap: Snapshot, p: string, start: NodeId, hops: nat, y: NodeId)
    requires hops > 0
    ensures y in ReachWithin(snap, p, start, hops)
       <==> exists x :: x in {start} + ReachWithin(snap, p, start, hops - 1) && HasEdge(snap, p, x, y)
  {
    SuccessorsMember(snap, p, {start} + ReachWithin(snap, p, start, hops - 1), y);
  }

  // ── Growth and fixed point ───────────────────────────────────────────────

  lemma SuccessorsMonotone(snap: Snapshot, p: string, a: set<NodeId>, b: set<NodeId>)
    requires a <= b
    ensures Successors(snap, p, a) <= Successors(snap, p, b)
  {
    forall y | y in Successors(snap, p, a) ensures y in Successors(snap, p, b) {
      SuccessorsMember(snap, p, a, y);
      SuccessorsMember(snap, p, b, y);
    }
  }

  lemma {:induction false} ReachGrows(snap: Snapshot, p: string, start: NodeId, hops: nat)
    ensures ReachWithin(snap, p, start, hops) <= ReachWithin(snap, p, start, hops + 1)
  {
    if hops > 0 {
      ReachGrows(snap, p, start, hops - 1);
      SuccessorsMonotone(snap, p, {start} + ReachWithin(snap, p, start, hops - 1),
        {start} + ReachWithin(snap, p, start, hops));
    }
  }

  /** Once a round adds nothing, no later round does. */
  lemma {:induction false} ReachSettles(snap: Snapshot, p: string, start: NodeId, k: nat, hops: nat)
    requires k <= hops && ReachWithin(snap, p, start, k + 1) == ReachWithin(snap, p, start, k)
    ensures ReachWithin(snap, p, start, hops) == ReachWithin(snap, p, start, k)
  {
    if k < hops {
      ReachSettles(snap, p, start, k, hops - 1);
      ReachNext(snap, p, start, hops - 1);
      ReachNext(snap, p, start, k);
    }
  }

  lemma ReachNext(snap: Snapshot, p: string, start: NodeId, k: nat)
    ensures ReachWithin(snap, p, start, k + 1) == Successors(snap, p, {start} + ReachWithin(snap, p, start, k))
  {}

  /** The nodes a search can ever return. */
  function Objects(ts: seq<Triple>): set<NodeId> {
    if ts == [] then {} else (if ts[0].Relation? then {ts[0].obj} else {}) + Objects(ts[1..])
  }

  function Targets(snap: Snapshot): set<NodeId> { Objects(snap.UnionTriples()) }

  lemma {:induction false} NeighboursAreObjects(ts: seq<Triple>, p: string, from: set<NodeId>)
    ensures Neighbours(ts, p, from) <= Objects(ts)
  {
    if ts != [] { NeighboursAreObjects(ts[1..], p, from); }
  }

  lemma ReachIsTargets(snap: Snapshot, p: string, start: NodeId, k: nat)
    ensures ReachWithin(snap, p, start, k) <= Targets(snap)
  {
    if k > 0 { NeighboursAreObjects(snap.UnionTriples(), p, {start} + ReachWithin(snap, p, start, k - 1)); }
  }

  lemma SettledStays(snap: Snapshot, p: string, start: NodeId, k: nat)
    requires k > 0 && ReachWithin(snap, p, start, k) == ReachWithin(snap, p, start, k - 1)
    ensures ReachWithin(snap, p, start, k + 1) == ReachWithin(snap, p, start, k)
  {
    ReachNext(snap, p, start, k - 1);
    ReachNext(snap, p, start, k);
  }

  /** Every round either adds a node or is the last that could. */
  lemma {:induction false} ReachRoundsBounded(snap: Snapshot, p: string, start: NodeId, k: nat)
    ensures |ReachWithin(snap, p, start, k)| >= k
         || ReachWithin(snap, p, start, k + 1) == ReachWithin(snap, p, start, k)
  {
    if k > 0 {
      ReachRoundsBounded(snap, p, start, k - 1);
      ReachGrows(snap, p, start, k - 1);
      var a, b := ReachWithin(snap, p, start, k - 1), ReachWithin(snap, p, start, k);
      if a != b { Cardinality(a, b); } else { SettledStays(snap, p, start, k); }
    }
  }

  lemma {:induction false} Cardinality<T>(a: set<T>, b: set<T>)
    requires a <= b
    ensures |a| <= |b| && (a != b ==> |a| < |b|)
  {
    if a != {} {
      var x :| x in a;
      Cardinality(a - {x}, b - {x});
    }
  }

  lemma TargetsSettle(snap: Snapshot, p: string, start: NodeId)
    ensures ReachWithin(snap, p, start, |Targets(snap)| + 1) == ReachWithin(snap, p, start, |Targets(snap)|)
  {
    var k := |Targets(snap)|;
    var a, b := ReachWithin(snap, p, start, k), ReachWithin(snap, p, start, k + 1);
    ReachRoundsBounded(snap, p, start, k);
    ReachGrows(snap, p, start, k);
    ReachIsTargets(snap, p, start, k + 1);
    if a != b {
      Cardinality(a, b);
      Cardinality(b, Targets(snap));
      assert false;
    }
  }

  /** Pigeonhole: a bound of as many hops as there are possible targets reaches
      everything any walk reaches. */
  lemma EnoughHops(snap: Snapshot, p: string, start: NodeId, hops: nat, y: NodeId)
    requires hops >= |Targets(snap)|
    ensures y in ReachWithin(snap, p, start, hops) <==> Reaches(snap, p, start, y)
  {
    var k := |Targets(snap)|;
    TargetsSettle(snap, p, start);
    ReachSettles(snap, p, start, k, hops);
    ReachWithinMeaning(snap, p, start, hops, y);
    if n :| n >= 1 && Connected(snap, p, start, y, n) {
      var m := if n > hops then n else hops;
      ReachWithinMeaning(snap, p, start, m, y);
      ReachSettles(snap, p, start, k, m);
    }
  }

  // ── The search ───────────────────────────────────────────────────────────

  lemma {:induction false} FilteredObjects(snap: Snapshot, p: string, x: NodeId, ts: seq<Triple>)
    ensures Objects(Filter(snap.BySubjectPredicate(x, p), ts)) == Neighbours(ts, p, {x})
  {
    if ts != [] {
      FilteredObjects(snap, p, x, ts[1..]);
      var kept := Filter(snap.BySubjectPredicate(x, p), ts);
      if snap.BySubjectPredicate(x, p)(ts[0]) {
        assert kept[0] == ts[0] && kept[1..] == Filter(snap.BySubjectPredicate(x, p), ts[1..]);
      } else {
        assert kept == Filter(snap.BySubjectPredicate(x, p), ts[1..]);
      }
    }
  }

  lemma {:induction false} ObjectsSnoc(ts: seq<Triple>, t: Triple)
    ensures Objects(ts + [t]) == Objects(ts) + if t.Relation? then {t.obj} else {}
  {
    if ts == [] {
      assert ts + [t] == [t] && [t][1..] == [];
    } else {
      assert (ts + [t])[0] == ts[0] && (ts + [t])[1..] == ts[1..] + [t];
      ObjectsSnoc(ts[1..], t);
    }
  }

  function Elements(s: seq<NodeId>): set<NodeId> { set x | x in s }

  lemma QueueGrows(queue: seq<NodeId>, next: seq<NodeId>, before: set<NodeId>, visited: set<NodeId>, o: NodeId)
    requires Elements(next) == Elements(queue) + (visited - before) && before <= visited && o !in visited
    ensures Elements(next + [o]) == Elements(queue) + (visited + {o} - before)
  {
    assert Elements(next + [o]) == Elements(next) + {o};
  }

  /** With the objects of `ts` visited, each new one has been queued. */
  ghost predicate Expanded(ts: seq<Triple>, before: set<NodeId>, queue: seq<NodeId>, visited: set<NodeId>,
      next: seq<NodeId>) {
    visited == before + Objects(ts) && Elements(next) == Elements(queue) + (visited - before)
  }

  lemma ExpandStep(ts: seq<Triple>, t: Triple, before: set<NodeId>, queue: seq<NodeId>, visited: set<NodeId>,
      next: seq<NodeId>)
    requires Expanded(ts, before, queue, visited, next)
    ensures if t.Relation? && t.obj !in visited then Expanded(ts + [t], before, queue, visited + {t.obj}, next + [t.obj])
            else Expanded(ts + [t], before, queue, visited, next)
  {
    hide Objects, Elements;
    ObjectsSnoc(ts, t);
    if t.Relation? && t.obj !in visited { QueueGrows(queue, next, before, visited, t.obj); }
  }

  lemma NothingExpanded(before: set<NodeId>, queue: seq<NodeId>)
    ensures Expanded([], before, queue, before, queue)
  {}

  /** Visit the new neighbours of `node`, queueing each the first time it is seen. */
  method Expand(snap: Snapshot, p: string, node: NodeId, before: set<NodeId>, queue: seq<NodeId>)
    returns (visited: set<NodeId>, next: seq<NodeId>)
    ensures visited == before + Successors(snap, p, {node})
    ensures Elements(next) == Elements(queue) + (visited - before)
  {
    var triples := snap.ScanBySubjectPredicate(node, p);
    visited, next := ExpandAll(triples, before, queue);
    FilteredObjects(snap, p, node, snap.UnionTriples());
  }

  method ExpandAll(triples: seq<Triple>, before: set<NodeId>, queue: seq<NodeId>)
      returns (visited: set<NodeId>, next: seq<NodeId>)
    ensures Expanded(triples, before, queue, visited, next)
  {
    hide Expanded;
    visited, next := before, queue;
    NothingExpanded(before, queue);
    for i := 0 to |triples|
      invariant Expanded(triples[..i], before, queue, visited, next)
    {
      assert triples[..i + 1] == triples[..i] + [triples[i]];
      ExpandStep(triples[..i], triples[i], before, queue, visited, next);
      if triples[i].Relation? {
        var o := triples[i].obj;
        if o !in visited {
          visited, next := visited + {o}, next + [o];
        }
      }
    }
    assert triples[..|triples|] == triples;
  }

  /** One round of the search: every node of the frontier is expanded. */
  method Round(snap: Snapshot, p: string, frontier: seq<NodeId>, before: set<NodeId>)
    returns (visited: set<NodeId>, next: seq<NodeId>)
    ensures visited == before + Successors(snap, p, Elements(frontier))
    ensures Elements(next) == visited - before
  {
    visited, next := before, [];
    assert Elements(frontier[..0]) == {};
    NoSuccessors(snap, p);
    for i := 0 to |frontier|
      invariant visited == before + Successors(snap, p, Elements(frontier[..i]))
      invariant Elements(next) == visited - before
    {
      assert frontier[..i + 1] == frontier[..i] + [frontier[i]];
      assert Elements(frontier[..i + 1]) == Elements(frontier[..i]) + {frontier[i]};
      SuccessorsUnion(snap, p, Elements(frontier[..i]), {frontier[i]});
      visited, next := Expand(snap, p, frontier[i], visited, next);
    }
    assert frontier[..|frontier|] == frontier;
  }

  /** What a round knows: everything within `k` hops is visited, and whatever is
      not on the frontier has been expanded. */
  ghost predicate Explored(snap: Snapshot, p: string, start: NodeId, k: nat, visited: set<NodeId>,
      frontier: set<NodeId>) {
    visited == ReachWithin(snap, p, start, k) && frontier <= {start} + visited &&
    forall x :: x in {start} + visited && x !in frontier ==> Successors(snap, p, {x}) <= visited
  }

  lemma RoundExplores(snap: Snapshot, p: string, start: NodeId, k: nat, before: set<NodeId>, frontier: set<NodeId>,
      visited: set<NodeId>)
    requires Explored(snap, p, start, k, before, frontier)
    requires visited == before + Successors(snap, p, frontier)
    ensures Explored(snap, p, start, k + 1, visited, visited - before)
  {
    var all := {start} + before;
    ReachGrows(snap, p, start, k);
    forall y ensures y in visited <==> y in Successors(snap, p, all) {
      SuccessorsMember(snap, p, all, y);
      SuccessorsMember(snap, p, frontier, y);
      if y in Successors(snap, p, all) {
        var x :| x in all && HasEdge(snap, p, x, y);
        SuccessorsMember(snap, p, {x}, y);
      }
    }
    forall x | x in all && x !in visited - before ensures Successors(snap, p, {x}) <= visited {
      if x in frontier { SuccessorsMonotone(snap, p, {x}, frontier); }
    }
  }

  method ReachableFromHops(start: NodeId, p: string, snap: Snapshot, maxHops: nat) returns (visited: set<NodeId>)
    ensures visited == ReachWithin(snap, p, start, maxHops)
    ensures forall y :: y in visited <==> exists n :: 1 <= n <= maxHops && Connected(snap, p, start, y, n)
  {
    visited := {};
    var frontier := [start];
    var k := 0;
    while k < maxHops && frontier != []
      invariant 0 <= k <= maxHops
      invariant Explored(snap, p, start, k, visited, Elements(frontier))
    {
      ghost var before := visited;
      ghost var from := Elements(frontier);
      visited, frontier := Round(snap, p, frontier, visited);
      RoundExplores(snap, p, start, k, before, from, visited);
      k := k + 1;
    }
    SearchEnds(snap, p, start, k, maxHops, visited, Elements(frontier));
    forall y ensures y in visited <==> exists n :: 1 <= n <= maxHops && Connected(snap, p, start, y, n) {
      ReachWithinMeaning(snap, p, start, maxHops, y);
    }
  }

  lemma NoSuccessors(snap: Snapshot, p: string)
    ensures Successors(snap, p, {}) == {}
  {
    forall y ensures y !in Successors(snap, p, {}) { SuccessorsMember(snap, p, {}, y); }
  }

  lemma SuccessorsUnion(snap: Snapshot, p: string, a: set<NodeId>, b: set<NodeId>)
    ensures Successors(snap, p, a + b) == Successors(snap, p, a) + Successors(snap, p, b)
  {
    forall y ensures y in Successors(snap, p, a + b) <==> y in Successors(snap, p, a) + Successors(snap, p, b) {
      SuccessorsMember(snap, p, a, y);
      SuccessorsMember(snap, p, b, y);
      SuccessorsMember(snap, p, a + b, y);
    }
  }

  /** An empty frontier means nothing further can be reached. */
  lemma SearchEnds(snap: Snapshot, p: string, start: NodeId, k: nat, hops: nat, visited: set<NodeId>,
      frontier: set<NodeId>)
    requires k <= hops && (k < hops ==> frontier == {}) && Explored(snap, p, start, k, visited, frontier)
    ensures visited == ReachWithin(snap, p, start, hops)
  {
    if k < hops {
      NoSuccessors(snap, p);
      RoundExplores(snap, p, start, k, visited, {}, visited);
      ReachSettles(snap, p, start, k, hops);
    }
  }
}
