/** Naming every position of a query, as the compiler does, against matching it
    with anonymous positions left open. */
module CypherNames {
  import opened Sequences
  import opened Store
  import opened Reachability
  import opened Cypher
  import opened CypherCompiler
  import opened CypherMeaning

  // ── Anonymous names ──────────────────────────────────────────────────────

  lemma {:induction false} DecimalInjective(m: nat, n: nat)
    requires Decimal(m) == Decimal(n)
    ensures m == n
  {
    var a, b := Decimal(m), Decimal(n);
    assert a[|a| - 1] == Digit(m % 10) && b[|b| - 1] == Digit(n % 10);
    if m >= 10 && n >= 10 {
      assert a[..|a| - 1] == Decimal(m / 10) && b[..|b| - 1] == Decimal(n / 10);
      DecimalInjective(m / 10, n / 10);
    } else if m >= 10 {
      DecimalNonEmpty(m / 10);
    } else if n >= 10 {
      DecimalNonEmpty(n / 10);
    }
  }

  lemma DecimalNonEmpty(n: nat)
    ensures |Decimal(n)| > 0
  {}

  /** Anonymous positions get pairwise different names. */
  lemma AnonymousNamesDiffer(m: nat, n: nat)
    ensures AnonName(m) == AnonName(n) <==> m == n
  {
    if AnonName(m) == AnonName(n) {
      assert Decimal(m) == AnonName(m)[7..] && Decimal(n) == AnonName(n)[7..];
      DecimalInjective(m, n);
    }
  }

  /** None of `names` is an anonymous name still to be given out, up to `last`. */
  predicate Fresh(anon: nat, last: nat, names: set<string>) {
    forall k: nat :: anon <= k < last ==> AnonName(k) !in names
  }

  lemma FreshAfter(anon: nat, last: nat, names: set<string>)
    requires Fresh(anon, last, names) && anon < last
    ensures Fresh(anon + 1, last, names + {AnonName(anon)}) && AnonName(anon) !in names
  {
    forall k: nat | anon + 1 <= k < last ensures AnonName(k) !in names + {AnonName(anon)} {
      AnonymousNamesDiffer(k, anon);
    }
  }

  lemma {:induction false} HopsCount(hops: seq<HopPat>, anon: nat)
    ensures anon <= AnonAfterHops(hops, anon)
  {
    if hops != [] { HopsCount(hops[1..], NextAnon(hops[0].end.variable, anon)); }
  }

  lemma PathCounts(path: CypherPath, anon: nat)
    ensures NextAnon(path.start.variable, anon) <= AnonAfter(path, anon)
  {
    HopsCount(path.hops, NextAnon(path.start.variable, anon));
  }

  lemma {:induction false} PathsCount(paths: seq<CypherPath>, anon: nat)
    ensures anon <= AnonAfterPaths(paths, anon)
  {
    if paths != [] {
      PathCounts(paths[0], anon);
      PathsCount(paths[1..], AnonAfter(paths[0], anon));
    }
  }

  // ── What a named row says about nodes ────────────────────────────────────

  lemma WalkNodes(snap: Snapshot, p: string, s: NodeId, o: NodeId, n: nat)
    requires n >= 1 && Connected(snap, p, s, o, n)
    ensures IsNode(snap, s) && IsNode(snap, o)
  {
    var path :| WalkOf(snap, p, path, s, o, n);
    assert HasEdge(snap, p, path[0], path[1]) && HasEdge(snap, p, path[n - 1], path[n - 1 + 1]);
  }

  /** A relationship joins nodes. */
  lemma RelNodes(v: Vocabulary, snap: Snapshot, rel: RelPat, direction: Direction, n: NodeId, m: NodeId, row: Row)
    requires RelMatches(v, snap, rel, direction, n, m, row)
    ensures IsNode(snap, n) && IsNode(snap, m)
  {
    var p := v.resolve(rel.pred);
    var s, o := if direction.Out? then n else m, if direction.Out? then m else n;
    assert Leads(v, snap, rel, s, o, row);
    if rel.recursive {
      var k :| k >= 1 && Connected(snap, p, s, o, k);
      WalkNodes(snap, p, s, o, k);
    }
  }

  lemma FittingNode(v: Vocabulary, snap: Snapshot, node: NodePat, n: NodeId)
    requires !Bare(node) && NodeFits(v, snap, node, n)
    ensures IsNode(snap, n)
  {
    if node.nodeLabel.None? { assert ConditionHolds(snap, n, v.resolve(node.props[0].0), node.props[0].1); }
  }

  lemma EndMatches(v: Vocabulary, snap: Snapshot, hop: HopPat, x: string, y: string, anon: nat, row: Row)
    requires y == NameOf(hop.end.variable, anon)
    requires RelHolds(v, snap, hop.rel, hop.direction, x, y, row) && NodeHolds(v, snap, hop.end, y, row)
    ensures HopMatches(v, snap, hop, row[x], row[y], row) && IsNode(snap, row[x])
  {
    RelNodes(v, snap, hop.rel, hop.direction, row[x], row[y], row);
  }

  lemma {:induction false} HopsGive(v: Vocabulary, snap: Snapshot, hops: seq<HopPat>, x: string, anon: nat, row: Row)
    requires x in row && HopsHold(v, snap, hops, x, anon, row)
    ensures HopsMatch(v, snap, hops, row[x], row) && (hops != [] ==> IsNode(snap, row[x]))
    decreases |hops|
  {
    if hops != [] {
      var y := NameOf(hops[0].end.variable, anon);
      EndMatches(v, snap, hops[0], x, y, anon, row);
      HopsGive(v, snap, hops[1..], y, NextAnon(hops[0].end.variable, anon), row);
    }
  }

  /** A lone node that asks for nothing: the compiler emits nothing for it. */
  predicate Lone(path: CypherPath) { path.hops == [] && Bare(path.start) }

  /** A path that is not a lone bare node is matched at the nodes it names. */
  lemma PathGives(v: Vocabulary, snap: Snapshot, path: CypherPath, anon: nat, row: Row)
    requires PathHolds(v, snap, path, anon, row) && !Lone(path)
    ensures var x := NameOf(path.start.variable, anon);
            x in row && NodeMatches(v, snap, path.start, row[x], row) && PathMatches(v, snap, path, row)
  {
    var x := NameOf(path.start.variable, anon);
    if path.hops == [] { FittingNode(v, snap, path.start, row[x]); }
    HopsGive(v, snap, path.hops, x, NextAnon(path.start.variable, anon), row);
  }

  // ── Variables bound to nodes ─────────────────────────────────────────────

  function FixedInPaths(paths: seq<CypherPath>): set<string> {
    if paths == [] then {} else (if Lone(paths[0]) then {} else PathNodes(paths[0])) + FixedInPaths(paths[1..])
  }

  /** Node variables that some pattern or condition constrains. */
  function Fixed(q: CypherQuery): set<string> { FixedInPaths(q.paths) + WhereNames(q.wheres) }

  lemma {:induction false} HopsFixed(v: Vocabulary, snap: Snapshot, hops: seq<HopPat>, x: string, anon: nat, row: Row,
      z: string)
    requires HopsHold(v, snap, hops, x, anon, row) && z in HopsEnds(hops)
    ensures z in row && IsNode(snap, row[z])
    decreases |hops|
  {
    var y := NameOf(hops[0].end.variable, anon);
    if hops[0].end.variable == Some(z) {
      EndMatches(v, snap, hops[0], x, y, anon, row);
    } else {
      HopsFixed(v, snap, hops[1..], y, NextAnon(hops[0].end.variable, anon), row, z);
    }
  }

  lemma PathFixed(v: Vocabulary, snap: Snapshot, path: CypherPath, anon: nat, row: Row, z: string)
    requires PathHolds(v, snap, path, anon, row) && !Lone(path) && z in PathNodes(path)
    ensures z in row && IsNode(snap, row[z])
  {
    PathGives(v, snap, path, anon, row);
    if path.start.variable != Some(z) {
      HopsFixed(v, snap, path.hops, NameOf(path.start.variable, anon), NextAnon(path.start.variable, anon), row, z);
    }
  }

  lemma {:induction false} PathsFixed(v: Vocabulary, snap: Snapshot, paths: seq<CypherPath>, anon: nat, row: Row,
      z: string)
    requires PathsHold(v, snap, paths, anon, row) && z in FixedInPaths(paths)
    ensures z in row && IsNode(snap, row[z])
  {
    if !Lone(paths[0]) && z in PathNodes(paths[0]) {
      PathFixed(v, snap, paths[0], anon, row, z);
    } else {
      PathsFixed(v, snap, paths[1..], AnonAfter(paths[0], anon), row, z);
    }
  }

  lemma {:induction false} WhereNamesMember(ws: seq<WhereEq>, z: string)
    ensures z in WhereNames(ws) <==> exists i :: 0 <= i < |ws| && ws[i].variable == z
  {
    if ws != [] {
      WhereNamesMember(ws[1..], z);
      assert forall i :: 0 < i < |ws| ==> ws[1..][i - 1] == ws[i];
      assert forall i :: 0 <= i < |ws[1..]| ==> ws[1..][i] == ws[i + 1];
    }
  }

  lemma FixedAreNodes(v: Vocabulary, snap: Snapshot, q: CypherQuery, row: Row, z: string)
    requires PathsHold(v, snap, q.paths, 0, row) && WheresHold(v, snap, q.wheres, row) && z in Fixed(q)
    ensures z in row && IsNode(snap, row[z])
  {
    if z in FixedInPaths(q.paths) {
      PathsFixed(v, snap, q.paths, 0, row, z);
    } else {
      WhereNamesMember(q.wheres, z);
      var i :| 0 <= i < |q.wheres| && q.wheres[i].variable == z;
      assert WhereHolds(v, snap, q.wheres[i], row);
    }
  }

  // ── Matching looks at the written variables only ─────────────────────────

  predicate AgreeOn(a: Row, b: Row, names: set<string>) { forall x :: x in names && x in a ==> x in b && a[x] == b[x] }

  lemma HopAgrees(v: Vocabulary, snap: Snapshot, hop: HopPat, n: NodeId, m: NodeId, a: Row, b: Row)
    requires HopMatches(v, snap, hop, n, m, a) && AgreeOn(a, b, RelNames(hop.rel) + Optional(hop.end.variable))
    ensures HopMatches(v, snap, hop, n, m, b)
  {
    if !hop.rel.recursive && hop.rel.variable.Some? { assert hop.rel.variable.value in RelNames(hop.rel); }
    if hop.end.variable.Some? { assert hop.end.variable.value in Optional(hop.end.variable); }
  }

  lemma {:induction false} HopsAgree(v: Vocabulary, snap: Snapshot, hops: seq<HopPat>, n: NodeId, a: Row, b: Row)
    requires HopsMatch(v, snap, hops, n, a) && AgreeOn(a, b, HopsEnds(hops) + HopsRels(hops))
    ensures HopsMatch(v, snap, hops, n, b)
  {
    if hops != [] {
      var m :| HopMatches(v, snap, hops[0], n, m, a) && HopsMatch(v, snap, hops[1..], m, a);
      HopAgrees(v, snap, hops[0], n, m, a, b);
      HopsAgree(v, snap, hops[1..], m, a, b);
    }
  }

  lemma PathAgrees(v: Vocabulary, snap: Snapshot, path: CypherPath, a: Row, b: Row)
    requires PathMatches(v, snap, path, a) && AgreeOn(a, b, WrittenInPath(path))
    ensures PathMatches(v, snap, path, b)
  {
    var n :| NodeMatches(v, snap, path.start, n, a) && HopsMatch(v, snap, path.hops, n, a);
    if path.start.variable.Some? { assert path.start.variable.value in WrittenInPath(path); }
    HopsAgree(v, snap, path.hops, n, a, b);
  }

  // ── Holding survives more bindings ───────────────────────────────────────

  predicate Widens(b: Row, a: Row) { forall x :: x in a ==> x in b && b[x] == a[x] }

  lemma RelWidens(v: Vocabulary, snap: Snapshot, rel: RelPat, direction: Direction, x: string, y: string, a: Row,
      b: Row)
    requires RelHolds(v, snap, rel, direction, x, y, a) && Widens(b, a)
    ensures RelHolds(v, snap, rel, direction, x, y, b)
  {}

  lemma {:induction false} HopsWiden(v: Vocabulary, snap: Snapshot, hops: seq<HopPat>, x: string, anon: nat, a: Row,
      b: Row)
    requires HopsHold(v, snap, hops, x, anon, a) && Widens(b, a)
    ensures HopsHold(v, snap, hops, x, anon, b)
    decreases |hops|
  {
    if hops != [] {
      var y := NameOf(hops[0].end.variable, anon);
      RelWidens(v, snap, hops[0].rel, hops[0].direction, x, y, a, b);
      HopsWiden(v, snap, hops[1..], y, NextAnon(hops[0].end.variable, anon), a, b);
    }
  }

  lemma PathWidens(v: Vocabulary, snap: Snapshot, path: CypherPath, anon: nat, a: Row, b: Row)
    requires PathHolds(v, snap, path, anon, a) && Widens(b, a)
    ensures PathHolds(v, snap, path, anon, b)
  {
    HopsWiden(v, snap, path.hops, NameOf(path.start.variable, anon), NextAnon(path.start.variable, anon), a, b);
  }

  // ── Naming the anonymous positions of a match ────────────────────────────

  /** The row with the position named: unchanged if the position has a variable. */
  function Placed(variable: Option<string>, anon: nat, n: NodeId, row: Row): Row {
    if variable.Some? then row else row[AnonName(anon) := n]
  }

  lemma PlacedIs(variable: Option<string>, anon: nat, last: nat, n: NodeId, row: Row)
    requires NextAnon(variable, anon) <= last && Fresh(anon, last, row.Keys) && Names(variable, n, row)
    ensures var r, x := Placed(variable, anon, n, row), NameOf(variable, anon);
            Widens(r, row) && r.Keys == row.Keys + {x} && r[x] == n && Fresh(NextAnon(variable, anon), last, r.Keys)
  {
    if variable.None? { FreshAfter(anon, last, row.Keys); }
  }

  lemma HopPlaced(v: Vocabulary, snap: Snapshot, hop: HopPat, x: string, anon: nat, last: nat, m: NodeId, row: Row)
    requires NextAnon(hop.end.variable, anon) <= last && Fresh(anon, last, row.Keys)
    requires x in row && HopMatches(v, snap, hop, row[x], m, row)
    ensures var r, y := Placed(hop.end.variable, anon, m, row), NameOf(hop.end.variable, anon);
            RelHolds(v, snap, hop.rel, hop.direction, x, y, r) && NodeHolds(v, snap, hop.end, y, r)
  {
    PlacedIs(hop.end.variable, anon, last, m, row);
    var r := Placed(hop.end.variable, anon, m, row);
    HopAgrees(v, snap, hop, row[x], m, row, r);
  }

  lemma {:induction false} NameHops(v: Vocabulary, snap: Snapshot, hops: seq<HopPat>, x: string, anon: nat, last: nat,
      row: Row) returns (named: Row)
    requires AnonAfterHops(hops, anon) <= last && Fresh(anon, last, row.Keys)
    requires x in row && HopsMatch(v, snap, hops, row[x], row)
    ensures Widens(named, row) && HopsHold(v, snap, hops, x, anon, named)
    ensures named.Keys == row.Keys + HopsNames(hops, anon) && Fresh(AnonAfterHops(hops, anon), last, named.Keys)
    decreases |hops|
  {
    named := row;
    if hops != [] {
      var hop, y := hops[0], NameOf(hops[0].end.variable, anon);
      var m :| HopMatches(v, snap, hop, row[x], m, row) && HopsMatch(v, snap, hops[1..], m, row);
      var r := Placed(hop.end.variable, anon, m, row);
      HopsCount(hops[1..], NextAnon(hop.end.variable, anon));
      PlacedIs(hop.end.variable, anon, last, m, row);
      HopPlaced(v, snap, hop, x, anon, last, m, row);
      HopsAgree(v, snap, hops[1..], m, row, r);
      named := NameHops(v, snap, hops[1..], y, NextAnon(hop.end.variable, anon), last, r);
      RelWidens(v, snap, hop.rel, hop.direction, x, y, r, named);
      RelNamesBound(v, snap, hop, row[x], m, row);
    }
  }

  lemma RelNamesBound(v: Vocabulary, snap: Snapshot, hop: HopPat, n: NodeId, m: NodeId, row: Row)
    requires HopMatches(v, snap, hop, n, m, row)
    ensures RelNames(hop.rel) <= row.Keys
  {}

  lemma NamePath(v: Vocabulary, snap: Snapshot, path: CypherPath, anon: nat, last: nat, row: Row) returns (named: Row)
    requires AnonAfter(path, anon) <= last && Fresh(anon, last, row.Keys)
    requires !Lone(path) && PathMatches(v, snap, path, row)
    ensures Widens(named, row) && PathHolds(v, snap, path, anon, named)
    ensures named.Keys == row.Keys + PathNames(path, anon) && Fresh(AnonAfter(path, anon), last, named.Keys)
  {
    var x := NameOf(path.start.variable, anon);
    var n :| NodeMatches(v, snap, path.start, n, row) && HopsMatch(v, snap, path.hops, n, row);
    var r := Placed(path.start.variable, anon, n, row);
    PathCounts(path, anon);
    PlacedIs(path.start.variable, anon, last, n, row);
    HopsAgree(v, snap, path.hops, n, row, r);
    named := NameHops(v, snap, path.hops, x, NextAnon(path.start.variable, anon), last, r);
  }

  lemma LoneHolds(v: Vocabulary, snap: Snapshot, path: CypherPath, anon: nat, row: Row)
    requires Lone(path)
    ensures PathHolds(v, snap, path, anon, row) && PathNames(path, anon) == {}
  {}

  ghost predicate NonLoneMatch(v: Vocabulary, snap: Snapshot, paths: seq<CypherPath>, row: Row) {
    forall i :: 0 <= i < |paths| && !Lone(paths[i]) ==> PathMatches(v, snap, paths[i], row)
  }

  lemma RestMatch(v: Vocabulary, snap: Snapshot, paths: seq<CypherPath>, row: Row, named: Row)
    requires paths != [] && NonLoneMatch(v, snap, paths, row) && Widens(named, row)
    ensures NonLoneMatch(v, snap, paths[1..], named)
  {
    forall i | 0 <= i < |paths[1..]| && !Lone(paths[1..][i]) ensures PathMatches(v, snap, paths[1..][i], named) {
      assert paths[1..][i] == paths[i + 1];
      PathAgrees(v, snap, paths[i + 1], row, named);
    }
  }

  lemma {:induction false} NamePaths(v: Vocabulary, snap: Snapshot, paths: seq<CypherPath>, anon: nat, row: Row)
      returns (named: Row)
    requires NonLoneMatch(v, snap, paths, row) && Fresh(anon, AnonAfterPaths(paths, anon), row.Keys)
    ensures Widens(named, row) && PathsHold(v, snap, paths, anon, named)
    ensures named.Keys == row.Keys + PathsNames(paths, anon)
  {
    named := row;
    if paths != [] {
      var r, last := row, AnonAfterPaths(paths, anon);
      PathCounts(paths[0], anon);
      PathsCount(paths[1..], AnonAfter(paths[0], anon));
      if !Lone(paths[0]) { r := NamePath(v, snap, paths[0], anon, last, row); }
      RestMatch(v, snap, paths, row, r);
      named := NamePaths(v, snap, paths[1..], AnonAfter(paths[0], anon), r);
      if Lone(paths[0]) {
        LoneHolds(v, snap, paths[0], anon, named);
      } else {
        PathWidens(v, snap, paths[0], anon, r, named);
      }
    }
  }

  // ── Named rows against matches ───────────────────────────────────────────

  /** No written variable is the name of an anonymous position of the query. */
  predicate FreshNames(q: CypherQuery) { Fresh(0, AnonAfterPaths(q.paths, 0), Written(q)) }

  /** Every named lone bare node is constrained elsewhere in the query. */
  predicate LoneFixed(q: CypherQuery) {
    forall i :: 0 <= i < |q.paths| && Lone(q.paths[i]) ==> Optional(q.paths[i].start.variable) <= Fixed(q)
  }

  predicate LoneAnonymous(q: CypherQuery) {
    exists i :: 0 <= i < |q.paths| && Lone(q.paths[i]) && q.paths[i].start.variable.None?
  }

  ghost predicate HasNode(snap: Snapshot) { exists n :: IsNode(snap, n) }

  /** A row without the anonymous names. */
  function Project(q: CypherQuery, raw: Row): Row { map x | x in raw && x in Written(q) :: raw[x] }

  lemma {:induction false} WrittenMember(paths: seq<CypherPath>, i: nat)
    requires i < |paths|
    ensures WrittenInPath(paths[i]) <= WrittenInPaths(paths)
  {
    if i > 0 { WrittenMember(paths[1..], i - 1); }
  }

  lemma {:induction false} HopsWritten(hops: seq<HopPat>, anon: nat)
    ensures HopsEnds(hops) + HopsRels(hops) <= HopsNames(hops, anon)
  {
    if hops != [] { HopsWritten(hops[1..], NextAnon(hops[0].end.variable, anon)); }
  }

  lemma {:induction false} PathsWritten(paths: seq<CypherPath>, anon: nat, i: nat)
    requires i < |paths| && !Lone(paths[i])
    ensures WrittenInPath(paths[i]) <= PathsNames(paths, anon)
  {
    if i == 0 {
      HopsWritten(paths[0].hops, NextAnon(paths[0].start.variable, anon));
    } else {
      PathsWritten(paths[1..], AnonAfter(paths[0], anon), i - 1);
    }
  }

  lemma {:induction false} WrittenInSome(paths: seq<CypherPath>, z: string) returns (i: nat)
    requires z in WrittenInPaths(paths)
    ensures i < |paths| && z in WrittenInPath(paths[i])
  {
    i := 0;
    if z !in WrittenInPath(paths[0]) {
      i := WrittenInSome(paths[1..], z);
      i := i + 1;
    }
  }

  lemma {:induction false} PathsGive(v: Vocabulary, snap: Snapshot, paths: seq<CypherPath>, anon: nat, row: Row, i: nat)
    requires PathsHold(v, snap, paths, anon, row) && i < |paths| && !Lone(paths[i])
    ensures PathMatches(v, snap, paths[i], row)
  {
    if i == 0 {
      PathGives(v, snap, paths[0], anon, row);
    } else {
      PathsGive(v, snap, paths[1..], AnonAfter(paths[0], anon), row, i - 1);
    }
  }

  /** With lone nodes constrained elsewhere a named row binds every written variable. */
  lemma AllBound(v: Vocabulary, snap: Snapshot, q: CypherQuery, raw: Row)
    requires QueryHolds(v, snap, q, raw) && LoneFixed(q)
    ensures Written(q) <= raw.Keys
  {
    forall z | z in WrittenInPaths(q.paths) ensures z in raw {
      var i := WrittenInSome(q.paths, z);
      if Lone(q.paths[i]) { FixedAreNodes(v, snap, q, raw, z); } else { PathsWritten(q.paths, 0, i); }
    }
  }

  lemma PathFromNamed(v: Vocabulary, snap: Snapshot, q: CypherQuery, raw: Row, i: nat)
    requires QueryHolds(v, snap, q, raw) && LoneFixed(q) && (LoneAnonymous(q) ==> HasNode(snap)) && i < |q.paths|
    ensures PathMatches(v, snap, q.paths[i], raw)
  {
    var path := q.paths[i];
    if !Lone(path) {
      PathsGive(v, snap, q.paths, 0, raw, i);
    } else if path.start.variable.Some? {
      var z := path.start.variable.value;
      assert z in Optional(path.start.variable);
      FixedAreNodes(v, snap, q, raw, z);
      assert NodeMatches(v, snap, path.start, raw[z], raw) && HopsMatch(v, snap, path.hops, raw[z], raw);
    } else {
      var n :| IsNode(snap, n);
      assert NodeMatches(v, snap, path.start, n, raw) && HopsMatch(v, snap, path.hops, n, raw);
    }
  }

  /** A named row, without its anonymous names, is a row of the query. */
  lemma NamedRowsMatch(v: Vocabulary, snap: Snapshot, q: CypherQuery, raw: Row)
    requires QueryHolds(v, snap, q, raw) && LoneFixed(q) && (LoneAnonymous(q) ==> HasNode(snap))
    ensures QueryMatches(v, snap, q, Project(q, raw))
  {
    var row := Project(q, raw);
    AllBound(v, snap, q, raw);
    forall i | 0 <= i < |q.paths| ensures PathMatches(v, snap, q.paths[i], row) {
      PathFromNamed(v, snap, q, raw, i);
      WrittenMember(q.paths, i);
      PathAgrees(v, snap, q.paths[i], raw, row);
    }
    forall i | 0 <= i < |q.wheres| ensures WhereHolds(v, snap, q.wheres[i], row) {
      assert WhereHolds(v, snap, q.wheres[i], raw);
      WhereNamesMember(q.wheres, q.wheres[i].variable);
    }
  }

  function Constrained(q: CypherQuery, row: Row): Row {
    map x | x in row && x in PathsNames(q.paths, 0) + WhereNames(q.wheres) :: row[x]
  }

  lemma ConstrainedMatch(v: Vocabulary, snap: Snapshot, q: CypherQuery, row: Row)
    requires QueryMatches(v, snap, q, row)
    ensures NonLoneMatch(v, snap, q.paths, Constrained(q, row))
  {
    forall i | 0 <= i < |q.paths| && !Lone(q.paths[i]) ensures PathMatches(v, snap, q.paths[i], Constrained(q, row)) {
      PathsWritten(q.paths, 0, i);
      PathAgrees(v, snap, q.paths[i], row, Constrained(q, row));
    }
  }

  lemma NamedWheres(v: Vocabulary, snap: Snapshot, ws: seq<WhereEq>, row: Row, raw: Row)
    requires WheresHold(v, snap, ws, row) &&
             forall x :: x in WhereNames(ws) && x in row ==> x in raw && raw[x] == row[x]
    ensures WheresHold(v, snap, ws, raw)
  {
    forall i | 0 <= i < |ws| ensures WhereHolds(v, snap, ws[i], raw) {
      WhereNamesMember(ws, ws[i].variable);
      assert WhereHolds(v, snap, ws[i], row);
    }
  }

  lemma ConstrainedProjects(q: CypherQuery, row: Row, raw: Row)
    requires Widens(raw, Constrained(q, row)) && row.Keys == Written(q)
    requires raw.Keys == Constrained(q, row).Keys + PathsNames(q.paths, 0)
    ensures raw.Keys == PathsNames(q.paths, 0) + WhereNames(q.wheres) && Project(q, raw) == Constrained(q, row)
  {}

  /** Every row of the query, up to lone nodes that nothing constrains, is a named
      row without its anonymous names. */
  lemma MatchesAreNamed(v: Vocabulary, snap: Snapshot, q: CypherQuery, row: Row) returns (raw: Row)
    requires QueryMatches(v, snap, q, row) && FreshNames(q)
    ensures QueryHolds(v, snap, q, raw) && Project(q, raw) == Constrained(q, row)
  {
    ConstrainedMatch(v, snap, q, row);
    raw := NamePaths(v, snap, q.paths, 0, Constrained(q, row));
    ConstrainedProjects(q, row, raw);
    NamedWheres(v, snap, q.wheres, row, raw);
  }

  lemma MatchesAreNamedWhole(v: Vocabulary, snap: Snapshot, q: CypherQuery, row: Row) returns (raw: Row)
    requires QueryMatches(v, snap, q, row) && FreshNames(q) && LoneFixed(q)
    ensures QueryHolds(v, snap, q, raw) && Project(q, raw) == row
  {
    raw := MatchesAreNamed(v, snap, q, row);
    AllBound(v, snap, q, raw);
  }

  // ── Lone nodes that nothing constrains ───────────────────────────────────

  function RelsInPaths(paths: seq<CypherPath>): set<string> {
    if paths == [] then {} else HopsRels(paths[0].hops) + RelsInPaths(paths[1..])
  }

  /** No variable stands for a node and for a relationship. */
  predicate Sorted(q: CypherQuery) {
    forall i :: 0 <= i < |q.paths| ==> PathNodes(q.paths[i]) !! RelsInPaths(q.paths)
  }

  /** `z` is the name of an anonymous position counted from `anon` up to `last`. */
  predicate GivenOut(anon: nat, last: nat, z: string) { exists k: nat :: anon <= k < last && z == AnonName(k) }

  lemma {:induction false} HopsNamesAre(hops: seq<HopPat>, anon: nat, z: string)
    requires z in HopsNames(hops, anon)
    ensures z in HopsEnds(hops) || z in HopsRels(hops) || GivenOut(anon, AnonAfterHops(hops, anon), z)
  {
    HopsCount(hops[1..], NextAnon(hops[0].end.variable, anon));
    if z == NameOf(hops[0].end.variable, anon) {
    } else if z !in RelNames(hops[0].rel) {
      HopsNamesAre(hops[1..], NextAnon(hops[0].end.variable, anon), z);
    }
  }

  lemma {:induction false} NamesAre(paths: seq<CypherPath>, anon: nat, z: string)
    requires z in PathsNames(paths, anon)
    ensures z in FixedInPaths(paths) || z in RelsInPaths(paths) || GivenOut(anon, AnonAfterPaths(paths, anon), z)
  {
    PathCounts(paths[0], anon);
    PathsCount(paths[1..], AnonAfter(paths[0], anon));
    if z in PathNames(paths[0], anon) {
      if z != NameOf(paths[0].start.variable, anon) {
        HopsNamesAre(paths[0].hops, NextAnon(paths[0].start.variable, anon), z);
      }
    } else {
      NamesAre(paths[1..], AnonAfter(paths[0], anon), z);
    }
  }

  /** A lone node that nothing constrains is left unbound. */
  lemma LoneUnbound(v: Vocabulary, snap: Snapshot, q: CypherQuery, raw: Row)
    requires QueryHolds(v, snap, q, raw) && FreshNames(q) && Sorted(q) && !LoneFixed(q)
    ensures Project(q, raw).Keys != Written(q)
  {
    var i :| 0 <= i < |q.paths| && Lone(q.paths[i]) && !(Optional(q.paths[i].start.variable) <= Fixed(q));
    var z := q.paths[i].start.variable.value;
    assert z in PathNodes(q.paths[i]);
    WrittenMember(q.paths, i);
    assert !GivenOut(0, AnonAfterPaths(q.paths, 0), z);
    if z in PathsNames(q.paths, 0) { NamesAre(q.paths, 0, z); }
  }
}
