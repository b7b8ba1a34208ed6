/** ORDER BY, SKIP and LIMIT over result rows
    (crates/polargraph-query/src/aggregation.rs). */
module Paging {
  import opened Sequences
  import opened Values
  import opened Aggregation

  datatype Ordering = Less | Equal | Greater {
    function Reverse(): Ordering {
      match this
      case Less => Greater
      case Equal => Equal
      case Greater => Less
    }
  }

  // ── Comparing values ─────────────────────────────────────────────────────

  function CompareInts(a: int, b: int): Ordering { if a < b then Less else if a == b then Equal else Greater }

  function CompareBytes(a: Bytes, b: Bytes): Ordering {
    if a == [] && b == [] then Equal
    else if a == [] then Less
    else if b == [] then Greater
    else if a[0] != b[0] then CompareInts(a[0], b[0])
    else CompareBytes(a[1..], b[1..])
  }

  /** A float's place on the number line: NaN and negative zero aside, IEEE 754
      order is the order of sign and magnitude. */
  function FloatRank(f: Float64): int {
    if f >= 0x8000_0000_0000_0000 then -(f - 0x8000_0000_0000_0000) else f
  }

  function BoolRank(b: bool): int { if b then 1 else 0 }

  function CompareValues(a: Option<Value>, b: Option<Value>): Ordering {
    match (a, b)
    case (None, None) => Equal
    case (None, Some(_)) => Less
    case (Some(_), None) => Greater
    case (Some(v), Some(w)) =>
      match (v, w)
      case (Int(x), Int(y)) => CompareInts(x, y)
      case (Float(x), Float(y)) => CompareInts(FloatRank(x), FloatRank(y))
      case (Text(x), Text(y)) => CompareBytes(x, y)
      case (Bool(x), Bool(y)) => CompareInts(BoolRank(x), BoolRank(y))
      case _ => Equal
  }

  lemma {:induction false} BytesReverse(a: Bytes, b: Bytes)
    ensures CompareBytes(a, b) == CompareBytes(b, a).Reverse()
  {
    if a != [] && b != [] && a[0] == b[0] { BytesReverse(a[1..], b[1..]); }
  }

  lemma {:induction false} BytesTransitive(a: Bytes, b: Bytes, c: Bytes)
    requires CompareBytes(a, b) != Greater && CompareBytes(b, c) != Greater
    ensures CompareBytes(a, c) != Greater
  {
    if a != [] && b != [] && c != [] && a[0] == b[0] == c[0] { BytesTransitive(a[1..], b[1..], c[1..]); }
  }

  lemma ValuesReverse(a: Option<Value>, b: Option<Value>)
    ensures CompareValues(a, b) == CompareValues(b, a).Reverse()
  {
    if a.Some? && b.Some? && a.value.Text? && b.value.Text? { BytesReverse(a.value.text, b.value.text); }
  }

  predicate ValuesLe(a: Option<Value>, b: Option<Value>) { CompareValues(a, b) != Greater }

  /** Two values the comparison looks at: both integers, floats, texts or booleans. */
  predicate Comparable(v: Value, w: Value) {
    (v.Int? && w.Int?) || (v.Float? && w.Float?) || (v.Text? && w.Text?) || (v.Bool? && w.Bool?)
  }

  ghost predicate Transitive(c: set<Option<Value>>) {
    forall x, y, z :: x in c && y in c && z in c && ValuesLe(x, y) && ValuesLe(y, z) ==> ValuesLe(x, z)
  }

  predicate OneType(c: set<Option<Value>>) {
    forall x, y :: x in c && y in c && x.Some? && y.Some? ==> Comparable(x.value, y.value)
  }

  /** No two values of a comparable type differ. */
  predicate AllTied(c: set<Option<Value>>) {
    forall x, y :: x in c && y in c && x.Some? && y.Some? && Comparable(x.value, y.value) ==> x == y
  }

  lemma {:induction false} BytesEqual(a: Bytes, b: Bytes)
    ensures CompareBytes(a, b) == Equal <==> a == b
  {
    if a != [] && b != [] && a[0] == b[0] {
      BytesEqual(a[1..], b[1..]);
      assert a == [a[0]] + a[1..] && b == [b[0]] + b[1..];
    }
  }

  /** Two values tie when they are the same or not of one comparable type. */
  lemma TiedExactly(x: Option<Value>, y: Option<Value>)
    ensures CompareValues(x, y) == Equal
       <==> x == y || (x.Some? && y.Some? && !Comparable(x.value, y.value))
  {
    if x.Some? && y.Some? && x.value.Text? && y.value.Text? { BytesEqual(x.value.text, y.value.text); }
  }

  lemma ComparableTransitive(x: Option<Value>, y: Option<Value>, z: Option<Value>)
    requires x.Some? && y.Some? && z.Some? && Comparable(x.value, y.value) && Comparable(y.value, z.value)
    requires ValuesLe(x, y) && ValuesLe(y, z)
    ensures ValuesLe(x, z)
  {
    if x.value.Text? { BytesTransitive(x.value.text, y.value.text, z.value.text); }
  }

  /** The comparison orders the values of a column exactly when they are all of
      one comparable type or all tied. Anything else, such as a null average
      among numbers, ties with two values that differ. */
  lemma ComparisonIsOrderExactly(c: set<Option<Value>>)
    ensures Transitive(c) <==> OneType(c) || AllTied(c)
  {
    if OneType(c) {
      forall x, y, z | x in c && y in c && z in c && ValuesLe(x, y) && ValuesLe(y, z) ensures ValuesLe(x, z) {
        if x.Some? && y.Some? && z.Some? { ComparableTransitive(x, y, z); }
      }
    } else if AllTied(c) {
      forall x, y, z | x in c && y in c && z in c && ValuesLe(x, y) && ValuesLe(y, z) ensures ValuesLe(x, z) {
        TiedExactly(x, z);
      }
    } else {
      var a, b :| a in c && b in c && a.Some? && b.Some? && Comparable(a.value, b.value) && a != b;
      TiedExactly(a, b);
      var v, w :| v in c && w in c && v.Some? && w.Some? && !Comparable(v.value, w.value);
      var odd := if Comparable(v.value, a.value) then w else v;
      Unordered(a, b, odd);
    }
  }

  lemma Unordered(a: Option<Value>, b: Option<Value>, odd: Option<Value>)
    requires a.Some? && b.Some? && odd.Some? && CompareValues(a, b) != Equal && !Comparable(odd.value, a.value)
    ensures ValuesLe(a, odd) && ValuesLe(odd, b) && ValuesLe(b, odd) && ValuesLe(odd, a)
    ensures !ValuesLe(a, b) || !ValuesLe(b, a)
  {
    ValuesReverse(a, b);
  }

  // ── Comparing rows ───────────────────────────────────────────────────────

  /** A column of a row: an aggregate, or else a grouping variable as text. */
  function SortKey(row: Row, key: string, render: Uuid -> Bytes): Option<Value> {
    if key in row.aggValues then Some(row.aggValues[key])
    else if key in row.groupKeys then Some(Text(render(row.groupKeys[key])))
    else None
  }

  function Directed(o: Ordering, d: SortDir): Ordering { if d.Desc? then o.Reverse() else o }

  function CompareRows(a: Row, b: Row, orderBy: seq<OrderSpec>, render: Uuid -> Bytes): Ordering {
    if orderBy == [] then Equal
    else
      var o := Directed(CompareValues(SortKey(a, orderBy[0].key, render), SortKey(b, orderBy[0].key, render)),
                 orderBy[0].direction);
      if o != Equal then o else CompareRows(a, b, orderBy[1..], render)
  }

  function RowsLe(orderBy: seq<OrderSpec>, render: Uuid -> Bytes): (Row, Row) -> bool {
    (a: Row, b: Row) => CompareRows(a, b, orderBy, render) != Greater
  }

  lemma {:induction false} RowsReverse(a: Row, b: Row, orderBy: seq<OrderSpec>, render: Uuid -> Bytes)
    ensures CompareRows(a, b, orderBy, render) == CompareRows(b, a, orderBy, render).Reverse()
  {
    if orderBy != [] {
      ValuesReverse(SortKey(a, orderBy[0].key, render), SortKey(b, orderBy[0].key, render));
      RowsReverse(a, b, orderBy[1..], render);
    }
  }

  function ColumnValues(rows: seq<Row>, key: string, render: Uuid -> Bytes): set<Option<Value>> {
    set i | 0 <= i < |rows| :: SortKey(rows[i], key, render)
  }

  /** Every sort column holds values of one type, or values that all tie. */
  predicate Sortable(rows: seq<Row>, orderBy: seq<OrderSpec>, render: Uuid -> Bytes) {
    forall k :: 0 <= k < |orderBy| ==>
      OneType(ColumnValues(rows, orderBy[k].key, render)) || AllTied(ColumnValues(rows, orderBy[k].key, render))
  }

  lemma {:induction false} RowsTransitive(rows: seq<Row>, a: Row, b: Row, c: Row, orderBy: seq<OrderSpec>,
      render: Uuid -> Bytes)
    requires Sortable(rows, orderBy, render) && a in rows && b in rows && c in rows
    requires CompareRows(a, b, orderBy, render) != Greater && CompareRows(b, c, orderBy, render) != Greater
    ensures CompareRows(a, c, orderBy, render) != Greater
  {
    if orderBy != [] {
      var x, y, z := SortKey(a, orderBy[0].key, render), SortKey(b, orderBy[0].key, render),
                       SortKey(c, orderBy[0].key, render);
      ColumnTransitive(rows, orderBy[0].key, render, a, b, c);
      ColumnTransitive(rows, orderBy[0].key, render, c, b, a);
      ColumnTransitive(rows, orderBy[0].key, render, b, c, a);
      ColumnTransitive(rows, orderBy[0].key, render, c, a, b);
      ColumnTransitive(rows, orderBy[0].key, render, a, c, b);
      ColumnTransitive(rows, orderBy[0].key, render, b, a, c);
      ValuesReverse(x, y);
      ValuesReverse(y, z);
      ValuesReverse(x, z);
      if CompareValues(x, y) == Equal && CompareValues(y, z) == Equal {
        assert Sortable(rows, orderBy[1..], render);
        RowsTransitive(rows, a, b, c, orderBy[1..], render);
      }
    }
  }

  lemma ColumnTransitive(rows: seq<Row>, key: string, render: Uuid -> Bytes, a: Row, b: Row, c: Row)
    requires OneType(ColumnValues(rows, key, render)) || AllTied(ColumnValues(rows, key, render))
    requires a in rows && b in rows && c in rows
    ensures ValuesLe(SortKey(a, key, render), SortKey(b, key, render)) &&
            ValuesLe(SortKey(b, key, render), SortKey(c, key, render)) ==>
              ValuesLe(SortKey(a, key, render), SortKey(c, key, render))
  {
    ComparisonIsOrderExactly(ColumnValues(rows, key, render));
  }

  // ── Stable sorting ───────────────────────────────────────────────────────

  ghost predicate TotalPreorder(le: (Row, Row) -> bool, rows: seq<Row>) {
    (forall a, b :: a in rows && b in rows ==> le(a, b) || le(b, a)) &&
    forall a, b, c :: a in rows && b in rows && c in rows && le(a, b) && le(b, c) ==> le(a, c)
  }

  predicate Sorted(le: (Row, Row) -> bool, rows: seq<Row>) {
    forall i, j :: 0 <= i < j < |rows| ==> le(rows[i], rows[j])
  }

  function Tied(le: (Row, Row) -> bool, x: Row): Row -> bool { (y: Row) => le(x, y) && le(y, x) }

  /** `out` is `rows` sorted, rows that tie keeping their order. */
  ghost predicate StableSortOf(le: (Row, Row) -> bool, rows: seq<Row>, out: seq<Row>) {
    multiset(out) == multiset(rows) && Sorted(le, out) &&
    forall x :: x in rows ==> Filter(Tied(le, x), out) == Filter(Tied(le, x), rows)
  }

  function Insert(le: (Row, Row) -> bool, x: Row, sorted: seq<Row>): seq<Row> {
    if sorted == [] || le(x, sorted[0]) then [x] + sorted else [sorted[0]] + Insert(le, x, sorted[1..])
  }

  function StableSort(le: (Row, Row) -> bool, rows: seq<Row>): seq<Row> {
    if rows == [] then [] else Insert(le, rows[0], StableSort(le, rows[1..]))
  }

  lemma {:induction false} InsertMembers(le: (Row, Row) -> bool, x: Row, sorted: seq<Row>)
    ensures multiset(Insert(le, x, sorted)) == multiset(sorted) + multiset{x}
  {
    if sorted != [] {
      assert sorted == [sorted[0]] + sorted[1..];
      if !le(x, sorted[0]) { InsertMembers(le, x, sorted[1..]); }
    }
  }

  lemma {:induction false} InsertSorted(le: (Row, Row) -> bool, x: Row, sorted: seq<Row>)
    requires TotalPreorder(le, [x] + sorted) && Sorted(le, sorted)
    ensures Sorted(le, Insert(le, x, sorted))
  {
    if sorted == [] || le(x, sorted[0]) {
      AheadOfAll(le, x, sorted);
      SortedCons(le, x, sorted);
    } else {
      hide TotalPreorder;
      var rest := sorted[1..];
      PreorderWithin(le, [x] + sorted, [x] + rest);
      InsertSorted(le, x, rest);
      NotAheadOfFirst(le, x, sorted);
      SortedCons(le, sorted[0], Insert(le, x, rest));
    }
  }

  lemma SortedCons(le: (Row, Row) -> bool, x: Row, sorted: seq<Row>)
    requires Sorted(le, sorted) && forall y :: y in sorted ==> le(x, y)
    ensures Sorted(le, [x] + sorted)
  {}

  lemma AheadOfAll(le: (Row, Row) -> bool, x: Row, sorted: seq<Row>)
    requires TotalPreorder(le, [x] + sorted) && Sorted(le, sorted) && (sorted == [] || le(x, sorted[0]))
    ensures forall y :: y in sorted ==> le(x, y)
  {
    forall y | y in sorted ensures le(x, y) {
      var j :| 0 <= j < |sorted| && sorted[j] == y;
      assert x in [x] + sorted && sorted[0] in [x] + sorted && y in [x] + sorted;
      assert j > 0 ==> le(sorted[0], sorted[j]);
    }
  }

  lemma NotAheadOfFirst(le: (Row, Row) -> bool, x: Row, sorted: seq<Row>)
    requires TotalPreorder(le, [x] + sorted) && Sorted(le, sorted) && sorted != [] && !le(x, sorted[0])
    ensures forall y :: y in Insert(le, x, sorted[1..]) ==> le(sorted[0], y)
  {
    var tail := Insert(le, x, sorted[1..]);
    InsertMembers(le, x, sorted[1..]);
    forall y | y in tail ensures le(sorted[0], y) {
      assert y in multiset(tail);
      if y == x {
        assert x in [x] + sorted && sorted[0] in [x] + sorted;
      } else {
        var k :| 0 <= k < |sorted[1..]| && sorted[1..][k] == y;
        assert le(sorted[0], sorted[k + 1]);
      }
    }
  }

  lemma PreorderWithin(le: (Row, Row) -> bool, rows: seq<Row>, some: seq<Row>)
    requires TotalPreorder(le, rows) && forall y :: y in some ==> y in rows
    ensures TotalPreorder(le, some)
  {}

  /** A row inserted ahead of its ties comes first among them. */
  lemma {:induction false} InsertStable(le: (Row, Row) -> bool, x: Row, sorted: seq<Row>, y: Row)
    requires TotalPreorder(le, [x] + sorted + [y])
    ensures Filter(Tied(le, y), Insert(le, x, sorted)) == Filter(Tied(le, y), [x] + sorted)
  {
    if sorted != [] && !le(x, sorted[0]) {
      hide TotalPreorder, Tied, Filter;
      var rest, ties := sorted[1..], Tied(le, y);
      NotBothTied(le, x, sorted, y);
      PreorderWithin(le, [x] + sorted + [y], [x] + rest + [y]);
      InsertStable(le, x, rest, y);
      FilterCons(ties, sorted[0], Insert(le, x, rest));
      FilterSwaps(ties, sorted[0], x, rest);
      assert [sorted[0]] + rest == sorted;
    }
  }

  lemma NotBothTied(le: (Row, Row) -> bool, x: Row, sorted: seq<Row>, y: Row)
    requires TotalPreorder(le, [x] + sorted + [y]) && sorted != [] && !le(x, sorted[0])
    ensures !(Tied(le, y)(x) && Tied(le, y)(sorted[0]))
  {
    var all := [x] + sorted + [y];
    assert all[0] == x && all[1] == sorted[0] && all[|all| - 1] == y;
  }

  /** Two neighbours of which one is dropped may change places. */
  lemma FilterSwaps(keep: Row -> bool, a: Row, b: Row, s: seq<Row>)
    requires !(keep(a) && keep(b))
    ensures (if keep(a) then [a] else []) + Filter(keep, [b] + s) == Filter(keep, [b] + ([a] + s))
  {
    hide Filter;
    FilterCons(keep, b, s);
    FilterCons(keep, b, [a] + s);
    FilterCons(keep, a, s);
  }

  lemma FilterCons(keep: Row -> bool, x: Row, s: seq<Row>)
    ensures Filter(keep, [x] + s) == (if keep(x) then [x] else []) + Filter(keep, s)
  {
    assert ([x] + s)[1..] == s;
  }

  /** Inserting one more row in front keeps a stable sort stable. */
  lemma InsertSorts(le: (Row, Row) -> bool, x: Row, rest: seq<Row>, sorted: seq<Row>)
    requires TotalPreorder(le, [x] + rest) && StableSortOf(le, rest, sorted)
    ensures StableSortOf(le, [x] + rest, Insert(le, x, sorted))
  {
    InsertMembers(le, x, sorted);
    SameMembers(rest, sorted);
    PreorderWithin(le, [x] + rest, [x] + sorted);
    InsertSorted(le, x, sorted);
    forall y | y in [x] + rest ensures Filter(Tied(le, y), Insert(le, x, sorted)) == Filter(Tied(le, y), [x] + rest) {
      InsertKeepsTies(le, x, rest, sorted, y);
    }
  }

  lemma SameMembers(a: seq<Row>, b: seq<Row>)
    requires multiset(a) == multiset(b)
    ensures forall y :: y in a <==> y in b
  {
    assert forall y :: y in a <==> y in multiset(a);
    assert forall y :: y in b <==> y in multiset(b);
  }

  lemma InsertKeepsTies(le: (Row, Row) -> bool, x: Row, rest: seq<Row>, sorted: seq<Row>, y: Row)
    requires TotalPreorder(le, [x] + rest) && StableSortOf(le, rest, sorted) && y in [x] + rest
    ensures Filter(Tied(le, y), Insert(le, x, sorted)) == Filter(Tied(le, y), [x] + rest)
  {
    SameMembers(rest, sorted);
    PreorderWithin(le, [x] + rest, [x] + sorted + [y]);
    InsertStable(le, x, sorted, y);
    FilterCons(Tied(le, y), x, sorted);
    FilterCons(Tied(le, y), x, rest);
    PreorderWithin(le, [x] + rest, rest + [y]);
    TiesKept(le, rest, sorted, y);
  }

  /** Insertion from the right is a stable sort. */
  lemma {:induction false} StableSortSorts(le: (Row, Row) -> bool, rows: seq<Row>)
    requires TotalPreorder(le, rows)
    ensures StableSortOf(le, rows, StableSort(le, rows))
  {
    if rows != [] {
      PreorderWithin(le, rows, rows[1..]);
      StableSortSorts(le, rows[1..]);
      assert rows == [rows[0]] + rows[1..];
      InsertSorts(le, rows[0], rows[1..], StableSort(le, rows[1..]));
    }
  }

  /** A stable sort keeps the order of a tie class even if the class has no
      member among its rows. */
  lemma TiesKept(le: (Row, Row) -> bool, rows: seq<Row>, out: seq<Row>, y: Row)
    requires StableSortOf(le, rows, out) && TotalPreorder(le, rows + [y])
    ensures Filter(Tied(le, y), out) == Filter(Tied(le, y), rows)
  {
    if z :| z in rows && Tied(le, y)(z) {
      forall w | w in rows ensures Tied(le, y)(w) == Tied(le, z)(w) {
        assert w in rows + [y] && z in rows + [y] && y in rows + [y];
      }
      assert forall w :: w in out ==> w in multiset(out);
      assert forall w :: w in multiset(rows) ==> w in rows;
      FilterSame(Tied(le, y), Tied(le, z), rows);
      FilterSame(Tied(le, y), Tied(le, z), out);
    } else {
      assert forall w :: w in out ==> w in multiset(out);
      assert forall w :: w in multiset(rows) ==> w in rows;
      FilterNone(Tied(le, y), rows);
      FilterNone(Tied(le, y), out);
    }
  }

  lemma {:induction false} FilterNone(keep: Row -> bool, s: seq<Row>)
    requires forall w :: w in s ==> !keep(w)
    ensures Filter(keep, s) == []
  {
    if s != [] {
      assert s[0] in s && forall w :: w in s[1..] ==> w in s;
      FilterNone(keep, s[1..]);
    }
  }

  /** Two arrangements order every tie class alike. */
  ghost predicate SameTies(le: (Row, Row) -> bool, a: seq<Row>, b: seq<Row>) {
    forall x :: x in a ==> Filter(Tied(le, x), a) == Filter(Tied(le, x), b)
  }

  /** There is only one: whatever algorithm sorts stably, the result is the same. */
  lemma {:induction false} StableSortUnique(le: (Row, Row) -> bool, a: seq<Row>, b: seq<Row>)
    requires TotalPreorder(le, a) && Sorted(le, a) && Sorted(le, b) && multiset(a) == multiset(b) && SameTies(le, a, b)
    ensures a == b
  {
    if a != [] {
      SameMembers(a, b);
      SameHead(le, a, b);
      assert a == [a[0]] + a[1..] && b == [b[0]] + b[1..];
      TailTies(le, a[0], a[1..], b[1..]);
      TailMembers(a[0], a[1..], b[1..]);
      TailSorted(le, a);
      TailSorted(le, b);
      PreorderWithin(le, a, a[1..]);
      StableSortUnique(le, a[1..], b[1..]);
    } else {
      assert |b| == |multiset(b)| == |multiset(a)| == 0;
    }
  }

  lemma TailMembers(head: Row, a: seq<Row>, b: seq<Row>)
    requires multiset([head] + a) == multiset([head] + b)
    ensures multiset(a) == multiset(b)
  {
    assert multiset(a) == multiset([head] + a) - multiset{head} && multiset(b) == multiset([head] + b) - multiset{head};
  }

  lemma TailSorted(le: (Row, Row) -> bool, a: seq<Row>)
    requires a != [] && Sorted(le, a)
    ensures Sorted(le, a[1..])
  {}

  lemma TailTies(le: (Row, Row) -> bool, head: Row, a: seq<Row>, b: seq<Row>)
    requires SameTies(le, [head] + a, [head] + b)
    ensures SameTies(le, a, b)
  {
    forall x | x in a ensures Filter(Tied(le, x), a) == Filter(Tied(le, x), b) {
      assert x in [head] + a;
      FilterCons(Tied(le, x), head, a);
      FilterCons(Tied(le, x), head, b);
      DropHead(if Tied(le, x)(head) then [head] else [], Filter(Tied(le, x), a), Filter(Tied(le, x), b));
    }
  }

  lemma DropHead(p: seq<Row>, s: seq<Row>, t: seq<Row>)
    requires p + s == p + t
    ensures s == t
  {
    assert (p + s)[|p|..] == s && (p + t)[|p|..] == t;
  }

  lemma SameHead(le: (Row, Row) -> bool, a: seq<Row>, b: seq<Row>)
    requires a != [] && b != [] && a[0] in b && b[0] in a
    requires TotalPreorder(le, a) && Sorted(le, a) && Sorted(le, b)
    requires SameTies(le, a, b)
    ensures a[0] == b[0]
  {
    var i :| 0 <= i < |b| && b[i] == a[0];
    var j :| 0 <= j < |a| && a[j] == b[0];
    assert le(a[0], a[0]);
    assert le(a[0], b[0]) && le(b[0], a[0]);
    assert Tied(le, a[0])(a[0]) && Tied(le, a[0])(b[0]);
    assert Filter(Tied(le, a[0]), a)[0] == a[0];
    assert Filter(Tied(le, a[0]), b)[0] == b[0];
  }

  // ── Paging ───────────────────────────────────────────────────────────────

  function Least(a: nat, b: nat): nat { if a < b then a else b }

  /** Rows `skip` up to but not including `skip + limit`. */
  function Page(rows: seq<Row>, skip: Option<nat>, limit: Option<nat>): seq<Row> {
    var from := Least(if skip.Some? then skip.value else 0, |rows|);
    rows[from..if limit.Some? then Least(from + limit.value, |rows|) else |rows|]
  }

  /** Row `i` of a page is row `skip + i`; the page ends with the rows or after `limit`
      of them. */
  lemma PageIs(rows: seq<Row>, skip: Option<nat>, limit: Option<nat>, i: nat)
    ensures var s := if skip.Some? then skip.value else 0;
            (i < |Page(rows, skip, limit)| <==> s + i < |rows| && (limit.Some? ==> i < limit.value)) &&
            (i < |Page(rows, skip, limit)| ==> Page(rows, skip, limit)[i] == rows[s + i])
  {}

  /** Some arrangement of `rows`: as they came when nothing is sorted by, and
      their stable sort when the sort columns can be ordered. */
  ghost predicate Arranged(rows: seq<Row>, out: seq<Row>, orderBy: seq<OrderSpec>, render: Uuid -> Bytes) {
    multiset(out) == multiset(rows) &&
    (orderBy == [] ==> out == rows) &&
    (Sortable(rows, orderBy, render) ==> StableSortOf(RowsLe(orderBy, render), rows, out))
  }

  lemma SortableIsPreorder(rows: seq<Row>, orderBy: seq<OrderSpec>, render: Uuid -> Bytes)
    requires Sortable(rows, orderBy, render)
    ensures TotalPreorder(RowsLe(orderBy, render), rows)
  {
    var le := RowsLe(orderBy, render);
    forall a, b | a in rows && b in rows ensures le(a, b) || le(b, a) { RowsReverse(a, b, orderBy, render); }
    forall a, b, c | a in rows && b in rows && c in rows && le(a, b) && le(b, c) ensures le(a, c) {
      RowsTransitive(rows, a, b, c, orderBy, render);
    }
  }

  /** On sortable columns the arrangement, and with it every page, is determined. */
  lemma ArrangementUnique(rows: seq<Row>, a: seq<Row>, b: seq<Row>, orderBy: seq<OrderSpec>, render: Uuid -> Bytes)
    requires Sortable(rows, orderBy, render) && Arranged(rows, a, orderBy, render) && Arranged(rows, b, orderBy, render)
    ensures a == b
  {
    var le := RowsLe(orderBy, render);
    SortableIsPreorder(rows, orderBy, render);
    assert forall x :: x in a ==> x in multiset(a);
    assert forall x :: x in multiset(rows) ==> x in rows;
    PreorderWithin(le, rows, a);
    StableSortUnique(le, a, b);
  }

  lemma ArrangementExists(rows: seq<Row>, orderBy: seq<OrderSpec>, render: Uuid -> Bytes)
    ensures Arranged(rows, if orderBy == [] then rows else StableSort(RowsLe(orderBy, render), rows), orderBy, render)
  {
    var le := RowsLe(orderBy, render);
    SortMembers(le, rows);
    if Sortable(rows, orderBy, render) {
      SortableIsPreorder(rows, orderBy, render);
      StableSortSorts(le, rows);
    }
  }

  lemma {:induction false} SortMembers(le: (Row, Row) -> bool, rows: seq<Row>)
    ensures multiset(StableSort(le, rows)) == multiset(rows)
  {
    if rows != [] {
      assert rows == [rows[0]] + rows[1..];
      SortMembers(le, rows[1..]);
      InsertMembers(le, rows[0], StableSort(le, rows[1..]));
    }
  }

  /** Pages of one arrangement cut it up without gap or overlap. */
  lemma PagesJoin(rows: seq<Row>, skip: nat, first: nat, second: Option<nat>)
    ensures Page(rows, Some(skip), Some(first)) + Page(rows, Some(skip + first), second) ==
            Page(rows, Some(skip), if second.Some? then Some(first + second.value) else None)
  {
    var a, b := Least(skip, |rows|), Least(skip + first, |rows|);
    var c := if second.Some? then Least(b + second.value, |rows|) else |rows|;
    assert Least(a + first, |rows|) == b;
    assert rows[a..b] + rows[b..c] == rows[a..c];
  }

  /** `page` is a page of an arrangement of `rows`. */
  ghost predicate IsPage(page: seq<Row>, rows: seq<Row>, orderBy: seq<OrderSpec>, skip: Option<nat>,
      limit: Option<nat>, render: Uuid -> Bytes) {
    exists arranged :: Arranged(rows, arranged, orderBy, render) && page == Page(arranged, skip, limit)
  }

  /** The result rows, arranged and cut down in place. */
  class ResultRows {
    var rows: seq<Row>

    constructor (initial: seq<Row>)
      ensures rows == initial
    {
      rows := initial;
    }

    method Sort(orderBy: seq<OrderSpec>, render: Uuid -> Bytes)
      modifies this
      ensures Arranged(old(rows), rows, orderBy, render)
    {
      ArrangementExists(rows, orderBy, render);
      if orderBy != [] {
        rows := StableSort(RowsLe(orderBy, render), rows);
      }
    }

    method Cut(skip: Option<nat>, limit: Option<nat>)
      modifies this
      ensures rows == Page(old(rows), skip, limit)
    {
      if skip.Some? {
        if skip.value >= |rows| {
          rows := [];
          return;
        }
        rows := rows[skip.value..];
      }
      if limit.Some? && limit.value < |rows| {
        rows := rows[..limit.value];
      }
    }

    method OrderSkipLimit(orderBy: seq<OrderSpec>, skip: Option<nat>, limit: Option<nat>, render: Uuid -> Bytes)
      modifies this
      ensures IsPage(rows, old(rows), orderBy, skip, limit, render)
    {
      Sort(orderBy, render);
      Cut(skip, limit);
    }
  }

  /** The rows before sorting: the groups, or the bindings themselves when
      nothing is aggregated. */
  predicate AreRows(rows: seq<Row>, bs: seq<Bindings>, keys: seq<string>, specs: seq<AggregationSpec>) {
    if specs == [] then |rows| == |bs| && forall i :: 0 <= i < |bs| ==> rows[i] == Row(bs[i], map[])
    else Grouped(rows, bs, keys, specs)
  }

  /** Group unless there is nothing to aggregate, then sort and cut. */
  method ApplyAggregations(bs: seq<Bindings>, keys: seq<string>, specs: seq<AggregationSpec>, orderBy: seq<OrderSpec>,
                           skip: Option<nat>, limit: Option<nat>, render: Uuid -> Bytes)
      returns (page: seq<Row>)
    requires |bs| <= MAX_ROWS
    ensures exists rows :: AreRows(rows, bs, keys, specs) && IsPage(page, rows, orderBy, skip, limit, render)
  {
    var rows;
    if specs == [] {
      rows := seq(|bs|, i requires 0 <= i < |bs| => Row(bs[i], map[]));
    } else {
      rows := GroupRows(bs, keys, specs);
    }
    var result := new ResultRows(rows);
    result.OrderSkipLimit(orderBy, skip, limit, render);
    page := result.rows;
  }
}
