/** What the order of a page is, read off its cells: numbers by size, text byte by
    byte, false before true, missing cells first, and descending columns the other
    way round (crates/polargraph-query/src/aggregation.rs). */
module PageOrder {
  import opened Sequences
  import opened Values
  import opened Aggregation
  import opened Paging

  // ── The number a float stands for ────────────────────────────────────────

  const FRACTION: nat := 0x10_0000_0000_0000
  const SIGN: nat := 0x8000_0000_0000_0000

  function Pow2(k: nat): nat { if k == 0 then 1 else 2 * Pow2(k - 1) }

  /** The absolute value of an IEEE 754 double, as a multiple of the least positive
      one; infinity is where the next larger double would be. */
  function Magnitude(bits: nat): nat {
    var exponent, fraction := bits / FRACTION, bits % FRACTION;
    if exponent == 0 then fraction else (FRACTION + fraction) * Pow2(exponent - 1)
  }

  function Number(f: Float64): int { if f < SIGN then Magnitude(f) else 0 - Magnitude(f - SIGN) }

  lemma {:induction false} Pow2Grows(j: nat, k: nat)
    requires j <= k
    ensures 0 < Pow2(j) <= Pow2(k)
    decreases k
  {
    if j < k { Pow2Grows(j, k - 1); } else { Pow2Positive(j); }
  }

  lemma {:induction false} Pow2Positive(k: nat)
    ensures Pow2(k) > 0
  {
    if k > 0 { Pow2Positive(k - 1); }
  }

  lemma MulGrows(a: nat, b: nat, p: nat)
    requires a < b && p > 0
    ensures a * p < b * p
  {}

  lemma MulKeeps(a: nat, p: nat, q: nat)
    requires p <= q
    ensures a * p <= a * q
  {}

  /** Below the first double with a larger exponent. */
  lemma MagnitudeBelow(bits: nat, exponent: nat)
    requires bits / FRACTION < exponent
    ensures Magnitude(bits) < FRACTION * Pow2(exponent - 1)
  {
    var e, m := bits / FRACTION, bits % FRACTION;
    if e == 0 {
      Pow2Grows(0, exponent - 1);
      MulKeeps(FRACTION, 1, Pow2(exponent - 1));
    } else {
      Pow2Grows(e, exponent - 1);
      Pow2Positive(e - 1);
      MulGrows(FRACTION + m, 2 * FRACTION, Pow2(e - 1));
      assert 2 * FRACTION * Pow2(e - 1) == FRACTION * Pow2(e);
      MulKeeps(FRACTION, Pow2(e), Pow2(exponent - 1));
    }
  }

  lemma MagnitudeAbove(bits: nat, exponent: nat)
    requires exponent > 0 && bits / FRACTION == exponent
    ensures FRACTION * Pow2(exponent - 1) <= Magnitude(bits)
  {
    MulKeeps(Pow2(exponent - 1), FRACTION, FRACTION + bits % FRACTION);
  }

  /** Without their sign, doubles are ordered as their bit patterns are. */
  lemma MagnitudeGrows(a: nat, b: nat)
    requires a < b
    ensures Magnitude(a) < Magnitude(b)
  {
    var ea, eb := a / FRACTION, b / FRACTION;
    if ea == eb {
      assert a % FRACTION < b % FRACTION;
      if ea > 0 {
        Pow2Positive(ea - 1);
        MulGrows(FRACTION + a % FRACTION, FRACTION + b % FRACTION, Pow2(ea - 1));
      }
    } else {
      MagnitudeBelow(a, eb);
      MagnitudeAbove(b, eb);
    }
  }

  lemma MagnitudeOrder(a: nat, b: nat)
    ensures Magnitude(a) <= Magnitude(b) <==> a <= b
  {
    if a < b { MagnitudeGrows(a, b); }
    if b < a { MagnitudeGrows(b, a); }
  }

  /** The rank floats are compared by orders them as numbers. */
  lemma RankIsNumber(f: Float64, g: Float64)
    ensures FloatRank(f) <= FloatRank(g) <==> Number(f) <= Number(g)
  {
    hide Magnitude;
    assert Magnitude(0) == 0 by { ZeroMagnitude(); }
    var a, b := f % SIGN, g % SIGN;
    MagnitudeOrder(a, b);
    MagnitudeOrder(b, a);
    MagnitudeOrder(a, 0);
    MagnitudeOrder(b, 0);
    assert f < SIGN ==> a == f;
    assert f >= SIGN ==> a == f - SIGN;
    assert g < SIGN ==> b == g;
    assert g >= SIGN ==> b == g - SIGN;
  }

  lemma ZeroMagnitude()
    ensures Magnitude(0) == 0
  {}

  // ── The order of cells ───────────────────────────────────────────────────

  /** `x` is a beginning of `y`, or smaller at the first byte where they differ. */
  predicate Lexical(x: Bytes, y: Bytes) {
    x <= y || exists k :: 0 <= k < |x| && k < |y| && x[..k] == y[..k] && x[k] < y[k]
  }

  lemma {:induction false} BytesLexical(x: Bytes, y: Bytes)
    ensures CompareBytes(x, y) != Greater <==> Lexical(x, y)
  {
    if x != [] && y != [] {
      if x[0] == y[0] {
        BytesLexical(x[1..], y[1..]);
        LexicalPeels(x, y);
      } else if x[0] < y[0] {
        assert x[..0] == y[..0];
      } else if k :| 0 <= k < |x| && k < |y| && x[..k] == y[..k] && x[k] < y[k] {
        if k > 0 { SameFirst(x, y, k); }
      }
    }
  }

  lemma SameFirst(x: Bytes, y: Bytes, k: nat)
    requires 0 < k <= |x| && k <= |y| && x[..k] == y[..k]
    ensures x[0] == y[0]
  {
    assert x[0] == x[..k][0] && y[0] == y[..k][0];
  }

  lemma LexicalPeels(x: Bytes, y: Bytes)
    requires x != [] && y != [] && x[0] == y[0]
    ensures Lexical(x, y) <==> Lexical(x[1..], y[1..])
  {
    var x', y' := x[1..], y[1..];
    assert x == [x[0]] + x' && y == [y[0]] + y';
    if k :| 0 <= k < |x| && k < |y| && x[..k] == y[..k] && x[k] < y[k] {
      assert x'[..k - 1] == x[..k][1..] == y[..k][1..] == y'[..k - 1];
      assert x'[k - 1] < y'[k - 1];
    }
    if k :| 0 <= k < |x'| && k < |y'| && x'[..k] == y'[..k] && x'[k] < y'[k] {
      assert x[..k + 1] == [x[0]] + x'[..k] == [y[0]] + y'[..k] == y[..k + 1];
      assert x[k + 1] < y[k + 1];
    }
  }

  /** Missing cells come first; integers and floats by size, text byte by byte, false
      before true; other pairs either way. */
  predicate Ascends(a: Option<Value>, b: Option<Value>) {
    match (a, b)
    case (None, _) => true
    case (Some(_), None) => false
    case (Some(v), Some(w)) =>
      match (v, w)
      case (Int(x), Int(y)) => x <= y
      case (Float(x), Float(y)) => Number(x) <= Number(y)
      case (Text(x), Text(y)) => Lexical(x, y)
      case (Bool(x), Bool(y)) => x ==> y
      case _ => true
  }

  lemma LeIsAscends(a: Option<Value>, b: Option<Value>)
    ensures CompareValues(a, b) != Greater <==> Ascends(a, b)
  {
    if a.Some? && b.Some? {
      match (a.value, b.value)
      case (Float(x), Float(y)) => RankIsNumber(x, y);
      case (Text(x), Text(y)) => BytesLexical(x, y);
      case _ =>
    }
  }

  predicate InDirection(a: Option<Value>, b: Option<Value>, d: SortDir) {
    match d
    case Asc => Ascends(a, b)
    case Desc => Ascends(b, a)
  }

  /** The same cell, or cells of no common comparable type. */
  predicate Ties(a: Option<Value>, b: Option<Value>) {
    a == b || (a.Some? && b.Some? && !Comparable(a.value, b.value))
  }

  // ── The order of rows ────────────────────────────────────────────────────

  predicate TieOn(a: Row, b: Row, orderBy: seq<OrderSpec>, k: nat, render: Uuid -> Bytes)
    requires k < |orderBy|
  {
    Ties(SortKey(a, orderBy[k].key, render), SortKey(b, orderBy[k].key, render))
  }

  predicate TieBefore(a: Row, b: Row, orderBy: seq<OrderSpec>, k: nat, render: Uuid -> Bytes)
    requires k <= |orderBy|
  {
    forall m :: 0 <= m < k ==> TieOn(a, b, orderBy, m, render)
  }

  predicate OrderedOn(a: Row, b: Row, orderBy: seq<OrderSpec>, k: nat, render: Uuid -> Bytes)
    requires k < |orderBy|
  {
    InDirection(SortKey(a, orderBy[k].key, render), SortKey(b, orderBy[k].key, render), orderBy[k].direction)
  }

  /** On the first column in which the rows do not tie they are in its direction. */
  predicate InOrder(a: Row, b: Row, orderBy: seq<OrderSpec>, render: Uuid -> Bytes) {
    forall k :: 0 <= k < |orderBy| && TieBefore(a, b, orderBy, k, render) ==> OrderedOn(a, b, orderBy, k, render)
  }

  lemma FirstCell(a: Row, b: Row, spec: OrderSpec, render: Uuid -> Bytes)
    ensures var x, y := SortKey(a, spec.key, render), SortKey(b, spec.key, render);
            var o := Directed(CompareValues(x, y), spec.direction);
            (o != Greater <==> InDirection(x, y, spec.direction)) && (o == Equal <==> Ties(x, y))
  {
    var x, y := SortKey(a, spec.key, render), SortKey(b, spec.key, render);
    LeIsAscends(x, y);
    LeIsAscends(y, x);
    ValuesReverse(x, y);
    TiedExactly(x, y);
  }

  lemma InOrderPeels(a: Row, b: Row, orderBy: seq<OrderSpec>, render: Uuid -> Bytes)
    requires orderBy != []
    ensures InOrder(a, b, orderBy, render)
       <==> OrderedOn(a, b, orderBy, 0, render) &&
            (TieOn(a, b, orderBy, 0, render) ==> InOrder(a, b, orderBy[1..], render))
  {
    hide Ties, InDirection;
    var rest := orderBy[1..];
    forall k | 0 <= k < |rest|
      ensures TieBefore(a, b, orderBy, k + 1, render)
         <==> TieOn(a, b, orderBy, 0, render) && TieBefore(a, b, rest, k, render)
      ensures OrderedOn(a, b, orderBy, k + 1, render) <==> OrderedOn(a, b, rest, k, render)
    {
      TieBeforePeels(a, b, orderBy, k, render);
    }
    if InOrder(a, b, orderBy, render) {
      assert TieBefore(a, b, orderBy, 0, render);
      forall k | TieOn(a, b, orderBy, 0, render) && 0 <= k < |rest| && TieBefore(a, b, rest, k, render)
        ensures OrderedOn(a, b, rest, k, render)
      {
        assert OrderedOn(a, b, orderBy, k + 1, render);
      }
    }
    if OrderedOn(a, b, orderBy, 0, render) && (TieOn(a, b, orderBy, 0, render) ==> InOrder(a, b, rest, render)) {
      forall k | 0 <= k < |orderBy| && TieBefore(a, b, orderBy, k, render) ensures OrderedOn(a, b, orderBy, k, render) {
        if k > 0 { assert OrderedOn(a, b, rest, k - 1, render); }
      }
    }
  }

  lemma TieBeforePeels(a: Row, b: Row, orderBy: seq<OrderSpec>, k: nat, render: Uuid -> Bytes)
    requires k < |orderBy|
    ensures TieBefore(a, b, orderBy, k + 1, render)
       <==> TieOn(a, b, orderBy, 0, render) && TieBefore(a, b, orderBy[1..], k, render)
  {
    var rest := orderBy[1..];
    assert forall m :: 0 <= m < k ==> (TieOn(a, b, rest, m, render) <==> TieOn(a, b, orderBy, m + 1, render));
    if TieOn(a, b, orderBy, 0, render) && TieBefore(a, b, rest, k, render) {
      forall m | 0 <= m < k + 1 ensures TieOn(a, b, orderBy, m, render) {
        if m > 0 { assert TieOn(a, b, rest, m - 1, render); }
      }
    }
  }

  /** The comparison of rows, by their cells. */
  lemma {:induction false} RowsInOrder(a: Row, b: Row, orderBy: seq<OrderSpec>, render: Uuid -> Bytes)
    ensures CompareRows(a, b, orderBy, render) != Greater <==> InOrder(a, b, orderBy, render)
    ensures CompareRows(a, b, orderBy, render) == Equal <==> TieBefore(a, b, orderBy, |orderBy|, render)
  {
    hide InOrder, TieBefore, InDirection, Ties, Directed, CompareValues, SortKey;
    if orderBy == [] {
      assert TieBefore(a, b, orderBy, 0, render) && InOrder(a, b, orderBy, render) by { NothingToOrder(a, b, render); }
    } else {
      FirstCell(a, b, orderBy[0], render);
      RowsInOrder(a, b, orderBy[1..], render);
      InOrderPeels(a, b, orderBy, render);
      TieBeforePeels(a, b, orderBy, |orderBy| - 1, render);
    }
  }

  lemma NothingToOrder(a: Row, b: Row, render: Uuid -> Bytes)
    ensures TieBefore(a, b, [], 0, render) && InOrder(a, b, [], render)
  {}

  // ── Pages ────────────────────────────────────────────────────────────────

  lemma PageSorted(page: seq<Row>, rows: seq<Row>, orderBy: seq<OrderSpec>, skip: Option<nat>, limit: Option<nat>,
      render: Uuid -> Bytes, i: nat, j: nat)
    requires IsPage(page, rows, orderBy, skip, limit, render) && Sortable(rows, orderBy, render) && i < j < |page|
    ensures CompareRows(page[i], page[j], orderBy, render) != Greater
  {
    hide CompareRows, Page, Filter, Sortable;
    var arranged :| Arranged(rows, arranged, orderBy, render) && page == Page(arranged, skip, limit);
    var from := PageFrom(arranged, skip, limit, i, j);
    assert RowsLe(orderBy, render)(arranged[from + i], arranged[from + j]);
  }

  lemma PageFrom(arranged: seq<Row>, skip: Option<nat>, limit: Option<nat>, i: nat, j: nat) returns (from: nat)
    requires i < j < |Page(arranged, skip, limit)|
    ensures from + j < |arranged| && Page(arranged, skip, limit)[i] == arranged[from + i] &&
            Page(arranged, skip, limit)[j] == arranged[from + j]
  {
    from := Least(if skip.Some? then skip.value else 0, |arranged|);
  }

  /** Of two rows of a page the earlier one is not behind the later: on the first sort
      column in which they do not tie, its cell comes first in that column's
      direction. */
  lemma PageInOrder(page: seq<Row>, rows: seq<Row>, orderBy: seq<OrderSpec>, skip: Option<nat>, limit: Option<nat>,
      render: Uuid -> Bytes, i: nat, j: nat)
    requires IsPage(page, rows, orderBy, skip, limit, render) && Sortable(rows, orderBy, render) && i < j < |page|
    ensures InOrder(page[i], page[j], orderBy, render)
  {
    PageSorted(page, rows, orderBy, skip, limit, render, i, j);
    RowsInOrder(page[i], page[j], orderBy, render);
  }

  predicate Missing(row: Row, key: string) { key !in row.aggValues && key !in row.groupKeys }

  /** The first sort column of a page, cell by cell: an aggregate if there is one
      under the key, or else a grouping variable as text. */
  lemma FirstColumnInOrder(page: seq<Row>, rows: seq<Row>, orderBy: seq<OrderSpec>, skip: Option<nat>,
      limit: Option<nat>, render: Uuid -> Bytes, i: nat, j: nat)
    requires IsPage(page, rows, orderBy, skip, limit, render) && Sortable(rows, orderBy, render) && i < j < |page|
    requires orderBy != []
    ensures var key, a, b := orderBy[0].key,
                             if orderBy[0].direction.Asc? then page[i] else page[j],
                             if orderBy[0].direction.Asc? then page[j] else page[i];
            (Missing(b, key) ==> Missing(a, key)) &&
            (key in a.aggValues && key in b.aggValues ==>
               match (a.aggValues[key], b.aggValues[key])
               case (Int(x), Int(y)) => x <= y
               case (Float(x), Float(y)) => Number(x) <= Number(y)
               case (Text(x), Text(y)) => Lexical(x, y)
               case (Bool(x), Bool(y)) => x ==> y
               case _ => true) &&
            (key !in a.aggValues && key !in b.aggValues && key in a.groupKeys && key in b.groupKeys ==>
               Lexical(render(a.groupKeys[key]), render(b.groupKeys[key])))
  {
    PageInOrder(page, rows, orderBy, skip, limit, render, i, j);
    assert TieBefore(page[i], page[j], orderBy, 0, render);
    assert OrderedOn(page[i], page[j], orderBy, 0, render);
  }

  function TiesWith(x: Row, orderBy: seq<OrderSpec>, render: Uuid -> Bytes): Row -> bool {
    (y: Row) => TieBefore(x, y, orderBy, |orderBy|, render)
  }

  /** Rows that tie in every sort column keep the order they came in. */
  lemma TiesKeepOrder(rows: seq<Row>, arranged: seq<Row>, orderBy: seq<OrderSpec>, render: Uuid -> Bytes, x: Row)
    requires Arranged(rows, arranged, orderBy, render) && Sortable(rows, orderBy, render) && x in rows
    ensures Filter(TiesWith(x, orderBy, render), arranged) == Filter(TiesWith(x, orderBy, render), rows)
  {
    var ties, tied := TiesWith(x, orderBy, render), Tied(RowsLe(orderBy, render), x);
    forall y ensures ties(y) == tied(y) {
      RowsInOrder(x, y, orderBy, render);
      RowsReverse(x, y, orderBy, render);
    }
    FilterSame(ties, tied, arranged);
    FilterSame(ties, tied, rows);
  }
}
