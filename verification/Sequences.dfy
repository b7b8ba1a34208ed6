/** Filters, partial maps and flattening over sequences: the iterator chains
    (`filter`, `filter_map`, `flat_map`) the query engine is written with. */
module Sequences {

  datatype Option<+T> = None | Some(value: T)

  function Filter<T>(keep: T -> bool, s: seq<T>): (r: seq<T>)
  {
    if s == [] then [] else (if keep(s[0]) then [s[0]] else []) + Filter(keep, s[1..])
  }

  function FilterMap<T, U>(f: T -> Option<U>, s: seq<T>): (r: seq<U>)
  {
    if s == [] then [] else
      (match f(s[0]) case Some(y) => [y] case None => []) + FilterMap(f, s[1..])
  }

  function FlatMap<T, U>(f: T -> seq<U>, s: seq<T>): (r: seq<U>)
  {
    if s == [] then [] else f(s[0]) + FlatMap(f, s[1..])
  }

  lemma FilterOne<T>(keep: T -> bool, x: T)
    ensures Filter(keep, [x]) == if keep(x) then [x] else []
  {
    assert [x][1..] == [];
  }

  lemma {:induction false} FilterConcat<T>(keep: T -> bool, a: seq<T>, b: seq<T>)
    ensures Filter(keep, a + b) == Filter(keep, a) + Filter(keep, b)
  {
    if a == [] {
      assert a + b == b;
    } else {
      var head := if keep(a[0]) then [a[0]] else [];
      assert (a + b)[0] == a[0] && (a + b)[1..] == a[1..] + b;
      assert Filter(keep, a + b) == head + Filter(keep, a[1..] + b);
      FilterConcat(keep, a[1..], b);
      assert head + (Filter(keep, a[1..]) + Filter(keep, b)) == (head + Filter(keep, a[1..])) + Filter(keep, b);
    }
  }

  lemma {:induction false} FilterPermutes<T(!new)>(keep: T -> bool, a: seq<T>, b: seq<T>)
    requires multiset(a) == multiset(b)
    ensures multiset(Filter(keep, a)) == multiset(Filter(keep, b))
  {
    if a == [] {
      assert |b| == |multiset(b)| == |multiset(a)| == 0;
    } else {
      var before, after := PeelPermutation(a, b);
      FilterPermutes(keep, a[1..], before + after);
      FilterConcat(keep, before + [a[0]], after);
      FilterConcat(keep, before, [a[0]]);
      FilterConcat(keep, before, after);
      FilterOne(keep, a[0]);
    }
  }

  lemma {:induction false} FilterCount<T>(keep: T -> bool, s: seq<T>, x: T)
    ensures multiset(Filter(keep, s))[x] == if keep(x) then multiset(s)[x] else 0
  {
    if s != [] {
      FilterCount(keep, s[1..], x);
      assert s == [s[0]] + s[1..];
    }
  }

  lemma {:induction false} FilterMember<T>(keep: T -> bool, s: seq<T>, x: T)
    ensures x in Filter(keep, s) <==> x in s && keep(x)
  {
    if s != [] {
      FilterMember(keep, s[1..], x);
      assert x in s <==> x == s[0] || x in s[1..];
    }
  }

  lemma {:induction false} FilterMapMember<T(!new), U>(f: T -> Option<U>, s: seq<T>, y: U)
    ensures y in FilterMap(f, s) <==> exists x :: x in s && f(x) == Some(y)
  {
    if s != [] {
      FilterMapMember(f, s[1..], y);
      assert forall x :: x in s <==> x == s[0] || x in s[1..];
    }
  }

  /** Results of a partial map come from elements in the same order. */
  lemma {:induction false} FilterMapIndices<T(!new), U>(f: T -> Option<U>, s: seq<T>, i: nat, j: nat)
      returns (a: nat, b: nat)
    requires i < j < |FilterMap(f, s)|
    ensures a < b < |s| && f(s[a]) == Some(FilterMap(f, s)[i]) && f(s[b]) == Some(FilterMap(f, s)[j])
  {
    var head := if f(s[0]).Some? then 1 else 0;
    if i >= head {
      a, b := FilterMapIndices(f, s[1..], i - head, j - head);
      a, b := a + 1, b + 1;
    } else {
      a := 0;
      b := FilterMapIndex(f, s[1..], j - 1);
      b := b + 1;
    }
  }

  lemma {:induction false} FilterMapIndex<T(!new), U>(f: T -> Option<U>, s: seq<T>, i: nat) returns (a: nat)
    requires i < |FilterMap(f, s)|
    ensures a < |s| && f(s[a]) == Some(FilterMap(f, s)[i])
  {
    var head := if f(s[0]).Some? then 1 else 0;
    if i >= head {
      a := FilterMapIndex(f, s[1..], i - head);
      a := a + 1;
    } else {
      a := 0;
    }
  }

  /** Filtering first and mapping second is one pass of a combined map. */
  lemma {:induction false} FilterThenMap<T(!new), U>(keep: T -> bool, f: T -> Option<U>, g: T -> Option<U>, s: seq<T>)
    requires forall x :: x in s ==> g(x) == if keep(x) then f(x) else None
    ensures FilterMap(f, Filter(keep, s)) == FilterMap(g, s)
  {
    if s != [] {
      assert forall x :: x in s[1..] ==> x in s;
      FilterThenMap(keep, f, g, s[1..]);
      assert s[0] in s;
      if keep(s[0]) {
        var kept := Filter(keep, s);
        assert kept[0] == s[0] && kept[1..] == Filter(keep, s[1..]);
      } else {
        assert Filter(keep, s) == Filter(keep, s[1..]);
      }
    }
  }

  /** Two successive filters are one. */
  lemma {:induction false} FilterTwice<T(!new)>(p: T -> bool, q: T -> bool, r: T -> bool, s: seq<T>)
    requires forall x :: x in s ==> (r(x) <==> p(x) && q(x))
    ensures Filter(p, Filter(q, s)) == Filter(r, s)
  {
    if s != [] {
      assert forall x :: x in s[1..] ==> x in s;
      FilterTwice(p, q, r, s[1..]);
      assert s[0] in s;
      if q(s[0]) {
        var kept := Filter(q, s);
        assert kept[0] == s[0] && kept[1..] == Filter(q, s[1..]);
      } else {
        assert Filter(q, s) == Filter(q, s[1..]);
      }
    }
  }

  lemma {:induction false} FilterSame<T(!new)>(p: T -> bool, q: T -> bool, s: seq<T>)
    requires forall x :: x in s ==> (p(x) <==> q(x))
    ensures Filter(p, s) == Filter(q, s)
  {
    if s != [] {
      assert forall x :: x in s[1..] ==> x in s;
      FilterSame(p, q, s[1..]);
      assert s[0] in s;
    }
  }

  lemma {:induction false} FilterMapSame<T(!new), U>(f: T -> Option<U>, g: T -> Option<U>, s: seq<T>)
    requires forall x :: x in s ==> f(x) == g(x)
    ensures FilterMap(f, s) == FilterMap(g, s)
  {
    if s != [] {
      assert forall x :: x in s[1..] ==> x in s;
      FilterMapSame(f, g, s[1..]);
      assert s[0] in s;
    }
  }

  lemma {:induction false} FlatMapSame<T(!new), U>(f: T -> seq<U>, g: T -> seq<U>, s: seq<T>)
    requires forall x :: x in s ==> f(x) == g(x)
    ensures FlatMap(f, s) == FlatMap(g, s)
  {
    if s != [] {
      assert forall x :: x in s[1..] ==> x in s;
      FlatMapSame(f, g, s[1..]);
      assert s[0] in s;
    }
  }

  /** Mapping twice is mapping once by the composition. */
  lemma {:induction false} FilterMapCompose<T(!new), U, W>(f: T -> Option<U>, g: U -> Option<W>, h: T -> Option<W>,
      s: seq<T>)
    requires forall x :: x in s ==> h(x) == match f(x) case None => None case Some(y) => g(y)
    ensures FilterMap(g, FilterMap(f, s)) == FilterMap(h, s)
  {
    if s != [] {
      assert forall x :: x in s[1..] ==> x in s;
      FilterMapCompose(f, g, h, s[1..]);
      assert s[0] in s;
      var inner := FilterMap(f, s);
      if f(s[0]).Some? {
        assert inner[0] == f(s[0]).value && inner[1..] == FilterMap(f, s[1..]);
      } else {
        assert inner == FilterMap(f, s[1..]);
      }
    }
  }

  lemma {:induction false} FilterMapConcat<T, U>(f: T -> Option<U>, a: seq<T>, b: seq<T>)
    ensures FilterMap(f, a + b) == FilterMap(f, a) + FilterMap(f, b)
  {
    if a == [] {
      assert a + b == b;
    } else {
      assert (a + b)[0] == a[0] && (a + b)[1..] == a[1..] + b;
      FilterMapConcat(f, a[1..], b);
    }
  }

  lemma FilterMapOne<T, U>(f: T -> Option<U>, x: T)
    ensures FilterMap(f, [x]) == match f(x) case Some(y) => [y] case None => []
  {
    assert [x][1..] == [];
  }

  /** Reordering the input of a filtered map only reorders its output. */
  lemma {:induction false} FilterMapPermutes<T(!new), U>(f: T -> Option<U>, a: seq<T>, b: seq<T>)
    requires multiset(a) == multiset(b)
    ensures multiset(FilterMap(f, a)) == multiset(FilterMap(f, b))
  {
    if a == [] {
      assert |b| == |multiset(b)| == |multiset(a)| == 0;
    } else {
      var before, after := PeelPermutation(a, b);
      FilterMapPermutes(f, a[1..], before + after);
      FilterMapConcat(f, before + [a[0]], after);
      FilterMapConcat(f, before, [a[0]]);
      FilterMapConcat(f, before, after);
      FilterMapOne(f, a[0]);
    }
  }

  /** Mapping over a flattening is flattening the mapped pieces. */
  lemma {:induction false} FilterMapFlatMap<T(!new), U, W>(f: T -> seq<U>, g: U -> Option<W>, h: T -> seq<W>, s: seq<T>)
    requires forall x :: x in s ==> h(x) == FilterMap(g, f(x))
    ensures FilterMap(g, FlatMap(f, s)) == FlatMap(h, s)
  {
    if s != [] {
      assert forall x :: x in s[1..] ==> x in s;
      FilterMapFlatMap(f, g, h, s[1..]);
      assert s[0] in s;
      FilterMapConcat(g, f(s[0]), FlatMap(f, s[1..]));
    }
  }

  /** When at most one element contributes, only its occurrence matters. */
  predicate Distinct<T(==)>(s: seq<T>) { forall i, j :: 0 <= i < j < |s| ==> s[i] != s[j] }

  lemma DistinctPeels<T>(s: seq<T>)
    requires s != [] && Distinct(s)
    ensures Distinct(s[1..]) && s[0] !in s[1..]
  {}

  lemma {:induction false} FlatMapSingle<T(!new), U>(f: T -> seq<U>, s: seq<T>, x: T)
    requires Distinct(s)
    requires forall y :: y in s && y != x ==> f(y) == []
    ensures FlatMap(f, s) == if x in s then f(x) else []
  {
    hide Distinct;
    if s != [] {
      DistinctPeels(s);
      assert s == [s[0]] + s[1..];
      FlatMapSingle(f, s[1..], x);
    }
  }

  lemma {:induction false} FilterAll<T(!new)>(p: T -> bool, s: seq<T>)
    requires forall x :: x in s ==> p(x)
    ensures Filter(p, s) == s
  {
    if s != [] {
      assert forall x :: x in s[1..] ==> x in s;
      FilterAll(p, s[1..]);
      assert s[0] in s;
    }
  }

  lemma FlatMapOne<T, U>(f: T -> seq<U>, x: T)
    ensures FlatMap(f, [x]) == f(x)
  {
    assert [x][1..] == [];
  }

  lemma {:induction false} FlatMapConcat<T(!new), U(!new)>(f: T -> seq<U>, a: seq<T>, b: seq<T>)
    ensures FlatMap(f, a + b) == FlatMap(f, a) + FlatMap(f, b)
  {
    if a == [] {
      assert a + b == b;
    } else {
      assert (a + b)[0] == a[0] && (a + b)[1..] == a[1..] + b;
      FlatMapConcat(f, a[1..], b);
    }
  }

  lemma FlatMapMember<T(!new), U(!new)>(f: T -> seq<U>, s: seq<T>, y: U)
    ensures y in FlatMap(f, s) <==> exists x :: x in s && y in f(x)
  {
    if s != [] {
      FlatMapMember(f, s[1..], y);
      assert forall x :: x in s <==> x == s[0] || x in s[1..];
    }
  }

  /** Reordering the input of a flattening only reorders its output. */
  lemma {:induction false} FlatMapPermutes<T(!new), U(!new)>(f: T -> seq<U>, a: seq<T>, b: seq<T>)
    requires multiset(a) == multiset(b)
    ensures multiset(FlatMap(f, a)) == multiset(FlatMap(f, b))
  {
    if a == [] {
      assert |b| == |multiset(b)| == |multiset(a)| == 0;
    } else {
      var before, after := PeelPermutation(a, b);
      FlatMapPermutes(f, a[1..], before + after);
      FlatMapConcat(f, before + [a[0]], after);
      FlatMapConcat(f, before, [a[0]]);
      FlatMapConcat(f, before, after);
      FlatMapOne(f, a[0]);
    }
  }

  /** Where a permutation puts the first element. */
  lemma PeelPermutation<T(!new)>(a: seq<T>, b: seq<T>) returns (before: seq<T>, after: seq<T>)
    requires a != [] && multiset(a) == multiset(b)
    ensures b == before + [a[0]] + after && multiset(a[1..]) == multiset(before + after)
  {
    assert a[0] in multiset(b);
    var k :| 0 <= k < |b| && b[k] == a[0];
    before, after := b[..k], b[k + 1..];
    WithoutOne(a, 0);
    WithoutOne(b, k);
    assert a[..0] + a[1..] == a[1..];
  }

  lemma WithoutOne<T>(s: seq<T>, k: nat)
    requires k < |s|
    ensures s == s[..k] + [s[k]] + s[k + 1..] && multiset(s[..k] + s[k + 1..]) == multiset(s) - multiset{s[k]}
  {
    assert s == s[..k] + [s[k]] + s[k + 1..];
  }

  /** An arbitrary but fixed order of a set's elements, standing for the order
      in which a hash set happens to iterate. */
  ghost function Listed<T(!new)>(s: set<T>): (r: seq<T>)
    ensures multiset(r) == multiset(s)
    ensures forall x :: x in r <==> x in s
    ensures forall i, j :: 0 <= i < j < |r| ==> r[i] != r[j]
  {
    if s == {} then [] else
      var x :| x in s;
      var rest := Listed(s - {x});
      assert multiset(s) == multiset{x} + multiset(s - {x});
      [x] + rest
  }
}
