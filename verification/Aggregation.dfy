/** Grouping, sorting and paging of result rows
    (crates/polargraph-query/src/aggregation.rs). */
module Aggregation {
  import opened Sequences
  import opened Values

  /** A node id as its 16 bytes spell it. */
  type Uuid = n: nat | n < 0x1_0000_0000_0000_0000_0000_0000_0000_0000

  type Bindings = map<string, Uuid>

  /** `collect`, `sum`, `avg`, `min` and `max` look at a group only through the
      nodes bound to one variable, in order and with repetitions, and combine them:
      into their ids as text, or by reading a number off each and folding. */
  datatype AggFunc = CountStar | Count(counted: string) | Gather(gathered: string, combine: seq<Uuid> -> Value)

  datatype AggregationSpec = AggregationSpec(func: AggFunc, alias: string)

  datatype SortDir = Asc | Desc

  datatype OrderSpec = OrderSpec(key: string, direction: SortDir)

  datatype Row = Row(groupKeys: Bindings, aggValues: map<string, Value>)

  // ── Group keys ───────────────────────────────────────────────────────────

  const ABSENT: Bytes := [0, 0, 0, 0, 0, 0, 0, 0, 0, 0, 0, 0, 0, 0, 0, 0, 0]

  function KeyPart(b: Bindings, k: string): (r: Bytes)
    ensures |r| == 17
  {
    if k in b then [1] + BigEndian(b[k], 16) else ABSENT
  }

  function KeyBytes(b: Bindings, keys: seq<string>): (r: Bytes) {
    if keys == [] then [] else KeyPart(b, keys[0]) + KeyBytes(b, keys[1..])
  }

  lemma {:induction false} KeyBytesSnoc(b: Bindings, keys: seq<string>, k: string)
    ensures KeyBytes(b, keys + [k]) == KeyBytes(b, keys) + KeyPart(b, k)
  {
    if keys == [] {
      assert keys + [k] == [k] && [k][1..] == [];
    } else {
      assert (keys + [k])[1..] == keys[1..] + [k];
      KeyBytesSnoc(b, keys[1..], k);
    }
  }

  method GroupKeyBytes(b: Bindings, keys: seq<string>) returns (out: Bytes)
    ensures out == KeyBytes(b, keys)
  {
    out := [];
    for i := 0 to |keys|
      invariant out == KeyBytes(b, keys[..i])
    {
      assert keys[..i + 1] == keys[..i] + [keys[i]];
      KeyBytesSnoc(b, keys[..i], keys[i]);
      if keys[i] in b {
        out := out + ([1] + BigEndian(b[keys[i]], 16));
      } else {
        out := out + ABSENT;
      }
    }
    assert keys[..|keys|] == keys;
  }

  lemma SixteenBytes()
    ensures Pow256(16) == 0x1_0000_0000_0000_0000_0000_0000_0000_0000
  {
    Widths();
    assert Pow256(9) == 0x100_0000_0000_0000_0000;
    assert Pow256(10) == 0x1_0000_0000_0000_0000_0000;
    assert Pow256(11) == 0x100_0000_0000_0000_0000_0000;
    assert Pow256(12) == 0x1_0000_0000_0000_0000_0000_0000;
    assert Pow256(13) == 0x100_0000_0000_0000_0000_0000_0000;
    assert Pow256(14) == 0x1_0000_0000_0000_0000_0000_0000_0000;
    assert Pow256(15) == 0x100_0000_0000_0000_0000_0000_0000_0000;
  }

  predicate SameOn(a: Bindings, b: Bindings, k: string) {
    (k in a <==> k in b) && (k in a && k in b ==> a[k] == b[k])
  }

  lemma KeyPartInjective(a: Bindings, b: Bindings, k: string)
    ensures KeyPart(a, k) == KeyPart(b, k) <==> SameOn(a, b, k)
  {
    if k in a && k in b && KeyPart(a, k) == KeyPart(b, k) {
      assert KeyPart(a, k)[1..] == BigEndian(a[k], 16) && KeyPart(b, k)[1..] == BigEndian(b[k], 16);
      SixteenBytes();
      BigEndianInjective(a[k], b[k], 16);
    }
    assert k in a ==> KeyPart(a, k)[0] == 1;
    assert k in b ==> KeyPart(b, k)[0] == 1;
  }

  /** Group keys are equal exactly when the two bindings agree on every grouping
      variable, unbound ones included. */
  lemma {:induction false} KeyBytesInjective(a: Bindings, b: Bindings, keys: seq<string>)
    ensures KeyBytes(a, keys) == KeyBytes(b, keys) <==> forall i :: 0 <= i < |keys| ==> SameOn(a, b, keys[i])
  {
    if keys != [] {
      var s, t := KeyBytes(a, keys), KeyBytes(b, keys);
      KeyPartInjective(a, b, keys[0]);
      KeyBytesInjective(a, b, keys[1..]);
      assert s[..17] == KeyPart(a, keys[0]) && s[17..] == KeyBytes(a, keys[1..]);
      assert t[..17] == KeyPart(b, keys[0]) && t[17..] == KeyBytes(b, keys[1..]);
      assert forall i :: 0 < i < |keys| ==> keys[i] == keys[1..][i - 1];
    }
  }

  // ── Buckets ──────────────────────────────────────────────────────────────

  function InBucket(keys: seq<string>, key: Bytes): Bindings -> bool { (b: Bindings) => KeyBytes(b, keys) == key }

  function Bucket(bs: seq<Bindings>, keys: seq<string>, key: Bytes): seq<Bindings> { Filter(InBucket(keys, key), bs) }

  function WithKey(seen: seq<Bytes>, key: Bytes): seq<Bytes> { if key in seen then seen else seen + [key] }

  /** The distinct keys, in order of first appearance. */
  function FirstKeys(bs: seq<Bindings>, keys: seq<string>): seq<Bytes> {
    if bs == [] then []
    else WithKey(FirstKeys(bs[..|bs| - 1], keys), KeyBytes(bs[|bs| - 1], keys))
  }

  function CountWhere(p: Bindings -> bool, bs: seq<Bindings>): nat { |Filter(p, bs)| }

  function Everything(): Bindings -> bool { (b: Bindings) => true }

  function Binding(v: string): Bindings -> bool { (b: Bindings) => v in b }

  /** The rows a spec counts. */
  function Counted(func: AggFunc): Bindings -> bool {
    match func
    case CountStar => Everything()
    case Count(v) => Binding(v)
    case Gather(v, _) => Binding(v)
  }

  function NodeOf(v: string): Bindings -> Option<Uuid> { (b: Bindings) => if v in b then Some(b[v]) else None }

  /** The nodes bound to `v`, in order. */
  function Gathered(v: string, group: seq<Bindings>): seq<Uuid> { FilterMap(NodeOf(v), group) }

  const MAX_ROWS: nat := 0x7FFF_FFFF_FFFF_FFFF

  function AggValue(func: AggFunc, group: seq<Bindings>): Value
    requires |group| <= MAX_ROWS
  {
    FilterShorter(Counted(func), group);
    match func
    case Gather(v, combine) => combine(Gathered(v, group))
    case _ => Int(CountWhere(Counted(func), group))
  }

  method GatherNodes(v: string, group: seq<Bindings>) returns (nodes: seq<Uuid>)
    ensures nodes == Gathered(v, group)
  {
    nodes := [];
    for i := 0 to |group|
      invariant nodes == Gathered(v, group[..i])
    {
      assert group[..i + 1] == group[..i] + [group[i]];
      FilterMapConcat(NodeOf(v), group[..i], [group[i]]);
      FilterMapOne(NodeOf(v), group[i]);
      if v in group[i] {
        nodes := nodes + [group[i][v]];
      }
    }
    assert group[..|group|] == group;
  }

  method ComputeAgg(func: AggFunc, group: seq<Bindings>) returns (v: Value)
    requires |group| <= MAX_ROWS
    ensures v == AggValue(func, group)
  {
    match func {
      case CountStar =>
        FilterAll(Everything(), group);
        v := Int(|group|);
      case Count(_) =>
        FilterShorter(Counted(func), group);
        v := Int(|Filter(Counted(func), group)|);
      case Gather(x, combine) =>
        var nodes := GatherNodes(x, group);
        v := combine(nodes);
    }
  }

  lemma {:induction false} FilterShorter<T>(p: T -> bool, s: seq<T>)
    ensures |Filter(p, s)| <= |s|
  {
    if s != [] { FilterShorter(p, s[1..]); }
  }

  /** Aggregates by alias; a repeated alias keeps its last aggregate. */
  function Aggregates(specs: seq<AggregationSpec>, group: seq<Bindings>): map<string, Value>
    requires |group| <= MAX_ROWS
  {
    if specs == [] then map[]
    else Aggregates(specs[..|specs| - 1], group)[specs[|specs| - 1].alias := AggValue(specs[|specs| - 1].func, group)]
  }

  function Restricted(b: Bindings, keys: seq<string>): Bindings { map k | k in b && k in keys :: b[k] }

  predicate RowOf(row: Row, group: seq<Bindings>, keys: seq<string>, specs: seq<AggregationSpec>) {
    0 < |group| <= MAX_ROWS && row == Row(Restricted(group[0], keys), Aggregates(specs, group))
  }

  predicate RowAt(row: Row, key: Bytes, bs: seq<Bindings>, keys: seq<string>, specs: seq<AggregationSpec>) {
    RowOf(row, Bucket(bs, keys, key), keys, specs)
  }

  /** One row per distinct key, in order of first appearance, with the grouping
      variables and the aggregates of its bucket. */
  predicate Grouped(rows: seq<Row>, bs: seq<Bindings>, keys: seq<string>, specs: seq<AggregationSpec>) {
    |rows| == |FirstKeys(bs, keys)| &&
    forall i :: 0 <= i < |rows| ==> RowAt(rows[i], FirstKeys(bs, keys)[i], bs, keys, specs)
  }

  method ComputeRow(group: seq<Bindings>, keys: seq<string>, specs: seq<AggregationSpec>) returns (row: Row)
    requires 0 < |group| <= MAX_ROWS
    ensures RowOf(row, group, keys, specs)
  {
    var values: map<string, Value> := map[];
    for j := 0 to |specs|
      invariant values == Aggregates(specs[..j], group)
    {
      var v := ComputeAgg(specs[j].func, group);
      assert specs[..j + 1][..j] == specs[..j];
      values := values[specs[j].alias := v];
    }
    assert specs[..|specs|] == specs;
    row := Row(Restricted(group[0], keys), values);
  }

  type Buckets = map<Bytes, seq<Bindings>>

  ghost predicate Filled(order: seq<Bytes>, buckets: Buckets, bs: seq<Bindings>, keys: seq<string>) {
    order == FirstKeys(bs, keys) &&
    (forall k :: k in order <==> k in buckets) &&
    forall k :: k in buckets ==> buckets[k] == Bucket(bs, keys, k)
  }

  lemma FirstKeysSnoc(before: seq<Bindings>, b: Bindings, keys: seq<string>)
    ensures FirstKeys(before + [b], keys) == WithKey(FirstKeys(before, keys), KeyBytes(b, keys))
  {
    assert (before + [b])[..|before|] == before;
  }

  lemma NoBucketYet(bs: seq<Bindings>, keys: seq<string>, key: Bytes)
    requires key !in FirstKeys(bs, keys)
    ensures Bucket(bs, keys, key) == []
  {
    FirstKeysAre(bs, keys);
    EmptyBucket(bs, keys, key);
  }

  function Extended(buckets: Buckets, key: Bytes, b: Bindings): Buckets {
    buckets[key := (if key in buckets then buckets[key] else []) + [b]]
  }

  lemma ExtendedBucket(order: seq<Bytes>, buckets: Buckets, before: seq<Bindings>, b: Bindings, keys: seq<string>,
      k: Bytes)
    requires Filled(order, buckets, before, keys) && k in Extended(buckets, KeyBytes(b, keys), b)
    ensures Extended(buckets, KeyBytes(b, keys), b)[k] == Bucket(before + [b], keys, k)
  {
    BucketGrows(before, b, keys, k);
    if k !in buckets { NoBucketYet(before, keys, k); }
  }

  lemma FillStep(order: seq<Bytes>, buckets: Buckets, before: seq<Bindings>, b: Bindings, keys: seq<string>)
    requires Filled(order, buckets, before, keys)
    ensures Filled(WithKey(order, KeyBytes(b, keys)), Extended(buckets, KeyBytes(b, keys), b), before + [b], keys)
  {
    FirstKeysSnoc(before, b, keys);
    forall k | k in Extended(buckets, KeyBytes(b, keys), b)
      ensures Extended(buckets, KeyBytes(b, keys), b)[k] == Bucket(before + [b], keys, k)
    {
      ExtendedBucket(order, buckets, before, b, keys, k);
    }
  }

  /** Bucket the bindings by key, remembering the order of the keys. */
  method FillBuckets(bs: seq<Bindings>, keys: seq<string>) returns (order: seq<Bytes>, buckets: Buckets)
    ensures Filled(order, buckets, bs, keys)
  {
    order, buckets := [], map[];
    for i := 0 to |bs|
      invariant Filled(order, buckets, bs[..i], keys)
    {
      var key := GroupKeyBytes(bs[i], keys);
      assert bs[..i + 1] == bs[..i] + [bs[i]];
      FillStep(order, buckets, bs[..i], bs[i], keys);
      if key !in buckets {
        order := order + [key];
      }
      buckets := buckets[key := (if key in buckets then buckets[key] else []) + [bs[i]]];
    }
    assert bs[..|bs|] == bs;
  }

  method RowFor(key: Bytes, buckets: Buckets, keys: seq<string>, specs: seq<AggregationSpec>,
      ghost order: seq<Bytes>, ghost bs: seq<Bindings>)
      returns (row: Row)
    requires Filled(order, buckets, bs, keys) && key in order && |bs| <= MAX_ROWS
    ensures RowAt(row, key, bs, keys, specs)
  {
    BucketSize(bs, keys, key);
    row := ComputeRow(buckets[key], keys, specs);
  }

  /** Rows for the first keys of `order`. */
  predicate RowsFor(rows: seq<Row>, order: seq<Bytes>, bs: seq<Bindings>, keys: seq<string>,
      specs: seq<AggregationSpec>) {
    |rows| <= |order| && forall i :: 0 <= i < |rows| ==> RowAt(rows[i], order[i], bs, keys, specs)
  }

  lemma OneMoreRow(rows: seq<Row>, row: Row, order: seq<Bytes>, bs: seq<Bindings>, keys: seq<string>,
      specs: seq<AggregationSpec>)
    requires RowsFor(rows, order, bs, keys, specs) && |rows| < |order| && RowAt(row, order[|rows|], bs, keys, specs)
    ensures RowsFor(rows + [row], order, bs, keys, specs)
  {}

  method GroupRows(bs: seq<Bindings>, keys: seq<string>, specs: seq<AggregationSpec>) returns (rows: seq<Row>)
    requires |bs| <= MAX_ROWS
    ensures Grouped(rows, bs, keys, specs)
  {
    var order, buckets := FillBuckets(bs, keys);
    rows := [];
    for i := 0 to |order|
      invariant |rows| == i && RowsFor(rows, order, bs, keys, specs)
    {
      var row := RowFor(order[i], buckets, keys, specs, order, bs);
      OneMoreRow(rows, row, order, bs, keys, specs);
      rows := rows + [row];
    }
  }

  lemma BucketSize(bs: seq<Bindings>, keys: seq<string>, key: Bytes)
    requires key in FirstKeys(bs, keys)
    ensures 0 < |Bucket(bs, keys, key)| <= |bs|
  {
    FirstKeysAre(bs, keys);
    FilterShorter(InBucket(keys, key), bs);
    var i :| 0 <= i < |bs| && KeyBytes(bs[i], keys) == key;
    FilterMember(InBucket(keys, key), bs, bs[i]);
  }

  lemma {:induction false} FirstKeysMember(bs: seq<Bindings>, keys: seq<string>, key: Bytes)
    ensures key in FirstKeys(bs, keys) <==> exists i :: 0 <= i < |bs| && KeyBytes(bs[i], keys) == key
  {
    hide KeyBytes;
    if bs != [] {
      var before, last := bs[..|bs| - 1], bs[|bs| - 1];
      FirstKeysMember(before, keys, key);
      KeyOccurs(before, last, keys, key);
      assert bs == before + [last];
    }
  }

  lemma KeyOccurs(before: seq<Bindings>, last: Bindings, keys: seq<string>, key: Bytes)
    ensures (exists i :: 0 <= i < |before + [last]| && KeyBytes((before + [last])[i], keys) == key)
       <==> KeyBytes(last, keys) == key || exists i :: 0 <= i < |before| && KeyBytes(before[i], keys) == key
  {
    hide KeyBytes;
    var bs := before + [last];
    assert bs[|before|] == last;
    if i :| 0 <= i < |before| && KeyBytes(before[i], keys) == key { assert bs[i] == before[i]; }
    if i :| 0 <= i < |bs| && KeyBytes(bs[i], keys) == key { assert i < |before| ==> before[i] == bs[i]; }
  }

  lemma {:induction false} FirstKeysDiffer(bs: seq<Bindings>, keys: seq<string>)
    ensures Distinct(FirstKeys(bs, keys))
  {
    if bs != [] { FirstKeysDiffer(bs[..|bs| - 1], keys); }
  }

  lemma FirstKeysAre(bs: seq<Bindings>, keys: seq<string>)
    ensures forall key :: key in FirstKeys(bs, keys) <==> exists i :: 0 <= i < |bs| && KeyBytes(bs[i], keys) == key
    ensures forall i, j :: 0 <= i < j < |FirstKeys(bs, keys)| ==> FirstKeys(bs, keys)[i] != FirstKeys(bs, keys)[j]
  {
    hide FirstKeys, KeyBytes;
    forall key ensures key in FirstKeys(bs, keys) <==> exists i :: 0 <= i < |bs| && KeyBytes(bs[i], keys) == key {
      FirstKeysMember(bs, keys, key);
    }
    FirstKeysDiffer(bs, keys);
  }

  /** Where a key first appears. */
  function FirstIndex(bs: seq<Bindings>, keys: seq<string>, key: Bytes): (n: nat)
    ensures n <= |bs| && (n < |bs| ==> KeyBytes(bs[n], keys) == key) &&
            forall i :: 0 <= i < n ==> KeyBytes(bs[i], keys) != key
  {
    if bs == [] then 0 else if KeyBytes(bs[0], keys) == key then 0 else 1 + FirstIndex(bs[1..], keys, key)
  }

  lemma {:induction false} FirstIndexConcat(a: seq<Bindings>, b: seq<Bindings>, keys: seq<string>, key: Bytes)
    ensures FirstIndex(a + b, keys, key)
         == if FirstIndex(a, keys, key) < |a| then FirstIndex(a, keys, key) else |a| + FirstIndex(b, keys, key)
  {
    if a == [] {
      assert a + b == b;
    } else {
      assert (a + b)[0] == a[0] && (a + b)[1..] == a[1..] + b;
      FirstIndexConcat(a[1..], b, keys, key);
    }
  }

  lemma OldKeyIndex(before: seq<Bindings>, last: Bindings, keys: seq<string>, key: Bytes)
    requires key in FirstKeys(before, keys)
    ensures FirstIndex(before + [last], keys, key) == FirstIndex(before, keys, key) < |before|
  {
    FirstKeysAre(before, keys);
    FirstIndexConcat(before, [last], keys, key);
  }

  lemma NewKeyIndex(before: seq<Bindings>, last: Bindings, keys: seq<string>)
    requires KeyBytes(last, keys) !in FirstKeys(before, keys)
    ensures FirstIndex(before + [last], keys, KeyBytes(last, keys)) == |before|
  {
    FirstKeysAre(before, keys);
    FirstIndexConcat(before, [last], keys, KeyBytes(last, keys));
  }

  /** Rows come in the order in which their keys first appear. */
  lemma {:induction false} FirstAppearanceOrder(bs: seq<Bindings>, keys: seq<string>, i: nat, j: nat)
    requires i < j < |FirstKeys(bs, keys)|
    ensures FirstIndex(bs, keys, FirstKeys(bs, keys)[i]) < FirstIndex(bs, keys, FirstKeys(bs, keys)[j]) < |bs|
  {
    var before, last, ks := bs[..|bs| - 1], bs[|bs| - 1], FirstKeys(bs, keys);
    assert bs == before + [last];
    assert ks[i] in FirstKeys(before, keys);
    OldKeyIndex(before, last, keys, ks[i]);
    if j < |FirstKeys(before, keys)| {
      FirstAppearanceOrder(before, keys, i, j);
      OldKeyIndex(before, last, keys, ks[j]);
    } else {
      NewKeyIndex(before, last, keys);
    }
  }

  function Total(ns: seq<nat>): nat { if ns == [] then 0 else ns[0] + Total(ns[1..]) }

  function BucketCounts(p: Bindings -> bool, bs: seq<Bindings>, keys: seq<string>, ks: seq<Bytes>): seq<nat> {
    seq(|ks|, i requires 0 <= i < |ks| => CountWhere(p, Bucket(bs, keys, ks[i])))
  }

  /** One more binding raises the count of its own bucket, new or old. */
  lemma TotalGrows(p: Bindings -> bool, before: seq<Bindings>, last: Bindings, keys: seq<string>)
    ensures Total(BucketCounts(p, before + [last], keys, WithKey(FirstKeys(before, keys), KeyBytes(last, keys)))) ==
            Total(BucketCounts(p, before, keys, FirstKeys(before, keys))) + if p(last) then 1 else 0
  {
    var key, seen := KeyBytes(last, keys), FirstKeys(before, keys);
    if key in seen { OldBucketGrows(p, before, last, keys); } else { NewBucketCounts(p, before, last, keys); }
  }

  lemma OldBucketGrows(p: Bindings -> bool, before: seq<Bindings>, last: Bindings, keys: seq<string>)
    requires KeyBytes(last, keys) in FirstKeys(before, keys)
    ensures Total(BucketCounts(p, before + [last], keys, FirstKeys(before, keys))) ==
            Total(BucketCounts(p, before, keys, FirstKeys(before, keys))) + if p(last) then 1 else 0
  {
    var key, seen, one := KeyBytes(last, keys), FirstKeys(before, keys), if p(last) then 1 else 0;
    var was, now := BucketCounts(p, before, keys, seen), BucketCounts(p, before + [last], keys, seen);
    FirstKeysAre(before, keys);
    var i :| 0 <= i < |seen| && seen[i] == key;
    forall j | 0 <= j < |seen| ensures now[j] == was[j] + if j == i then one else 0 {
      BucketSnoc(p, before, last, keys, seen[j]);
    }
    TotalBumped(was, now, i, one);
  }

  lemma NewBucketCount(p: Bindings -> bool, before: seq<Bindings>, last: Bindings, keys: seq<string>)
    requires KeyBytes(last, keys) !in FirstKeys(before, keys)
    ensures CountWhere(p, Bucket(before + [last], keys, KeyBytes(last, keys))) == if p(last) then 1 else 0
  {
    NoBucketYet(before, keys, KeyBytes(last, keys));
    BucketGrows(before, last, keys, KeyBytes(last, keys));
    assert Bucket(before + [last], keys, KeyBytes(last, keys)) == [last];
    FilterOne(p, last);
  }

  lemma NewBucketCounts(p: Bindings -> bool, before: seq<Bindings>, last: Bindings, keys: seq<string>)
    requires KeyBytes(last, keys) !in FirstKeys(before, keys)
    ensures Total(BucketCounts(p, before + [last], keys, FirstKeys(before, keys) + [KeyBytes(last, keys)])) ==
            Total(BucketCounts(p, before, keys, FirstKeys(before, keys))) + if p(last) then 1 else 0
  {
    var key, seen, one := KeyBytes(last, keys), FirstKeys(before, keys), if p(last) then 1 else 0;
    var was, now := BucketCounts(p, before, keys, seen), BucketCounts(p, before + [last], keys, seen + [key]);
    forall j | 0 <= j < |seen| ensures now[j] == was[j] {
      assert seen[j] != key;
      BucketSnoc(p, before, last, keys, seen[j]);
    }
    NewBucketCount(p, before, last, keys);
    assert now == was + [one];
    TotalSnoc(was, one);
  }

  /** Buckets partition the input: counting any property bucket by bucket and
      adding up counts it over the whole input. */
  lemma {:induction false} BucketsPartition(p: Bindings -> bool, bs: seq<Bindings>, keys: seq<string>)
    ensures Total(BucketCounts(p, bs, keys, FirstKeys(bs, keys))) == CountWhere(p, bs)
  {
    if bs == [] {
      assert BucketCounts(p, bs, keys, FirstKeys(bs, keys)) == [];
    } else {
      var before, last := bs[..|bs| - 1], bs[|bs| - 1];
      assert bs == before + [last];
      BucketsPartition(p, before, keys);
      TotalGrows(p, before, last, keys);
      CountSnoc(p, before, last);
    }
  }

  lemma CountSnoc(p: Bindings -> bool, before: seq<Bindings>, last: Bindings)
    ensures CountWhere(p, before + [last]) == CountWhere(p, before) + if p(last) then 1 else 0
  {
    FilterConcat(p, before, [last]);
    FilterOne(p, last);
  }

  lemma BucketSnoc(p: Bindings -> bool, before: seq<Bindings>, last: Bindings, keys: seq<string>, k: Bytes)
    ensures CountWhere(p, Bucket(before + [last], keys, k))
         == CountWhere(p, Bucket(before, keys, k)) + if k == KeyBytes(last, keys) && p(last) then 1 else 0
  {
    BucketGrows(before, last, keys, k);
    if k == KeyBytes(last, keys) {
      CountSnoc(p, Bucket(before, keys, k), last);
    } else {
      assert Bucket(before, keys, k) + [] == Bucket(before, keys, k);
    }
  }

  lemma BucketGrows(before: seq<Bindings>, last: Bindings, keys: seq<string>, k: Bytes)
    ensures Bucket(before + [last], keys, k)
         == Bucket(before, keys, k) + if k == KeyBytes(last, keys) then [last] else []
  {
    FilterConcat(InBucket(keys, k), before, [last]);
    FilterOne(InBucket(keys, k), last);
  }

  lemma {:induction false} EmptyBucket(bs: seq<Bindings>, keys: seq<string>, key: Bytes)
    requires forall i :: 0 <= i < |bs| ==> KeyBytes(bs[i], keys) != key
    ensures Bucket(bs, keys, key) == []
  {
    if bs != [] { EmptyBucket(bs[1..], keys, key); }
  }

  lemma {:induction false} TotalSnoc(ns: seq<nat>, n: nat)
    ensures Total(ns + [n]) == Total(ns) + n
  {
    if ns == [] {
      assert ns + [n] == [n];
    } else {
      assert (ns + [n])[1..] == ns[1..] + [n];
      TotalSnoc(ns[1..], n);
    }
  }

  lemma {:induction false} TotalBumped(a: seq<nat>, b: seq<nat>, i: nat, n: nat)
    requires |a| == |b| && i < |a| && b[i] == a[i] + n && forall j :: 0 <= j < |a| && j != i ==> a[j] == b[j]
    ensures Total(b) == Total(a) + n
  {
    if i == 0 { assert a[1..] == b[1..]; } else { TotalBumped(a[1..], b[1..], i - 1, n); }
  }

  // ── What grouping means ──────────────────────────────────────────────────

  /** Every binding of a bucket has its row's grouping values, and no binding of
      another bucket has. */
  lemma RowStandsForBucket(rows: seq<Row>, bs: seq<Bindings>, keys: seq<string>, specs: seq<AggregationSpec>, i: nat,
      m: nat)
    requires Grouped(rows, bs, keys, specs) && i < |rows| && m < |bs|
    ensures bs[m] in Bucket(bs, keys, FirstKeys(bs, keys)[i]) <==> rows[i].groupKeys == Restricted(bs[m], keys)
  {
    var key := FirstKeys(bs, keys)[i];
    var group := Bucket(bs, keys, key);
    assert RowAt(rows[i], key, bs, keys, specs);
    FilterMember(InBucket(keys, key), bs, bs[m]);
    FilterMember(InBucket(keys, key), bs, group[0]);
    KeyBytesInjective(group[0], bs[m], keys);
    RestrictedSame(group[0], bs[m], keys);
  }

  lemma RestrictedSame(a: Bindings, b: Bindings, keys: seq<string>)
    ensures Restricted(a, keys) == Restricted(b, keys) <==> forall i :: 0 <= i < |keys| ==> SameOn(a, b, keys[i])
  {
    var ra, rb := Restricted(a, keys), Restricted(b, keys);
    if ra == rb {
      forall i | 0 <= i < |keys| ensures SameOn(a, b, keys[i]) {
        assert keys[i] in ra <==> keys[i] in a;
        assert keys[i] in rb <==> keys[i] in b;
      }
    }
    if forall i :: 0 <= i < |keys| ==> SameOn(a, b, keys[i]) {
      forall k | k in keys ensures k in ra <==> k in rb {
        var i :| 0 <= i < |keys| && keys[i] == k;
      }
      assert ra.Keys == rb.Keys;
    }
  }

  /** The aggregate an alias ends up with. */
  function LastSpec(specs: seq<AggregationSpec>, alias: string): Option<AggFunc> {
    if specs == [] then None
    else if specs[|specs| - 1].alias == alias then Some(specs[|specs| - 1].func)
    else LastSpec(specs[..|specs| - 1], alias)
  }

  lemma {:induction false} AggregateAt(specs: seq<AggregationSpec>, group: seq<Bindings>, alias: string)
    requires |group| <= MAX_ROWS
    ensures var last := LastSpec(specs, alias);
            (alias in Aggregates(specs, group) <==> last.Some?) &&
            (last.Some? ==> Aggregates(specs, group)[alias] == AggValue(last.value, group))
  {
    if specs != [] { AggregateAt(specs[..|specs| - 1], group, alias); }
  }

  function Column(rows: seq<Row>, alias: string): seq<nat> {
    seq(|rows|, i requires 0 <= i < |rows| => CellCount(rows[i], alias))
  }

  function CellCount(row: Row, alias: string): nat {
    if alias in row.aggValues && row.aggValues[alias].Int? &&
       row.aggValues[alias].i >= 0 then row.aggValues[alias].i else 0
  }

  function BoundTo(v: string, n: Uuid): Bindings -> bool { (b: Bindings) => v in b && b[v] == n }

  lemma {:induction false} GatheredCount(v: string, n: Uuid, group: seq<Bindings>)
    ensures multiset(Gathered(v, group))[n] == CountWhere(BoundTo(v, n), group)
  {
    if group != [] {
      GatheredCount(v, n, group[1..]);
      var one := if v in group[0] then [group[0][v]] else [];
      assert Gathered(v, group) == one + Gathered(v, group[1..]);
    }
  }

  function GatheredCounts(v: string, n: Uuid, bs: seq<Bindings>, keys: seq<string>): seq<nat> {
    seq(|FirstKeys(bs, keys)|, i requires 0 <= i < |FirstKeys(bs, keys)| =>
      multiset(Gathered(v, Bucket(bs, keys, FirstKeys(bs, keys)[i])))[n])
  }

  /** What an aggregate combines, bucket by bucket, is all there is: each node is
      gathered as often over the buckets together as over the whole input. */
  lemma GatheredAddUp(v: string, n: Uuid, bs: seq<Bindings>, keys: seq<string>)
    ensures Total(GatheredCounts(v, n, bs, keys)) == multiset(Gathered(v, bs))[n]
  {
    var ks := FirstKeys(bs, keys);
    BucketsPartition(BoundTo(v, n), bs, keys);
    GatheredCount(v, n, bs);
    forall i | 0 <= i < |ks| ensures GatheredCounts(v, n, bs, keys)[i] == BucketCounts(BoundTo(v, n), bs, keys, ks)[i] {
      GatheredCount(v, n, Bucket(bs, keys, ks[i]));
    }
    assert GatheredCounts(v, n, bs, keys) == BucketCounts(BoundTo(v, n), bs, keys, ks);
  }

  /** A count column adds up to what it would count over the whole input, so
      `count(*)` adds up to the number of bindings. */
  lemma CountsAddUp(rows: seq<Row>, bs: seq<Bindings>, keys: seq<string>, specs: seq<AggregationSpec>, alias: string)
    requires Grouped(rows, bs, keys, specs) && LastSpec(specs, alias).Some? && !LastSpec(specs, alias).value.Gather?
    ensures Total(Column(rows, alias)) == CountWhere(Counted(LastSpec(specs, alias).value), bs)
    ensures LastSpec(specs, alias) == Some(CountStar) ==> Total(Column(rows, alias)) == |bs|
  {
    var func, ks := LastSpec(specs, alias).value, FirstKeys(bs, keys);
    BucketsPartition(Counted(func), bs, keys);
    forall i | 0 <= i < |rows| ensures Column(rows, alias)[i] == BucketCounts(Counted(func), bs, keys, ks)[i] {
      assert RowAt(rows[i], ks[i], bs, keys, specs);
      AggregateAt(specs, Bucket(bs, keys, ks[i]), alias);
    }
    assert Column(rows, alias) == BucketCounts(Counted(func), bs, keys, ks);
    FilterAll(Everything(), bs);
  }

  // ── What a cell of a row is ──────────────────────────────────────────────

  /** The binding has the row's values for the grouping variables, unbound ones
      included. */
  predicate StandsFor(row: Row, b: Bindings, keys: seq<string>) {
    forall i :: 0 <= i < |keys| ==> SameOn(row.groupKeys, b, keys[i])
  }

  /** The bindings a row stands for, by their place in the input. */
  function Members(row: Row, bs: seq<Bindings>, keys: seq<string>): set<nat> {
    set m: nat | m < |bs| && StandsFor(row, bs[m], keys)
  }

  function Places(p: Bindings -> bool, bs: seq<Bindings>): set<nat> { set m: nat | m < |bs| && p(bs[m]) }

  lemma {:induction false} FilterSize(p: Bindings -> bool, bs: seq<Bindings>)
    ensures |Filter(p, bs)| == |Places(p, bs)|
  {
    if bs == [] {
      assert Places(p, bs) == {};
    } else {
      var before, last := bs[..|bs| - 1], bs[|bs| - 1];
      assert bs == before + [last];
      FilterSize(p, before);
      CountSnoc(p, before, last);
      assert Places(p, bs) == Places(p, before) + if p(last) then {|before|} else {};
    }
  }

  lemma MemberIsInBucket(rows: seq<Row>, bs: seq<Bindings>, keys: seq<string>, specs: seq<AggregationSpec>, i: nat,
      m: nat)
    requires Grouped(rows, bs, keys, specs) && i < |rows| && m < |bs|
    ensures InBucket(keys, FirstKeys(bs, keys)[i])(bs[m]) <==> StandsFor(rows[i], bs[m], keys)
  {
    var key := FirstKeys(bs, keys)[i];
    assert RowAt(rows[i], key, bs, keys, specs);
    FilterMember(InBucket(keys, key), bs, bs[m]);
    RowStandsForBucket(rows, bs, keys, specs, i, m);
    var group := Bucket(bs, keys, key);
    RestrictedSame(group[0], bs[m], keys);
    forall j | 0 <= j < |keys| ensures SameOn(rows[i].groupKeys, group[0], keys[j]) {
      assert rows[i].groupKeys == Restricted(group[0], keys);
    }
  }

  lemma CountInBucket(p: Bindings -> bool, rows: seq<Row>, bs: seq<Bindings>, keys: seq<string>,
      specs: seq<AggregationSpec>, i: nat)
    requires Grouped(rows, bs, keys, specs) && i < |rows|
    ensures CountWhere(p, Bucket(bs, keys, FirstKeys(bs, keys)[i]))
         == |set m | m in Members(rows[i], bs, keys) && p(bs[m])|
  {
    var inBucket := InBucket(keys, FirstKeys(bs, keys)[i]);
    var both := (b: Bindings) => p(b) && inBucket(b);
    FilterTwice(p, inBucket, both, bs);
    FilterSize(both, bs);
    forall m: nat | m < |bs| ensures both(bs[m]) <==> m in Members(rows[i], bs, keys) && p(bs[m]) {
      MemberIsInBucket(rows, bs, keys, specs, i, m);
    }
    assert Places(both, bs) == set m | m in Members(rows[i], bs, keys) && p(bs[m]);
  }

  /** The spec whose aggregate the alias ends up with. */
  predicate LastUnderAlias(specs: seq<AggregationSpec>, j: nat)
    requires j < |specs|
  {
    forall k :: j < k < |specs| ==> specs[k].alias != specs[j].alias
  }

  lemma {:induction false} LastSpecIs(specs: seq<AggregationSpec>, j: nat)
    requires j < |specs| && LastUnderAlias(specs, j)
    ensures LastSpec(specs, specs[j].alias) == Some(specs[j].func)
    decreases |specs|
  {
    if j < |specs| - 1 { LastSpecIs(specs[..|specs| - 1], j); }
  }

  /** A row's cell under an alias, by the bindings it stands for: `count(*)` is their
      number, `count(v)` the number of those that bind `v`, and anything else combines
      the nodes they bind `v` to, each as often as it is bound. */
  lemma CellsAre(rows: seq<Row>, bs: seq<Bindings>, keys: seq<string>, specs: seq<AggregationSpec>, i: nat, j: nat)
    requires Grouped(rows, bs, keys, specs) && i < |rows| && j < |specs| && LastUnderAlias(specs, j)
    ensures specs[j].alias in rows[i].aggValues
    ensures var members, cell := Members(rows[i], bs, keys), rows[i].aggValues[specs[j].alias];
            match specs[j].func
            case CountStar => cell.Int? && cell.i == |members|
            case Count(v) => cell.Int? && cell.i == |set m | m in members && v in bs[m]|
            case Gather(v, combine) =>
              exists nodes: seq<Uuid> :: cell == combine(nodes) && forall n: Uuid ::
                multiset(nodes)[n] == |set m | m in members && v in bs[m] && bs[m][v] == n|
  {
    hide Members, Bucket, FirstKeys, Aggregates, Filter;
    var group := Bucket(bs, keys, FirstKeys(bs, keys)[i]);
    assert RowAt(rows[i], FirstKeys(bs, keys)[i], bs, keys, specs);
    LastSpecIs(specs, j);
    AggregateAt(specs, group, specs[j].alias);
    match specs[j].func {
      case CountStar => CountStarCell(rows, bs, keys, specs, i);
      case Count(v) => CountCell(v, rows, bs, keys, specs, i);
      case Gather(v, combine) => GatherCell(v, rows, bs, keys, specs, i);
    }
  }

  lemma CountStarCell(rows: seq<Row>, bs: seq<Bindings>, keys: seq<string>, specs: seq<AggregationSpec>, i: nat)
    requires Grouped(rows, bs, keys, specs) && i < |rows|
    ensures CountWhere(Everything(), Bucket(bs, keys, FirstKeys(bs, keys)[i])) == |Members(rows[i], bs, keys)|
  {
    CountInBucket(Everything(), rows, bs, keys, specs, i);
    assert Members(rows[i], bs, keys) == set m | m in Members(rows[i], bs, keys) && Everything()(bs[m]);
  }

  lemma CountCell(v: string, rows: seq<Row>, bs: seq<Bindings>, keys: seq<string>, specs: seq<AggregationSpec>, i: nat)
    requires Grouped(rows, bs, keys, specs) && i < |rows|
    ensures CountWhere(Binding(v), Bucket(bs, keys, FirstKeys(bs, keys)[i]))
         == |set m | m in Members(rows[i], bs, keys) && v in bs[m]|
  {
    CountInBucket(Binding(v), rows, bs, keys, specs, i);
    assert (set m | m in Members(rows[i], bs, keys) && v in bs[m])
        == set m | m in Members(rows[i], bs, keys) && Binding(v)(bs[m]);
  }

  lemma GatherCell(v: string, rows: seq<Row>, bs: seq<Bindings>, keys: seq<string>, specs: seq<AggregationSpec>, i: nat)
    requires Grouped(rows, bs, keys, specs) && i < |rows|
    ensures forall n: Uuid ::
              (multiset(Gathered(v, Bucket(bs, keys, FirstKeys(bs, keys)[i])))[n] ==
               |set m | m in Members(rows[i], bs, keys) && v in bs[m] && bs[m][v] == n|)
  {
    forall n: Uuid
      ensures multiset(Gathered(v, Bucket(bs, keys, FirstKeys(bs, keys)[i])))[n]
           == |set m | m in Members(rows[i], bs, keys) && v in bs[m] && bs[m][v] == n|
    {
      GatheredCount(v, n, Bucket(bs, keys, FirstKeys(bs, keys)[i]));
      CountInBucket(BoundTo(v, n), rows, bs, keys, specs, i);
      assert (set m | m in Members(rows[i], bs, keys) && v in bs[m] && bs[m][v] == n)
          == set m | m in Members(rows[i], bs, keys) && BoundTo(v, n)(bs[m]);
    }
  }
}
