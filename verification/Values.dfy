/** Property values and the canonical byte encoding behind value look-ups
    (crates/polargraph-core/src/value.rs). Text is its UTF-8 bytes; a float is
    its IEEE 754 bit pattern. */
module Values {

  type Byte = x: nat | x < 256
  type Bytes = seq<Byte>
  type Int64 = x: int | -0x8000_0000_0000_0000 <= x < 0x8000_0000_0000_0000
  type Float32 = x: nat | x < 0x1_0000_0000
  type Float64 = x: nat | x < 0x1_0000_0000_0000_0000

  datatype RawValue =
    | Null
    | Bool(b: bool)
    | Int(i: Int64)
    | Float(f: Float64)
    | Text(text: Bytes)
    | Blob(blob: Bytes)
    | Vector(floats: seq<Float32>)
    | LangText(content: Bytes, lang: Bytes)
    | Typed(lexical: Bytes, datatypeIri: Bytes)

  const QUIET_NAN: Float64 := 0x7FF8_0000_0000_0000

  predicate IsNaN(f: Float64) { f % 0x8000_0000_0000_0000 > 0x7FF0_0000_0000_0000 }

  predicate IsZero(f: Float64) { f % 0x8000_0000_0000_0000 == 0 }

  predicate IsNaN32(f: Float32) { f % 0x8000_0000 > 0x7F80_0000 }

  predicate IsZero32(f: Float32) { f % 0x8000_0000 == 0 }

  // ── Rust's derived equality ──────────────────────────────────────────────

  predicate FloatEq(a: Float64, b: Float64) {
    !IsNaN(a) && !IsNaN(b) && (a == b || (IsZero(a) && IsZero(b)))
  }

  predicate Float32Eq(a: Float32, b: Float32) {
    !IsNaN32(a) && !IsNaN32(b) && (a == b || (IsZero32(a) && IsZero32(b)))
  }

  /** `==` on values: IEEE comparison on floats, plain equality elsewhere. */
  predicate ValueEq(v: RawValue, w: RawValue) {
    match (v, w)
    case (Float(a), Float(b)) => FloatEq(a, b)
    case (Vector(xs), Vector(ys)) => |xs| == |ys| && forall i :: 0 <= i < |xs| ==> Float32Eq(xs[i], ys[i])
    case _ => v == w
  }

  // ── Canonical encoding ───────────────────────────────────────────────────

  /** The `width` big-endian base-256 digits of `n`. */
  function BigEndian(n: nat, width: nat): (r: Bytes)
    ensures |r| == width
  {
    if width == 0 then [] else BigEndian(n / 256, width - 1) + [n % 256]
  }

  function LittleEndian(n: nat, width: nat): (r: Bytes)
    ensures |r| == width
  {
    if width == 0 then [] else [n % 256] + LittleEndian(n / 256, width - 1)
  }

  function TwosComplement(i: Int64): Float64 {
    if i < 0 then i + 0x1_0000_0000_0000_0000 else i
  }

  function FoldFloat(f: Float64): Float64 {
    if IsNaN(f) then QUIET_NAN else if IsZero(f) then 0 else f
  }

  function LowerByte(b: Byte): Byte { if 65 <= b <= 90 then b + 32 else b }

  function Lowercase(s: Bytes): (r: Bytes)
    ensures |r| == |s| && forall i :: 0 <= i < |s| ==> r[i] == LowerByte(s[i])
  {
    if s == [] then [] else [LowerByte(s[0])] + Lowercase(s[1..])
  }

  function VectorBytes(xs: seq<Float32>): (r: Bytes)
    ensures |r| == 4 * |xs|
  {
    if xs == [] then [] else LittleEndian(xs[0], 4) + VectorBytes(xs[1..])
  }

  function CanonicalBytes(v: RawValue): Bytes {
    match v
    case Null => [0]
    case Bool(b) => [1, if b then 1 else 0]
    case Int(i) => [2] + BigEndian(TwosComplement(i), 8)
    case Float(f) => [3] + BigEndian(FoldFloat(f), 8)
    case Text(s) => [4] + s
    case Blob(s) => [5] + s
    case Vector(xs) => [6] + VectorBytes(xs)
    case LangText(text, lang) => [7] + (Lowercase(lang) + [0] + text)
    case Typed(lexical, datatypeIri) => [8] + (datatypeIri + [0] + lexical)
  }

  /** What the encoding identifies: the tag of a language string up to ASCII
      case, the two zeros, and all NaNs. */
  predicate SameUpToFolds(v: RawValue, w: RawValue) {
    match (v, w)
    case (Float(a), Float(b)) => FoldFloat(a) == FoldFloat(b)
    case (LangText(s, l), LangText(t, m)) => s == t && Lowercase(l) == Lowercase(m)
    case _ => v == w
  }

  predicate NulFree(s: Bytes) { 0 !in s }

  /** Language tags and datatype IRIs never contain a NUL byte. */
  predicate TagsNulFree(v: RawValue) {
    (v.LangText? ==> NulFree(v.lang)) && (v.Typed? ==> NulFree(v.datatypeIri))
  }

  lemma {:induction false} BigEndianInjective(m: nat, n: nat, width: nat)
    requires BigEndian(m, width) == BigEndian(n, width)
    requires m < Pow256(width) && n < Pow256(width)
    ensures m == n
  {
    if width > 0 {
      var a, b := BigEndian(m, width), BigEndian(n, width);
      assert a[..width - 1] == BigEndian(m / 256, width - 1) && a[width - 1] == m % 256;
      assert b[..width - 1] == BigEndian(n / 256, width - 1) && b[width - 1] == n % 256;
      BigEndianInjective(m / 256, n / 256, width - 1);
    }
  }

  lemma {:induction false} LittleEndianInjective(m: nat, n: nat, width: nat)
    requires LittleEndian(m, width) == LittleEndian(n, width)
    requires m < Pow256(width) && n < Pow256(width)
    ensures m == n
  {
    if width > 0 {
      var a, b := LittleEndian(m, width), LittleEndian(n, width);
      assert a[1..] == LittleEndian(m / 256, width - 1) && a[0] == m % 256;
      assert b[1..] == LittleEndian(n / 256, width - 1) && b[0] == n % 256;
      LittleEndianInjective(m / 256, n / 256, width - 1);
    }
  }

  function Pow256(k: nat): nat { if k == 0 then 1 else 256 * Pow256(k - 1) }

  lemma Widths()
    ensures Pow256(4) == 0x1_0000_0000 && Pow256(8) == 0x1_0000_0000_0000_0000
  {
    assert Pow256(3) == 0x100_0000;
    assert Pow256(4) == 0x1_0000_0000;
    assert Pow256(5) == 0x100_0000_0000;
    assert Pow256(6) == 0x1_0000_0000_0000;
    assert Pow256(7) == 0x100_0000_0000_0000;
  }

  lemma {:induction false} VectorBytesInjective(xs: seq<Float32>, ys: seq<Float32>)
    requires VectorBytes(xs) == VectorBytes(ys)
    ensures xs == ys
  {
    if xs != [] && ys != [] {
      var a, b := VectorBytes(xs), VectorBytes(ys);
      assert a[..4] == LittleEndian(xs[0], 4) && a[4..] == VectorBytes(xs[1..]);
      assert b[..4] == LittleEndian(ys[0], 4) && b[4..] == VectorBytes(ys[1..]);
      Widths();
      LittleEndianInjective(xs[0], ys[0], 4);
      VectorBytesInjective(xs[1..], ys[1..]);
    }
  }

  /** A NUL-terminated prefix can be read back off the front. */
  lemma {:induction false} SplitAtNul(p: Bytes, s: Bytes, q: Bytes, t: Bytes)
    requires NulFree(p) && NulFree(q)
    requires p + [0] + s == q + [0] + t
    ensures p == q && s == t
  {
    var x, y := p + [0] + s, q + [0] + t;
    assert x[|p|] == 0 && y[|q|] == 0;
    assert forall i :: 0 <= i < |p| ==> x[i] == p[i] && p[i] in p;
    assert forall i :: 0 <= i < |q| ==> y[i] == q[i] && q[i] in q;
    assert |p| == |q|;
    assert p == x[..|p|] && q == y[..|q|];
    assert s == x[|p| + 1..] && t == y[|q| + 1..];
  }

  /** The payload behind the one-byte type tag. */
  function Payload(v: RawValue): Bytes { CanonicalBytes(v)[1..] }

  lemma NumbersCanonical(v: RawValue, w: RawValue)
    requires (v.Int? && w.Int?) || (v.Float? && w.Float?)
    requires Payload(v) == Payload(w)
    ensures SameUpToFolds(v, w)
  {
    Widths();
    if v.Int? {
      assert Payload(v) == BigEndian(TwosComplement(v.i), 8) && Payload(w) == BigEndian(TwosComplement(w.i), 8);
      BigEndianInjective(TwosComplement(v.i), TwosComplement(w.i), 8);
    } else {
      assert Payload(v) == BigEndian(FoldFloat(v.f), 8) && Payload(w) == BigEndian(FoldFloat(w.f), 8);
      BigEndianInjective(FoldFloat(v.f), FoldFloat(w.f), 8);
    }
  }

  lemma SequencesCanonical(v: RawValue, w: RawValue)
    requires (v.Text? && w.Text?) || (v.Blob? && w.Blob?) || (v.Vector? && w.Vector?)
    requires Payload(v) == Payload(w)
    ensures v == w
  {
    match v {
      case Text(s) => assert Payload(v) == s && Payload(w) == w.text;
      case Blob(s) => assert Payload(v) == s && Payload(w) == w.blob;
      case Vector(xs) =>
        assert Payload(v) == VectorBytes(xs) && Payload(w) == VectorBytes(w.floats);
        VectorBytesInjective(xs, w.floats);
    }
  }

  lemma TaggedCanonical(v: RawValue, w: RawValue)
    requires (v.LangText? && w.LangText?) || (v.Typed? && w.Typed?)
    requires TagsNulFree(v) && TagsNulFree(w)
    requires Payload(v) == Payload(w)
    ensures SameUpToFolds(v, w)
  {
    if v.LangText? {
      assert Payload(v) == Lowercase(v.lang) + [0] + v.content && Payload(w) == Lowercase(w.lang) + [0] + w.content;
      SplitAtNul(Lowercase(v.lang), v.content, Lowercase(w.lang), w.content);
    } else {
      assert Payload(v) == v.datatypeIri + [0] + v.lexical && Payload(w) == w.datatypeIri + [0] + w.lexical;
      SplitAtNul(v.datatypeIri, v.lexical, w.datatypeIri, w.lexical);
    }
  }

  /** The encoding separates exactly the values that differ beyond the folds. */
  lemma EncodingIsCanonical(v: RawValue, w: RawValue)
    requires TagsNulFree(v) && TagsNulFree(w)
    ensures CanonicalBytes(v) == CanonicalBytes(w) <==> SameUpToFolds(v, w)
  {
    var a, b := CanonicalBytes(v), CanonicalBytes(w);
    if a == b {
      assert a[0] == b[0] && Payload(v) == Payload(w);
      match v {
        case Null =>
        case Bool(_) => assert a[1] == b[1];
        case Int(_) => NumbersCanonical(v, w);
        case Float(_) => NumbersCanonical(v, w);
        case LangText(_, _) => TaggedCanonical(v, w);
        case Typed(_, _) => TaggedCanonical(v, w);
        case _ => SequencesCanonical(v, w);
      }
    }
  }

  // ── Which values the encoding pins down ──────────────────────────────────

  /** The separator can be read in another place: a NUL in either part of a typed
      literal, a NUL in a language tag, or one in the text behind bytes that could
      themselves end a (lower-cased) tag. */
  predicate Ambiguous(v: RawValue) {
    match v
    case Typed(lexical, datatypeIri) => 0 in datatypeIri || 0 in lexical
    case LangText(text, lang) => 0 in lang || exists i :: 0 <= i < |text| && EndsTag(text, i)
    case _ => false
  }

  predicate EndsTag(text: Bytes, i: nat)
    requires i < |text|
  {
    text[i] == 0 && Lowercase(text[..i]) == text[..i]
  }

  lemma {:induction false} LowercaseConcat(p: Bytes, q: Bytes)
    ensures Lowercase(p + q) == Lowercase(p) + Lowercase(q)
  {
    hide Lowercase;
    assert forall i :: 0 <= i < |p + q| ==> Lowercase(p + q)[i] == (Lowercase(p) + Lowercase(q))[i];
  }

  lemma LowercaseTwice(p: Bytes, k: nat)
    requires k <= |p|
    ensures Lowercase(Lowercase(p)[..k]) == Lowercase(p)[..k]
  {}

  lemma TypedCollides(v: RawValue) returns (w: RawValue)
    requires v.Typed? && Ambiguous(v)
    ensures CanonicalBytes(v) == CanonicalBytes(w) && !SameUpToFolds(v, w)
  {
    var x := v.datatypeIri + [0] + v.lexical;
    var k: nat;
    if 0 in v.datatypeIri {
      k :| 0 <= k < |v.datatypeIri| && v.datatypeIri[k] == 0;
    } else {
      var i :| 0 <= i < |v.lexical| && v.lexical[i] == 0;
      k := |v.datatypeIri| + 1 + i;
    }
    AroundNul(x, k);
    w := Typed(x[k + 1..], x[..k]);
  }

  lemma Regroup(a: Bytes, b: Bytes, c: Bytes)
    ensures (a + [0] + b) + [0] + c == a + [0] + (b + [0] + c)
  {}

  lemma AroundNul(x: Bytes, k: nat)
    requires k < |x| && x[k] == 0
    ensures x == x[..k] + [0] + x[k + 1..]
  {}

  function TaggedBytes(tag: Bytes, text: Bytes): Bytes { [7] + (tag + [0] + text) }

  /** A NUL in the tag: the tag ends there and the rest is text. */
  lemma TagEndsEarly(text: Bytes, lang: Bytes, k: nat)
    requires k < |lang| && lang[k] == 0
    ensures var tag := Lowercase(lang);
            CanonicalBytes(LangText(tag[k + 1..] + [0] + text, tag[..k])) == CanonicalBytes(LangText(text, lang))
  {
    var tag := Lowercase(lang);
    LowercaseTwice(lang, k);
    AroundNul(tag, k);
    Regroup(tag[..k], tag[k + 1..], text);
    assert CanonicalBytes(LangText(text, lang)) == TaggedBytes(tag, text);
    assert CanonicalBytes(LangText(tag[k + 1..] + [0] + text, tag[..k]))
        == TaggedBytes(tag[..k], tag[k + 1..] + [0] + text);
  }

  lemma LowercaseLonger(lang: Bytes, text: Bytes)
    requires Lowercase(text) == text
    ensures Lowercase(lang + [0] + text) == Lowercase(lang) + [0] + text
  {
    LowercaseConcat(lang + [0], text);
    LowercaseConcat(lang, [0]);
    assert Lowercase([0]) == [0];
  }

  /** A NUL in the text behind lower-case bytes: the tag goes on up to there. */
  lemma TagEndsLate(text: Bytes, lang: Bytes, i: nat)
    requires i < |text| && EndsTag(text, i)
    ensures CanonicalBytes(LangText(text[i + 1..], lang + [0] + text[..i])) == CanonicalBytes(LangText(text, lang))
  {
    var tag := Lowercase(lang);
    LowercaseLonger(lang, text[..i]);
    AroundNul(text, i);
    Regroup(tag, text[..i], text[i + 1..]);
    assert CanonicalBytes(LangText(text, lang)) == TaggedBytes(tag, text);
    assert CanonicalBytes(LangText(text[i + 1..], lang + [0] + text[..i]))
        == TaggedBytes(tag + [0] + text[..i], text[i + 1..]);
  }

  lemma TagCollides(v: RawValue) returns (w: RawValue)
    requires v.LangText? && Ambiguous(v)
    ensures CanonicalBytes(v) == CanonicalBytes(w) && !SameUpToFolds(v, w)
  {
    if 0 in v.lang {
      var k :| 0 <= k < |v.lang| && v.lang[k] == 0;
      TagEndsEarly(v.content, v.lang, k);
      w := LangText(Lowercase(v.lang)[k + 1..] + [0] + v.content, Lowercase(v.lang)[..k]);
    } else {
      var i :| 0 <= i < |v.content| && EndsTag(v.content, i);
      TagEndsLate(v.content, v.lang, i);
      w := LangText(v.content[i + 1..], v.lang + [0] + v.content[..i]);
    }
  }

  lemma TypedPinned(v: RawValue, w: RawValue)
    requires v.Typed? && w.Typed? && !Ambiguous(v) && Payload(v) == Payload(w)
    ensures v == w
  {
    var x := v.datatypeIri + [0] + v.lexical;
    assert x == Payload(v) == w.datatypeIri + [0] + w.lexical;
    assert x[|w.datatypeIri|] == 0;
    assert forall i :: 0 <= i < |x| && i != |v.datatypeIri| ==> x[i] in v.datatypeIri || x[i] in v.lexical;
    assert v.datatypeIri == x[..|v.datatypeIri|] && w.datatypeIri == x[..|w.datatypeIri|];
    assert v.lexical == x[|v.datatypeIri| + 1..] && w.lexical == x[|w.datatypeIri| + 1..];
  }

  lemma LowercaseNulFree(s: Bytes)
    requires NulFree(s)
    ensures NulFree(Lowercase(s))
  {
    forall i | 0 <= i < |s| ensures Lowercase(s)[i] != 0 { assert s[i] in s; }
  }

  lemma LongerPrefix(p: Bytes, s: Bytes, q: Bytes, t: Bytes)
    requires p + [0] + s == q + [0] + t && |q| > |p|
    ensures var i := |q| - |p| - 1; i < |s| && s[i] == 0 && s[..i] == q[|p| + 1..]
  {
    var x, i := p + [0] + s, |q| - |p| - 1;
    assert x == q + [0] + t && x[|q|] == 0;
    assert s[i] == x[|q|];
    assert s[..i] == x[|p| + 1..|q|] == q[|p| + 1..];
  }

  lemma LowercaseTail(s: Bytes, k: nat)
    requires k <= |s|
    ensures Lowercase(Lowercase(s)[k..]) == Lowercase(s)[k..]
  {
    hide Lowercase;
    var t := Lowercase(s)[k..];
    forall i | 0 <= i < |t| ensures Lowercase(t)[i] == t[i] { LowerTwice(s[k + i]); }
  }

  lemma LowerTwice(b: Byte)
    ensures LowerByte(LowerByte(b)) == LowerByte(b)
  {}

  /** A longer tag in the same bytes ends in the middle of the text. */
  lemma LongerTag(text: Bytes, lang: Bytes, text': Bytes, lang': Bytes)
    requires Lowercase(lang) + [0] + text == Lowercase(lang') + [0] + text' && |lang'| > |lang|
    ensures exists i :: 0 <= i < |text| && EndsTag(text, i)
  {
    LongerPrefix(Lowercase(lang), text, Lowercase(lang'), text');
    LowercaseTail(lang', |lang| + 1);
    assert EndsTag(text, |lang'| - |lang| - 1);
  }

  lemma TagPinned(v: RawValue, w: RawValue)
    requires v.LangText? && w.LangText? && !Ambiguous(v) && Payload(v) == Payload(w)
    ensures SameUpToFolds(v, w)
  {
    var p, q := Lowercase(v.lang), Lowercase(w.lang);
    var x := p + [0] + v.content;
    assert x == Payload(v) == q + [0] + w.content;
    assert x[|q|] == 0;
    LowercaseNulFree(v.lang);
    assert forall i :: 0 <= i < |p| ==> x[i] in p;
    if |q| > |p| { LongerTag(v.content, v.lang, w.content, w.lang); }
    assert p == x[..|p|] && q == x[..|q|];
    assert v.content == x[|p| + 1..] && w.content == x[|q| + 1..];
  }

  /** A value shares its encoding with no other, beyond the folds, exactly when it
      is not ambiguous. */
  lemma EncodingIdentifies(v: RawValue)
    ensures !Ambiguous(v) <==> forall w :: CanonicalBytes(v) == CanonicalBytes(w) ==> SameUpToFolds(v, w)
  {
    if Ambiguous(v) {
      var w: RawValue;
      if v.Typed? { w := TypedCollides(v); } else { w := TagCollides(v); }
    } else {
      forall w | CanonicalBytes(v) == CanonicalBytes(w) ensures SameUpToFolds(v, w) {
        assert CanonicalBytes(v)[0] == CanonicalBytes(w)[0] && Payload(v) == Payload(w);
        if v.Typed? {
          TypedPinned(v, w);
        } else if v.LangText? {
          TagPinned(v, w);
        } else {
          EncodingIsCanonical(v, w);
        }
      }
    }
  }

  // ── Equal values ─────────────────────────────────────────────────────────

  /** Values that compare equal are found under the same key, except vectors:
      their floats are encoded unfolded. */
  lemma EqualValuesEncodeEqually(v: RawValue, w: RawValue)
    requires ValueEq(v, w) && !v.Vector?
    ensures CanonicalBytes(v) == CanonicalBytes(w)
  {}

  /** Equal vectors encode equally only when they are the same bit for bit. */
  lemma EqualVectorsEncode(v: RawValue, w: RawValue)
    requires ValueEq(v, w) && v.Vector?
    ensures CanonicalBytes(v) == CanonicalBytes(w) <==> v == w
  {
    if CanonicalBytes(v) == CanonicalBytes(w) {
      EncodingIsCanonical(v, w);
    }
  }

  function Negated(x: Float32): Float32 { if x < 0x8000_0000 then x + 0x8000_0000 else x - 0x8000_0000 }

  predicate HasZero(xs: seq<Float32>) { exists i :: 0 <= i < |xs| && IsZero32(xs[i]) }

  predicate HasNaN(xs: seq<Float32>) { exists i :: 0 <= i < |xs| && IsNaN32(xs[i]) }

  lemma OtherEncoding(xs: seq<Float32>) returns (w: RawValue)
    requires HasZero(xs) && !HasNaN(xs)
    ensures ValueEq(Vector(xs), w) && CanonicalBytes(Vector(xs)) != CanonicalBytes(w)
  {
    var i :| 0 <= i < |xs| && IsZero32(xs[i]);
    w := Vector(xs[i := Negated(xs[i])]);
    forall j | 0 <= j < |xs| ensures Float32Eq(xs[j], w.floats[j]) {}
    assert w.floats[i] != xs[i];
    EqualVectorsEncode(Vector(xs), w);
  }

  lemma OneEncoding(xs: seq<Float32>, w: RawValue)
    requires ValueEq(Vector(xs), w)
    ensures !HasNaN(xs) && (!HasZero(xs) ==> w == Vector(xs))
  {
    forall i | 0 <= i < |xs| ensures !IsNaN32(xs[i]) && (!IsZero32(xs[i]) ==> w.floats[i] == xs[i]) {
      assert Float32Eq(xs[i], w.floats[i]);
    }
    if !HasZero(xs) { assert w.floats == xs; }
  }

  /** A vector has an equal with another encoding exactly when it has a zero
      component and no NaN. */
  lemma VectorsWithTwoEncodings(xs: seq<Float32>)
    ensures (exists w :: ValueEq(Vector(xs), w) && CanonicalBytes(Vector(xs)) != CanonicalBytes(w))
       <==> HasZero(xs) && !HasNaN(xs)
  {
    if w :| ValueEq(Vector(xs), w) && CanonicalBytes(Vector(xs)) != CanonicalBytes(w) { OneEncoding(xs, w); }
    if HasZero(xs) && !HasNaN(xs) { var w := OtherEncoding(xs); }
  }

  // ── Settled values ───────────────────────────────────────────────────────

  /** A value on which `==` is reflexive and has one representative per class:
      no NaN and no negative zero. */
  predicate Settled(v: RawValue) {
    (v.Float? ==> !IsNaN(v.f) && (IsZero(v.f) ==> v.f == 0)) &&
    (v.Vector? ==>
       forall i :: 0 <= i < |v.floats| ==> !IsNaN32(v.floats[i]) && (IsZero32(v.floats[i]) ==> v.floats[i] == 0))
  }

  type Value = v: RawValue | Settled(v) witness Null

  /** On settled values Rust's `==` is identity, so the query model may use
      Dafny's equality; and settledness is exactly what that takes. */
  lemma SettledEquality(v: RawValue)
    ensures Settled(v) ==> forall w: Value :: ValueEq(v, w) <==> v == w
    ensures ValueEq(v, v) && (forall w :: ValueEq(v, w) ==> v == w) ==> Settled(v)
  {
    if ValueEq(v, v) && (forall w :: ValueEq(v, w) ==> v == w) {
      if v.Float? && IsZero(v.f) {
        assert ValueEq(v, Float(0));
      }
      if v.Vector? {
        forall i | 0 <= i < |v.floats| && IsZero32(v.floats[i]) ensures v.floats[i] == 0 {
          var w := Vector(v.floats[i := 0]);
          assert forall j :: 0 <= j < |v.floats| ==> Float32Eq(v.floats[j], v.floats[j]);
          assert ValueEq(v, w);
          assert w.floats[i] == 0;
        }
      }
    }
  }

  // ── The folds and the layout, bit by bit ─────────────────────────────────

  /** The same byte, or the same ASCII letter in either case. */
  predicate SameLetter(a: Byte, b: Byte) {
    a == b || (65 <= a <= 90 && b == a + 32) || (65 <= b <= 90 && a == b + 32)
  }

  lemma LowerIsSameLetter(a: Byte, b: Byte)
    ensures LowerByte(a) == LowerByte(b) <==> SameLetter(a, b)
  {}

  lemma LowercaseSame(a: Bytes, b: Bytes)
    ensures Lowercase(a) == Lowercase(b) <==> |a| == |b| && forall i :: 0 <= i < |a| ==> SameLetter(a[i], b[i])
  {
    hide Lowercase;
    if |a| == |b| {
      forall i | 0 <= i < |a| ensures Lowercase(a)[i] == Lowercase(b)[i] <==> SameLetter(a[i], b[i]) {
        LowerIsSameLetter(a[i], b[i]);
      }
    }
  }

  /** Texts that differ in their tags alone have the same encoding exactly when the
      tags agree up to the case of ASCII letters. */
  lemma TagsFoldCase(text: Bytes, a: Bytes, b: Bytes)
    ensures CanonicalBytes(LangText(text, a)) == CanonicalBytes(LangText(text, b))
       <==> |a| == |b| && forall i :: 0 <= i < |a| ==> SameLetter(a[i], b[i])
  {
    LowercaseSame(a, b);
    var p, q := Lowercase(a), Lowercase(b);
    assert CanonicalBytes(LangText(text, a))[1..] == p + [0] + text;
    assert CanonicalBytes(LangText(text, b))[1..] == q + [0] + text;
    if p + [0] + text == q + [0] + text {
      assert p == (p + [0] + text)[..|p|] && q == (q + [0] + text)[..|q|];
    }
  }

  /** All exponent bits set and a fraction: not a number. */
  predicate NoNumber(f: Float64) { f / 0x10_0000_0000_0000 % 0x800 == 0x7FF && f % 0x10_0000_0000_0000 != 0 }

  lemma NaNIsNoNumber(f: Float64)
    ensures IsNaN(f) <==> NoNumber(f)
  {}

  lemma ZeroBits(f: Float64)
    ensures IsZero(f) <==> f == 0 || f == 0x8000_0000_0000_0000
  {}

  /** The same for the components of a vector, which `==` compares as floats. */
  lemma SingleBits(f: Float32)
    ensures IsNaN32(f) <==> f / 0x80_0000 % 0x100 == 0xFF && f % 0x80_0000 != 0
    ensures IsZero32(f) <==> f == 0 || f == 0x8000_0000
  {}

  lemma FoldsAlike(f: Float64, g: Float64)
    ensures FoldFloat(f) == FoldFloat(g)
       <==> f == g || (IsZero(f) && IsZero(g)) || (IsNaN(f) && IsNaN(g))
  {
    assert IsNaN(QUIET_NAN) && !IsNaN(0) && IsZero(0);
    hide IsNaN, IsZero;
  }

  lemma FloatBytes(f: Float64, g: Float64)
    ensures CanonicalBytes(Float(f)) == CanonicalBytes(Float(g)) <==> FoldFloat(f) == FoldFloat(g)
  {
    EncodingIsCanonical(Float(f), Float(g));
  }

  /** Floats have the same encoding exactly when they are the same bits, both zero, or
      both no number. */
  lemma FloatsFold(f: Float64, g: Float64)
    ensures CanonicalBytes(Float(f)) == CanonicalBytes(Float(g))
       <==> f == g || (f in {0, 0x8000_0000_0000_0000} && g in {0, 0x8000_0000_0000_0000}) ||
            (NoNumber(f) && NoNumber(g))
  {
    hide CanonicalBytes, FoldFloat, IsNaN, IsZero, NoNumber;
    FloatBytes(f, g);
    FoldsAlike(f, g);
    NaNIsNoNumber(f);
    NaNIsNoNumber(g);
    ZeroBits(f);
    ZeroBits(g);
  }

  // Reading an encoding back.

  function FromBig(b: Bytes): nat { if b == [] then 0 else FromBig(b[..|b| - 1]) * 256 + b[|b| - 1] }

  function FromLittle(b: Bytes): nat { if b == [] then 0 else b[0] + 256 * FromLittle(b[1..]) }

  lemma {:induction false} BigReadsBack(n: nat, width: nat)
    requires n < Pow256(width)
    ensures FromBig(BigEndian(n, width)) == n
  {
    if width > 0 {
      var b := BigEndian(n, width);
      assert b[..|b| - 1] == BigEndian(n / 256, width - 1) && b[|b| - 1] == n % 256;
      DigitsBelow(n, width);
      BigReadsBack(n / 256, width - 1);
    }
  }

  lemma DigitsBelow(n: nat, width: nat)
    requires width > 0 && n < Pow256(width)
    ensures n / 256 < Pow256(width - 1)
  {}

  lemma {:induction false} LittleReadsBack(n: nat, width: nat)
    requires n < Pow256(width)
    ensures FromLittle(LittleEndian(n, width)) == n
  {
    if width > 0 {
      var b := LittleEndian(n, width);
      assert b[0] == n % 256 && b[1..] == LittleEndian(n / 256, width - 1);
      DigitsBelow(n, width);
      LittleReadsBack(n / 256, width - 1);
    }
  }

  lemma {:induction false} VectorReadsBack(xs: seq<Float32>, k: nat)
    requires k < |xs|
    ensures FromLittle(VectorBytes(xs)[4 * k..4 * k + 4]) == xs[k]
  {
    var first, rest := LittleEndian(xs[0], 4), VectorBytes(xs[1..]);
    assert VectorBytes(xs) == first + rest;
    if k == 0 {
      Widths();
      LittleReadsBack(xs[0], 4);
      assert (first + rest)[0..4] == first;
    } else {
      VectorReadsBack(xs[1..], k - 1);
      assert (first + rest)[4 * k..4 * k + 4] == rest[4 * (k - 1)..4 * (k - 1) + 4];
    }
  }

  lemma IntLayout(i: Int64)
    ensures var b := CanonicalBytes(Int(i));
            |b| == 9 && b[0] == 2 && FromBig(b[1..]) == if i >= 0 then i else 0x1_0000_0000_0000_0000 + i
  {
    Widths();
    assert CanonicalBytes(Int(i))[1..] == BigEndian(TwosComplement(i), 8);
    BigReadsBack(TwosComplement(i), 8);
  }

  lemma FloatLayout(f: Float64)
    ensures var b := CanonicalBytes(Float(f));
            |b| == 9 && b[0] == 3 && (!NoNumber(f) && f != 0x8000_0000_0000_0000 ==> FromBig(b[1..]) == f)
  {
    Widths();
    NaNIsNoNumber(f);
    ZeroBits(f);
    hide NoNumber, IsNaN, IsZero;
    assert CanonicalBytes(Float(f))[1..] == BigEndian(FoldFloat(f), 8);
    BigReadsBack(FoldFloat(f), 8);
  }

  lemma VectorLayout(xs: seq<Float32>)
    ensures var b := CanonicalBytes(Vector(xs));
            |b| == 1 + 4 * |xs| && b[0] == 6 &&
            forall k :: 0 <= k < |xs| ==> FromLittle(b[1..][4 * k..4 * k + 4]) == xs[k]
  {
    assert CanonicalBytes(Vector(xs))[1..] == VectorBytes(xs);
    forall k | 0 <= k < |xs| ensures FromLittle(VectorBytes(xs)[4 * k..4 * k + 4]) == xs[k] { VectorReadsBack(xs, k); }
  }

  lemma TagLayout(text: Bytes, lang: Bytes)
    ensures var b := CanonicalBytes(LangText(text, lang));
            |b| == 2 + |lang| + |text| && b[0] == 7 && b[1 + |lang|] == 0 && b[2 + |lang|..] == text &&
            forall k :: 0 <= k < |lang| ==> SameLetter(b[1 + k], lang[k]) && !(65 <= b[1 + k] <= 90)
  {
    hide Lowercase;
    var b := CanonicalBytes(LangText(text, lang));
    assert b == [7] + Lowercase(lang) + [0] + text;
    forall k | 0 <= k < |lang| ensures b[1 + k] == LowerByte(lang[k]) {}
  }

  lemma PlainLayout(v: RawValue)
    ensures match v
            case Null => CanonicalBytes(v) == [0]
            case Bool(x) => CanonicalBytes(v) == if x then [1, 1] else [1, 0]
            case Text(s) => CanonicalBytes(v) == [4] + s
            case Blob(s) => CanonicalBytes(v) == [5] + s
            case Typed(lexical, datatypeIri) => CanonicalBytes(v) == [8] + datatypeIri + [0] + lexical
            case _ => true
  {}

  /** A type byte, then the payload: integers as eight bytes of two's complement and
      floats as their eight bytes, most significant first; the components of a vector
      as four bytes each, least significant first; text and blobs as they are; a tag
      in lower case or a datatype, a NUL, and the text. */
  lemma Layout(v: RawValue)
    ensures var b := CanonicalBytes(v);
            match v
            case Null => b == [0]
            case Bool(x) => b == if x then [1, 1] else [1, 0]
            case Int(i) =>
              |b| == 9 && b[0] == 2 && FromBig(b[1..]) == if i >= 0 then i else 0x1_0000_0000_0000_0000 + i
            case Float(f) =>
              |b| == 9 && b[0] == 3 && (!NoNumber(f) && f != 0x8000_0000_0000_0000 ==> FromBig(b[1..]) == f)
            case Text(s) => b == [4] + s
            case Blob(s) => b == [5] + s
            case Vector(xs) =>
              |b| == 1 + 4 * |xs| && b[0] == 6 &&
              forall k :: 0 <= k < |xs| ==> FromLittle(b[1..][4 * k..4 * k + 4]) == xs[k]
            case LangText(text, lang) =>
              |b| == 2 + |lang| + |text| && b[0] == 7 && b[1 + |lang|] == 0 && b[2 + |lang|..] == text &&
              forall k :: 0 <= k < |lang| ==> SameLetter(b[1 + k], lang[k]) && !(65 <= b[1 + k] <= 90)
            case Typed(lexical, datatypeIri) => b == [8] + datatypeIri + [0] + lexical
  {
    hide CanonicalBytes, FromBig, FromLittle, SameLetter, NoNumber;
    match v {
      case Int(i) => IntLayout(i);
      case Float(f) => FloatLayout(f);
      case Vector(xs) => VectorLayout(xs);
      case LangText(text, lang) => TagLayout(text, lang);
      case _ => PlainLayout(v);
    }
  }
}
