/**
 The GGUF container: a header of typed key-values and tensor descriptions, padding to 32 bytes, then
 tensor data. Ten kinds of value survive a write and a read; every other kind comes back as the
 empty string.
 */
module Gguf {
  import opened Layout
  import opened Within
  import opened Bytes

  /** Metadata values; floats are bit patterns. */
  datatype Value =
    | NoValue
    | BoolV(b: bool)
    | U8V(u: nat) | I8V(i: int) | U16V(u: nat) | I16V(i: int)
    | U32V(u: nat) | I32V(i: int) | U64V(u: nat) | I64V(i: int)
    | F32V(bits: nat) | F64V(bits: nat)
    | StrV(s: string) | StrsV(strs: seq<string>)
    | I32sV(ints: seq<int>) | I64sV(ints: seq<int>) | F32sV(floats: seq<nat>)

  datatype Info = Info(name: string, dims: seq<nat>, kind: nat, offset: nat)

  datatype Parts = Parts(version: nat, kvs: seq<(string, Value)>, infos: seq<Info>)

  datatype File = File(version: nat, kv: map<string, Value>, infos: seq<Info>, dataOffset: nat)

  // ----- signed integers of any width -----

  function Folded(x: int, n: nat): nat { x % Pow256(n) }

  function Unfolded(u: nat, n: nat): int { if 2 * u < Pow256(n) then u else u - Pow256(n) }

  const TWO31: int := 0x8000_0000

  predicate InInt32(x: int) { -TWO31 <= x < TWO31 }

  lemma FoldedBack(x: int)
    requires InInt32(x)
    ensures Folded(x, 4) < TWO32 && Unfolded(Folded(x, 4), 4) == x
  {
    Widths();
    if x < 0 { assert x % TWO32 == x + TWO32; }
  }

  // ----- strings -----

  function EncText(s: string): Data { U64(|s|) + ToBytes(s) }

  function DecText(t: Data, p: nat): (r: Dec<string>)
    ensures r.Got? ==> p < r.end <= |t|
  {
    var (n, p1) :- DecU64(t, p);
    DecChars(t, p1, n)
  }

  predicate TextFits(s: string) { IsBytes(s) && |s| < TWO64 }

  lemma TextReads(t: Data, p: nat, s: string)
    requires TextFits(s) && At(t, p, EncText(s))
    ensures DecText(t, p) == Got(s, p + |EncText(s)|)
  {
    AtJoin(t, p, U64(|s|), ToBytes(s));
    U64Reads(t, p, |s|);
    BytesRoundTrip(t, p + 8, s);
  }

  lemma TextSteady(t: Data, s: Data, p: nat)
    requires DecText(t, p).Got?
    ensures DecText(t + s, p) == DecText(t, p)
  {
    FixedStable(t, s, p, 8);
    var (n, p1) := DecU64(t, p).Extract();
    FromBytesStable(t, s, p1, n);
  }

  // ----- values as the reader sees them -----

  /** Bytes of a scalar value type; 0 for anything else. */
  function Width(kind: nat): (r: nat)
    ensures r == 0 || r == 1 || r == 2 || r == 4 || r == 8
  {
    match kind
    case 0 => 1
    case 1 => 1
    case 2 => 2
    case 3 => 2
    case 4 => 4
    case 5 => 4
    case 6 => 4
    case 7 => 1
    case 10 => 8
    case 11 => 8
    case 12 => 8
    case _ => 0
  }

  function Scalar(kind: nat, u: nat): Value
    requires Width(kind) > 0
  {
    match kind
    case 0 => U8V(u)
    case 1 => I8V(Unfolded(u, 1))
    case 2 => U16V(u)
    case 3 => I16V(Unfolded(u, 2))
    case 4 => U32V(u)
    case 5 => I32V(Unfolded(u, 4))
    case 6 => F32V(u)
    case 7 => BoolV(u != 0)
    case 10 => U64V(u)
    case 11 => I64V(Unfolded(u, 8))
    case _ => F64V(u)
  }

  function DecStrings(): (Data, nat) -> Dec<string> { (t: Data, p: nat) => DecText(t, p) }

  function DecInt32(t: Data, p: nat): (r: Dec<int>)
    ensures r.Got? ==> p < r.end <= |t|
  {
    var (u, p1) :- DecU32(t, p);
    Got(Unfolded(u, 4), p1)
  }

  function DecInt32s(): (Data, nat) -> Dec<int> { (t: Data, p: nat) => DecInt32(t, p) }
  function DecWords(): (Data, nat) -> Dec<nat> { (t: Data, p: nat) => DecU32(t, p) }

  /** Decoder `d` moves forward and stays inside `t`. */
  ghost predicate Advances<T(!new)>(d: (Data, nat) -> Dec<T>, t: Data) {
    forall q: nat :: d(t, q).Got? ==> q <= d(t, q).end <= |t|
  }

  lemma {:induction false} ManyAdvance<T(!new)>(d: (Data, nat) -> Dec<T>, t: Data, p: nat, n: nat)
    requires Advances(d, t) && p <= |t|
    ensures DecMany(d, t, p, n).Got? ==> p <= DecMany(d, t, p, n).end <= |t|
  {
    if n > 0 { ManyAdvance(d, t, p, n - 1); }
  }

  function DecValue(t: Data, p: nat, kind: nat): (r: Dec<Value>)
    requires p <= |t|
    ensures r.Got? ==> p < r.end <= |t|
    decreases |t| - p, 1
  {
    if kind == 8 then
      var (s, p1) :- DecText(t, p);
      Got(StrV(s), p1)
    else if kind == 9 then DecArray(t, p)
    else if Width(kind) == 0 then Bad(UnknownValueType)
    else
      var (u, p1) :- DecFixed(t, p, Width(kind));
      Got(Scalar(kind, u), p1)
  }

  function DecArray(t: Data, p: nat): (r: Dec<Value>)
    requires p <= |t|
    ensures r.Got? ==> p < r.end <= |t|
    decreases |t| - p, 0
  {
    var (et, p1) :- DecU32(t, p);
    var (n, p2) :- DecU64(t, p1);
    if et == 8 then
      ManyAdvance(DecStrings(), t, p2, n);
      var (xs, p3) :- DecMany(DecStrings(), t, p2, n);
      Got(StrsV(xs), p3)
    else if et == 5 then
      ManyAdvance(DecInt32s(), t, p2, n);
      var (xs, p3) :- DecMany(DecInt32s(), t, p2, n);
      Got(I32sV(xs), p3)
    else if et == 11 then
      ManyAdvance(DecDim(), t, p2, n);
      var (xs, p3) :- DecMany(DecDim(), t, p2, n);
      Got(I64sV(xs), p3)
    else if et == 6 then
      ManyAdvance(DecWords(), t, p2, n);
      var (xs, p3) :- DecMany(DecWords(), t, p2, n);
      Got(F32sV(xs), p3)
    else DecSkip(t, p2, et, n)
  }

  /** Elements of an array of any other type are read and dropped. */
  function DecSkip(t: Data, p: nat, kind: nat, n: nat): (r: Dec<Value>)
    requires p <= |t|
    ensures r.Got? ==> p <= r.end <= |t|
    decreases |t| - p, 2
  {
    if n == 0 then Got(NoValue, p)
    else
      var (_, p1) :- DecValue(t, p, kind);
      DecSkip(t, p1, kind, n - 1)
  }

  function DecTagged(t: Data, p: nat): (r: Dec<Value>)
    ensures r.Got? ==> p < r.end <= |t|
  {
    var (kind, p1) :- DecU32(t, p);
    DecValue(t, p1, kind)
  }

  // ----- values as the writer lays them out -----

  predicate Handled(v: Value) {
    v.StrV? || v.U32V? || v.I32V? || v.F32V? || v.BoolV? || v.U64V? || v.StrsV? || v.I32sV? || v.I64sV? || v.F32sV?
  }

  /** What a value becomes when written. */
  function Written(v: Value): Value { if Handled(v) then v else StrV("") }

  function EncTexts(): string -> Data { (s: string) => EncText(s) }
  function EncInt32s(): int -> Data { (x: int) => U32(Folded(x, 4)) }
  function EncWords(): nat -> Data { (x: nat) => U32(x) }

  function EncArray<T>(kind: nat, e: T -> Data, xs: seq<T>): Data { U32(9) + U32(kind) + U64(|xs|) + EncMany(e, xs, |xs|) }

  function EncValue(v: Value): Data {
    match v
    case StrV(s) => U32(8) + EncText(s)
    case U32V(u) => U32(4) + U32(u)
    case I32V(i) => U32(5) + U32(Folded(i, 4))
    case F32V(bits) => U32(6) + U32(bits)
    case BoolV(b) => U32(7) + U8(if b then 1 else 0)
    case U64V(u) => U32(10) + U64(u)
    case StrsV(xs) => EncArray(8, EncTexts(), xs)
    case I32sV(xs) => EncArray(5, EncInt32s(), xs)
    case I64sV(xs) => EncArray(11, EncDim(), xs)
    case F32sV(xs) => EncArray(6, EncWords(), xs)
    case _ => U32(8) + EncText("")
  }

  /** The values a program variable of each kind can hold. */
  predicate ValueFits(v: Value) {
    match v
    case StrV(s) => TextFits(s)
    case U32V(u) => u < TWO32
    case I32V(i) => InInt32(i)
    case F32V(bits) => bits < TWO32
    case U64V(u) => u < TWO64
    case StrsV(xs) => |xs| < TWO64 && forall i :: 0 <= i < |xs| ==> TextFits(xs[i])
    case I32sV(xs) => |xs| < TWO64 && forall i :: 0 <= i < |xs| ==> InInt32(xs[i])
    case I64sV(xs) => |xs| < TWO64 && forall i :: 0 <= i < |xs| ==> InInt64(xs[i])
    case F32sV(xs) => |xs| < TWO64 && forall i :: 0 <= i < |xs| ==> xs[i] < TWO32
    case _ => true
  }

  lemma ArrayReads<T(!new)>(t: Data, p: nat, kind: nat, e: T -> Data, d: (Data, nat) -> Dec<T>, xs: seq<T>)
    requires kind < TWO32 && |xs| < TWO64 && At(t, p, EncArray(kind, e, xs))
    requires forall i :: 0 <= i < |xs| ==> ReadsBack(e, d, t, xs[i])
    ensures DecU32(t, p) == Got(9, p + 4) && DecU32(t, p + 4) == Got(kind, p + 8) && DecU64(t, p + 8) == Got(|xs|, p + 16)
    ensures DecMany(d, t, p + 16, |xs|) == Got(xs, p + |EncArray(kind, e, xs)|)
  {
    hide At, DecU32, DecU64, DecMany, EncMany, ReadsBack;
    AtJoin(t, p, U32(9) + U32(kind) + U64(|xs|), EncMany(e, xs, |xs|));
    AtJoin3(t, p, U32(9), U32(kind), U64(|xs|));
    U32Reads(t, p, 9);
    U32Reads(t, p + 4, kind);
    U64Reads(t, p + 8, |xs|);
    ManyRead(e, d, t, p + 16, xs, |xs|);
    assert xs[..|xs|] == xs;
  }

  lemma StringsRead(t: Data, xs: seq<string>)
    requires forall i :: 0 <= i < |xs| ==> TextFits(xs[i])
    ensures forall i :: 0 <= i < |xs| ==> ReadsBack(EncTexts(), DecStrings(), t, xs[i])
  {
    forall i, q: nat | 0 <= i < |xs| && At(t, q, EncTexts()(xs[i])) ensures DecStrings()(t, q) == Got(xs[i], q + |EncTexts()(xs[i])|) {
      TextReads(t, q, xs[i]);
    }
  }

  lemma Int32Reads(t: Data, p: nat, x: int)
    requires InInt32(x) && At(t, p, U32(Folded(x, 4)))
    ensures DecInt32(t, p) == Got(x, p + 4)
  {
    FoldedBack(x);
    U32Reads(t, p, Folded(x, 4));
  }

  lemma Int32sRead(t: Data, xs: seq<int>)
    requires forall i :: 0 <= i < |xs| ==> InInt32(xs[i])
    ensures forall i :: 0 <= i < |xs| ==> ReadsBack(EncInt32s(), DecInt32s(), t, xs[i])
  {
    forall i, q: nat | 0 <= i < |xs| && At(t, q, EncInt32s()(xs[i])) ensures DecInt32s()(t, q) == Got(xs[i], q + |EncInt32s()(xs[i])|) {
      Int32Reads(t, q, xs[i]);
    }
  }

  lemma Int64sRead(t: Data, xs: seq<int>)
    requires forall i :: 0 <= i < |xs| ==> InInt64(xs[i])
    ensures forall i :: 0 <= i < |xs| ==> ReadsBack(EncDim(), DecDim(), t, xs[i])
  {
    forall i, q: nat | 0 <= i < |xs| && At(t, q, EncDim()(xs[i])) ensures DecDim()(t, q) == Got(xs[i], q + |EncDim()(xs[i])|) {
      I64Reads(t, q, xs[i]);
    }
  }

  lemma WordsRead(t: Data, xs: seq<nat>)
    requires forall i :: 0 <= i < |xs| ==> xs[i] < TWO32
    ensures forall i :: 0 <= i < |xs| ==> ReadsBack(EncWords(), DecWords(), t, xs[i])
  {
    forall i, q: nat | 0 <= i < |xs| && At(t, q, EncWords()(xs[i])) ensures DecWords()(t, q) == Got(xs[i], q + |EncWords()(xs[i])|) {
      U32Reads(t, q, xs[i]);
    }
  }

  lemma ScalarReads(t: Data, p: nat, kind: nat, u: nat)
    requires kind < TWO32 && Width(kind) > 0 && u < Pow256(Width(kind)) && At(t, p, U32(kind) + Little(u, Width(kind)))
    ensures DecTagged(t, p) == Got(Scalar(kind, u), p + 4 + Width(kind))
  {
    AtJoin(t, p, U32(kind), Little(u, Width(kind)));
    U32Reads(t, p, kind);
    FixedReads(t, p + 4, u, Width(kind));
  }

  lemma TaggedText(t: Data, p: nat, s: string)
    requires TextFits(s) && At(t, p, U32(8) + EncText(s))
    ensures DecTagged(t, p) == Got(StrV(s), p + |U32(8) + EncText(s)|)
  {
    AtJoin(t, p, U32(8), EncText(s));
    U32Reads(t, p, 8);
    TextReads(t, p + 4, s);
  }

  lemma TaggedStrings(t: Data, p: nat, xs: seq<string>)
    requires ValueFits(StrsV(xs)) && At(t, p, EncArray(8, EncTexts(), xs))
    ensures DecTagged(t, p) == Got(StrsV(xs), p + |EncArray(8, EncTexts(), xs)|)
  {
    StringsRead(t, xs);
    ArrayReads(t, p, 8, EncTexts(), DecStrings(), xs);
    assert DecTagged(t, p) == DecArray(t, p + 4);
  }

  lemma TaggedInt32s(t: Data, p: nat, xs: seq<int>)
    requires ValueFits(I32sV(xs)) && At(t, p, EncArray(5, EncInt32s(), xs))
    ensures DecTagged(t, p) == Got(I32sV(xs), p + |EncArray(5, EncInt32s(), xs)|)
  {
    Int32sRead(t, xs);
    ArrayReads(t, p, 5, EncInt32s(), DecInt32s(), xs);
    assert DecTagged(t, p) == DecArray(t, p + 4);
  }

  lemma TaggedInt64s(t: Data, p: nat, xs: seq<int>)
    requires ValueFits(I64sV(xs)) && At(t, p, EncArray(11, EncDim(), xs))
    ensures DecTagged(t, p) == Got(I64sV(xs), p + |EncArray(11, EncDim(), xs)|)
  {
    Int64sRead(t, xs);
    ArrayReads(t, p, 11, EncDim(), DecDim(), xs);
    assert DecTagged(t, p) == DecArray(t, p + 4);
  }

  lemma TaggedFloats(t: Data, p: nat, xs: seq<nat>)
    requires ValueFits(F32sV(xs)) && At(t, p, EncArray(6, EncWords(), xs))
    ensures DecTagged(t, p) == Got(F32sV(xs), p + |EncArray(6, EncWords(), xs)|)
  {
    WordsRead(t, xs);
    ArrayReads(t, p, 6, EncWords(), DecWords(), xs);
    assert DecTagged(t, p) == DecArray(t, p + 4);
  }

  /** Reading a written value gives the value of the ten kinds, and the empty string for any other. */
  lemma {:induction false} ValueReads(t: Data, p: nat, v: Value)
    requires ValueFits(v) && At(t, p, EncValue(v))
    ensures DecTagged(t, p) == Got(Written(v), p + |EncValue(v)|)
  {
    hide At, EncMany, DecTagged, EncText, EncArray;
    Widths();
    match v
    case StrV(s) => TaggedText(t, p, s);
    case U32V(u) => ScalarReads(t, p, 4, u);
    case I32V(i) => FoldedBack(i); ScalarReads(t, p, 5, Folded(i, 4));
    case F32V(bits) => ScalarReads(t, p, 6, bits);
    case BoolV(b) => ScalarReads(t, p, 7, if b then 1 else 0);
    case U64V(u) => ScalarReads(t, p, 10, u);
    case StrsV(xs) => TaggedStrings(t, p, xs);
    case I32sV(xs) => TaggedInt32s(t, p, xs);
    case I64sV(xs) => TaggedInt64s(t, p, xs);
    case F32sV(xs) => TaggedFloats(t, p, xs);
    case _ => TaggedText(t, p, "");
  }

  // ----- stability -----

  lemma StringsSteady(t: Data, s: Data)
    ensures Steady(DecStrings(), t, s)
  {
    forall q: nat | DecStrings()(t, q).Got? ensures DecStrings()(t + s, q) == DecStrings()(t, q) { TextSteady(t, s, q); }
  }

  lemma Int32sSteady(t: Data, s: Data)
    ensures Steady(DecInt32s(), t, s)
  {
    forall q: nat | DecInt32s()(t, q).Got? ensures DecInt32s()(t + s, q) == DecInt32s()(t, q) { FixedStable(t, s, q, 4); }
  }

  lemma WordsSteady(t: Data, s: Data)
    ensures Steady(DecWords(), t, s)
  {
    forall q: nat | DecWords()(t, q).Got? ensures DecWords()(t + s, q) == DecWords()(t, q) { FixedStable(t, s, q, 4); }
  }

  /** A value read from `t` is read the same from any extension of `t`. */
  lemma {:induction false} ValueSteady(t: Data, s: Data, p: nat, kind: nat)
    requires p <= |t| && DecValue(t, p, kind).Got?
    ensures DecValue(t + s, p, kind) == DecValue(t, p, kind)
    decreases |t| - p, 1
  {
    if kind == 8 {
      TextSteady(t, s, p);
    } else if kind == 9 {
      ArraySteady(t, s, p);
    } else {
      FixedStable(t, s, p, Width(kind));
    }
  }

  lemma {:induction false} ArraySteady(t: Data, s: Data, p: nat)
    requires p <= |t| && DecArray(t, p).Got?
    ensures DecArray(t + s, p) == DecArray(t, p)
    decreases |t| - p, 0
  {
    FixedStable(t, s, p, 4);
    var (et, p1) := DecU32(t, p).Extract();
    FixedStable(t, s, p1, 8);
    var (n, p2) := DecU64(t, p1).Extract();
    if et == 8 {
      StringsSteady(t, s);
      ManySteady(DecStrings(), t, s, p2, n);
    } else if et == 5 {
      Int32sSteady(t, s);
      ManySteady(DecInt32s(), t, s, p2, n);
    } else if et == 11 {
      DimsSteady(t, s);
      ManySteady(DecDim(), t, s, p2, n);
    } else if et == 6 {
      WordsSteady(t, s);
      ManySteady(DecWords(), t, s, p2, n);
    } else {
      SkipSteady(t, s, p2, et, n);
    }
  }

  lemma {:induction false} SkipSteady(t: Data, s: Data, p: nat, kind: nat, n: nat)
    requires p <= |t| && DecSkip(t, p, kind, n).Got?
    ensures DecSkip(t + s, p, kind, n) == DecSkip(t, p, kind, n)
    decreases |t| - p, 2
  {
    if n > 0 {
      ValueSteady(t, s, p, kind);
      SkipSteady(t, s, DecValue(t, p, kind).end, kind, n - 1);
    }
  }

  lemma TaggedSteady(t: Data, s: Data, p: nat)
    requires DecTagged(t, p).Got?
    ensures DecTagged(t + s, p) == DecTagged(t, p)
  {
    FixedStable(t, s, p, 4);
    var (kind, p1) := DecU32(t, p).Extract();
    ValueSteady(t, s, p1, kind);
  }

  // ----- entries and tensor descriptions -----

  function EncEntry(kv: (string, Value)): Data { EncText(kv.0) + EncValue(kv.1) }

  function DecEntry(t: Data, p: nat): (r: Dec<(string, Value)>)
    ensures r.Got? ==> p < r.end <= |t|
  {
    var (k, p1) :- DecText(t, p);
    var (v, p2) :- DecTagged(t, p1);
    Got((k, v), p2)
  }

  function EncInfo(i: Info): Data {
    EncText(i.name) + U32(|i.dims| % TWO32) + EncMany(EncId(), i.dims, |i.dims|) + U32(i.kind) + U64(i.offset)
  }

  function DecInfo(t: Data, p: nat): Dec<Info> {
    var (name, p1) :- DecText(t, p);
    var (n, p2) :- DecU32(t, p1);
    var (dims, p3) :- DecMany(DecId(), t, p2, n);
    var (kind, p4) :- DecU32(t, p3);
    var (offset, p5) :- DecU64(t, p4);
    Got(Info(name, dims, kind, offset), p5)
  }

  predicate EntryFits(kv: (string, Value)) { TextFits(kv.0) && ValueFits(kv.1) }

  predicate InfoFits(i: Info) {
    TextFits(i.name) && |i.dims| < TWO32 && (forall d :: 0 <= d < |i.dims| ==> i.dims[d] < TWO64) && i.kind < TWO32 && i.offset < TWO64
  }

  lemma EntryReads(t: Data, p: nat, kv: (string, Value))
    requires EntryFits(kv) && At(t, p, EncEntry(kv))
    ensures DecEntry(t, p) == Got((kv.0, Written(kv.1)), p + |EncEntry(kv)|)
  {
    hide At, EncText, EncValue;
    AtJoin(t, p, EncText(kv.0), EncValue(kv.1));
    TextReads(t, p, kv.0);
    ValueReads(t, p + |EncText(kv.0)|, kv.1);
  }

  lemma InfoReads(t: Data, p: nat, i: Info)
    requires InfoFits(i) && At(t, p, EncInfo(i))
    ensures DecInfo(t, p) == Got(i, p + |EncInfo(i)|)
  {
    hide At, EncText, EncMany, DecMany, DecU32, DecU64, DecText;
    var name, dims := EncText(i.name), EncMany(EncId(), i.dims, |i.dims|);
    AtJoin5(t, p, name, U32(|i.dims|), dims, U32(i.kind), U64(i.offset));
    TextReads(t, p, i.name);
    var p1 := p + |name|;
    U32Reads(t, p1, |i.dims|);
    forall d, q: nat | 0 <= d < |i.dims| && At(t, q, EncId()(i.dims[d])) ensures DecId()(t, q) == Got(i.dims[d], q + |EncId()(i.dims[d])|) {
      U64Reads(t, q, i.dims[d]);
    }
    assert forall d :: 0 <= d < |i.dims| ==> ReadsBack(EncId(), DecId(), t, i.dims[d]);
    ManyRead(EncId(), DecId(), t, p1 + 4, i.dims, |i.dims|);
    assert i.dims[..|i.dims|] == i.dims;
    U32Reads(t, p1 + 4 + |dims|, i.kind);
    U64Reads(t, p1 + 8 + |dims|, i.offset);
  }

  lemma EntrySteady(t: Data, s: Data, p: nat)
    requires DecEntry(t, p).Got?
    ensures DecEntry(t + s, p) == DecEntry(t, p)
  {
    TextSteady(t, s, p);
    TaggedSteady(t, s, DecText(t, p).end);
  }

  lemma InfoSteady(t: Data, s: Data, p: nat)
    requires DecInfo(t, p).Got?
    ensures p <= DecInfo(t, p).end <= |t| && DecInfo(t + s, p) == DecInfo(t, p)
  {
    TextSteady(t, s, p);
    var (name, p1) := DecText(t, p).Extract();
    FixedStable(t, s, p1, 4);
    var (n, p2) := DecU32(t, p1).Extract();
    IdsSteady(t, s);
    ManySteady(DecId(), t, s, p2, n);
    var (dims, p3) := DecMany(DecId(), t, p2, n).Extract();
    FixedStable(t, s, p3, 4);
    FixedStable(t, s, p3 + 4, 8);
  }
}
