/**
 The byte layer under the binary formats: little-endian integers and length-prefixed pieces, as
 encoders to byte sequences and decoders from any position of any byte sequence. Every decoder
 reads back what its encoder wrote, and never looks past the bytes it consumes.
 */
module Bytes {
  import opened Layout
  import opened Within

  type Byte = x: int | 0 <= x < 256

  type Data = seq<Byte>

  datatype DecodeError =
    | Truncated | UnknownAttribute | NotUaii | UnsupportedCodec | Incompatible | NotGguf | UnknownValueType

  /** A decoded value and the position after it, or the failure. */
  datatype Dec<+T> = Got(value: T, end: nat) | Bad(error: DecodeError) {
    predicate IsFailure() { Bad? }

    function PropagateFailure<U>(): Dec<U>
      requires IsFailure()
    {
      Bad(error)
    }

    function Extract(): (T, nat)
      requires !IsFailure()
    {
      (value, end)
    }
  }

  // ----- fixed-width integers -----

  function Pow256(n: nat): (r: nat)
    ensures r > 0
  {
    if n == 0 then 1 else 256 * Pow256(n - 1)
  }

  /** The low `n` bytes of `v`, least significant first. */
  function Little(v: nat, n: nat): (r: Data)
    ensures |r| == n
  {
    if n == 0 then [] else [v % 256] + Little(v / 256, n - 1)
  }

  function Unlittle(t: Data, p: nat, n: nat): (r: nat)
    requires p + n <= |t|
    ensures r < Pow256(n)
    decreases n
  {
    if n == 0 then 0 else t[p] + 256 * Unlittle(t, p + 1, n - 1)
  }

  lemma {:induction false} LittleRoundTrip(t: Data, p: nat, v: nat, n: nat)
    requires v < Pow256(n) && At(t, p, Little(v, n))
    ensures p + n <= |t| && Unlittle(t, p, n) == v
    decreases n
  {
    AtBound(t, p, Little(v, n));
    if n > 0 {
      AtFirst(t, p, Little(v, n));
      AtRest(t, p, Little(v, n));
      assert Little(v, n)[1..] == Little(v / 256, n - 1);
      LittleRoundTrip(t, p + 1, v / 256, n - 1);
    }
  }

  lemma {:induction false} UnlittleStable(t: Data, s: Data, p: nat, n: nat)
    requires p + n <= |t|
    ensures Unlittle(t + s, p, n) == Unlittle(t, p, n)
    decreases n
  {
    if n > 0 { UnlittleStable(t, s, p + 1, n - 1); }
  }

  const TWO8: int := 0x100
  const TWO32: int := 0x1_0000_0000
  const TWO63: int := 0x8000_0000_0000_0000
  const TWO64: int := 0x1_0000_0000_0000_0000

  lemma Widths()
    ensures Pow256(1) == TWO8 && Pow256(4) == TWO32 && Pow256(8) == TWO64
  {
    assert Pow256(2) == 65536 && Pow256(3) == 16777216;
    assert Pow256(5) == 256 * Pow256(4) && Pow256(6) == 256 * Pow256(5) && Pow256(7) == 256 * Pow256(6);
  }

  /** `n` bytes as an unsigned integer. */
  function DecFixed(t: Data, p: nat, n: nat): (r: Dec<nat>)
    ensures r.Got? ==> r.end == p + n <= |t| && r.value < Pow256(n)
  {
    if p + n > |t| then Bad(Truncated) else Got(Unlittle(t, p, n), p + n)
  }

  function DecU8(t: Data, p: nat): (r: Dec<nat>)
    ensures r.Got? ==> r.end == p + 1 <= |t|
  {
    DecFixed(t, p, 1)
  }

  function DecU32(t: Data, p: nat): (r: Dec<nat>)
    ensures r.Got? ==> r.end == p + 4 <= |t|
  {
    DecFixed(t, p, 4)
  }

  function DecU64(t: Data, p: nat): (r: Dec<nat>)
    ensures r.Got? ==> r.end == p + 8 <= |t|
  {
    DecFixed(t, p, 8)
  }

  /** Two's complement in 64 bits. */
  function AsUnsigned(x: int): nat { x % TWO64 }

  function AsSigned(u: nat): int { if u < TWO63 then u else u - TWO64 }

  predicate InInt64(x: int) { -TWO63 <= x < TWO63 }

  lemma SignedRoundTrip(x: int)
    requires InInt64(x)
    ensures AsUnsigned(x) < TWO64 && AsSigned(AsUnsigned(x)) == x
  {
    if x < 0 { assert x % TWO64 == x + TWO64; }
  }

  function DecI64(t: Data, p: nat): (r: Dec<int>)
    ensures r.Got? ==> r.end == p + 8 <= |t|
  {
    var (u, p1) :- DecU64(t, p);
    Got(AsSigned(u), p1)
  }

  lemma FixedReads(t: Data, p: nat, v: nat, n: nat)
    requires v < Pow256(n) && At(t, p, Little(v, n))
    ensures DecFixed(t, p, n) == Got(v, p + n)
  {
    LittleRoundTrip(t, p, v, n);
  }

  lemma FixedStable(t: Data, s: Data, p: nat, n: nat)
    requires DecFixed(t, p, n).Got?
    ensures DecFixed(t + s, p, n) == DecFixed(t, p, n)
  {
    UnlittleStable(t, s, p, n);
  }

  function U8(v: nat): Data { Little(v, 1) }
  function U32(v: nat): Data { Little(v, 4) }
  function U64(v: nat): Data { Little(v, 8) }
  function I64(x: int): Data { U64(AsUnsigned(x)) }

  lemma U8Reads(t: Data, p: nat, v: nat)
    requires v < TWO8 && At(t, p, U8(v))
    ensures DecU8(t, p) == Got(v, p + 1)
  {
    Widths();
    FixedReads(t, p, v, 1);
  }

  lemma U32Reads(t: Data, p: nat, v: nat)
    requires v < TWO32 && At(t, p, U32(v))
    ensures DecU32(t, p) == Got(v, p + 4)
  {
    Widths();
    FixedReads(t, p, v, 4);
  }

  lemma U64Reads(t: Data, p: nat, v: nat)
    requires v < TWO64 && At(t, p, U64(v))
    ensures DecU64(t, p) == Got(v, p + 8)
  {
    Widths();
    FixedReads(t, p, v, 8);
  }

  lemma I64Reads(t: Data, p: nat, x: int)
    requires InInt64(x) && At(t, p, I64(x))
    ensures DecI64(t, p) == Got(x, p + 8)
  {
    SignedRoundTrip(x);
    U64Reads(t, p, AsUnsigned(x));
  }

  // ----- strings -----

  predicate IsBytes(s: string) { forall i :: 0 <= i < |s| ==> s[i] as int < 256 }

  /** A string's characters as bytes; every character of a byte string is one byte. */
  function ToBytes(s: string): (r: Data)
    ensures |r| == |s| && (IsBytes(s) ==> forall i :: 0 <= i < |s| ==> r[i] == s[i] as int)
  {
    seq(|s|, i requires 0 <= i < |s| => s[i] as int % 256)
  }

  function FromBytes(t: Data, p: nat, n: nat): (r: string)
    requires p + n <= |t|
    ensures |r| == n && forall i :: 0 <= i < n ==> r[i] == t[p + i] as char
  {
    seq(n, i requires 0 <= i < n => t[p + i] as char)
  }

  lemma BytesRoundTrip(t: Data, p: nat, s: string)
    requires IsBytes(s) && At(t, p, ToBytes(s))
    ensures p + |s| <= |t| && FromBytes(t, p, |s|) == s
  {
    var r := FromBytes(t, p, |s|);
    forall i | 0 <= i < |s| ensures r[i] == s[i] { assert t[p + i] == ToBytes(s)[i]; }
  }

  lemma FromBytesStable(t: Data, s: Data, p: nat, n: nat)
    requires p + n <= |t|
    ensures FromBytes(t + s, p, n) == FromBytes(t, p, n)
  {}

  /** The rest of a string once its length is known. */
  function DecChars(t: Data, p: nat, n: nat): (r: Dec<string>)
    ensures r.Got? ==> r.end == p + n <= |t|
  {
    if p + n > |t| then Bad(Truncated) else Got(FromBytes(t, p, n), p + n)
  }

  // ----- repeated pieces -----

  /** The encodings of the first `n` elements, one after the other. */
  function EncMany<T>(e: T -> Data, xs: seq<T>, n: nat): Data
    requires n <= |xs|
  {
    if n == 0 then [] else EncMany(e, xs, n - 1) + e(xs[n - 1])
  }

  /** `n` pieces read one after the other, stopping at the first failure. */
  function DecMany<T>(d: (Data, nat) -> Dec<T>, t: Data, p: nat, n: nat): (r: Dec<seq<T>>)
    ensures r.Got? ==> |r.value| == n
  {
    if n == 0 then Got([], p)
    else
      var (xs, p1) :- DecMany(d, t, p, n - 1);
      var (x, p2) :- d(t, p1);
      Got(xs + [x], p2)
  }

  /** Decoder `d` reads `x` back wherever its encoding stands in `t`. */
  ghost predicate ReadsBack<T(!new)>(e: T -> Data, d: (Data, nat) -> Dec<T>, t: Data, x: T) {
    forall q: nat :: At(t, q, e(x)) ==> d(t, q) == Got(x, q + |e(x)|)
  }

  lemma {:induction false} ManyRead<T(!new)>(e: T -> Data, d: (Data, nat) -> Dec<T>, t: Data, p: nat, xs: seq<T>, n: nat)
    requires n <= |xs| && (forall i :: 0 <= i < |xs| ==> ReadsBack(e, d, t, xs[i])) && At(t, p, EncMany(e, xs, n))
    ensures DecMany(d, t, p, n) == Got(xs[..n], p + |EncMany(e, xs, n)|)
  {
    hide At;
    if n > 0 {
      AtJoin(t, p, EncMany(e, xs, n - 1), e(xs[n - 1]));
      ManyRead(e, d, t, p, xs, n - 1);
      assert ReadsBack(e, d, t, xs[n - 1]);
      assert xs[..n] == xs[..n - 1] + [xs[n - 1]];
    }
  }

  /** Success of `d` on `t` does not depend on what follows, and consumes only bytes of `t`. */
  ghost predicate Steady<T(!new)>(d: (Data, nat) -> Dec<T>, t: Data, s: Data) {
    forall q: nat :: d(t, q).Got? ==> q <= d(t, q).end <= |t| && d(t + s, q) == d(t, q)
  }

  lemma {:induction false} ManySteady<T(!new)>(d: (Data, nat) -> Dec<T>, t: Data, s: Data, p: nat, n: nat)
    requires Steady(d, t, s) && DecMany(d, t, p, n).Got?
    ensures DecMany(d, t + s, p, n) == DecMany(d, t, p, n) && p <= DecMany(d, t, p, n).end
    ensures p <= |t| ==> DecMany(d, t, p, n).end <= |t|
  {
    if n > 0 { ManySteady(d, t, s, p, n - 1); }
  }

  lemma {:induction false} ManyStops<T>(d: (Data, nat) -> Dec<T>, t: Data, p: nat, i: nat, n: nat)
    requires i <= n && DecMany(d, t, p, i).Bad?
    ensures DecMany(d, t, p, n) == DecMany(d, t, p, i)
  {
    if i < n { ManyStops(d, t, p, i, n - 1); }
  }

  // ----- 64-bit elements -----

  function EncId(): nat -> Data { (x: nat) => U64(x) }
  function DecId(): (Data, nat) -> Dec<nat> { (t: Data, p: nat) => DecU64(t, p) }
  function EncDim(): int -> Data { (x: int) => I64(x) }
  function DecDim(): (Data, nat) -> Dec<int> { (t: Data, p: nat) => DecI64(t, p) }

  lemma IdsSteady(t: Data, s: Data)
    ensures Steady(DecId(), t, s)
  {
    forall q: nat | DecId()(t, q).Got? ensures DecId()(t + s, q) == DecId()(t, q) { FixedStable(t, s, q, 8); }
  }

  lemma DimsSteady(t: Data, s: Data)
    ensures Steady(DecDim(), t, s)
  {
    forall q: nat | DecDim()(t, q).Got? ensures DecDim()(t + s, q) == DecDim()(t, q) { FixedStable(t, s, q, 8); }
  }

  // ----- what readers and writers promise -----

  lemma Grows(before: Data, len: Data, front: Data, piece: Data)
    ensures before + (len + front) + piece == before + (len + (front + piece))
  {}

  /** The reader's outcome against the decoder's. */
  ghost predicate Follows<T>(d: Dec<T>, r: Result<T, DecodeError>, pos: nat) {
    match d
    case Got(v, e) => r == Success(v) && pos == e
    case Bad(error) => r == Failure(error)
  }
}
