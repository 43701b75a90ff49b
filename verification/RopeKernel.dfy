/**
 The rotary kernel as the program runs it: argument checks, then loops over rows, heads and pairs
 that write the output array. Proved to write exactly the rotated heads of Rope.
 */
module RopeKernel {
  import opened Layout
  import opened Rope
  import A = AttentionSpec
  import H = KvHistory
  import K = KvModel

  datatype RopeError = NullOrType | BadShape | OddDim | BadHeadDim | BadRotaryDim | UnsupportedScaling

  /** The attributes of the operator; `lengthOverride` is the published prompt length, 0 when there is none. */
  datatype Attrs = Attrs(headDim: int, rotaryDim: int, mode: int, align: int, scaleKind: string, scaleFactor: real, attnFactor: real,
                         lengthOverride: nat)

  function Numel(shape: seq<nat>): nat { if shape == [] then 1 else Span(Numel(shape[..|shape| - 1]), shape[|shape| - 1]) }

  const KINDS: seq<string> := ["", "none", "default", "linear", "llama3", "dynamic", "yarn", "longrope", "su"]

  function Chunk(a: Attrs, dim: nat): int { if a.headDim > 0 then a.headDim else dim }

  function RotaryDim(a: Attrs, dim: nat): int { if a.rotaryDim > 0 then a.rotaryDim else Chunk(a, dim) }

  /** Width of the last axis. */
  function LastDim(shape: seq<nat>): nat { if shape == [] then 1 else shape[|shape| - 1] }

  /** The checks on data, shapes and widths; the program divides by the last width once they pass. */
  function ShapeCheck(a: Attrs, isF32: bool, hasData: bool, inShape: seq<nat>, outShape: seq<nat>): Option<RopeError> {
    var dim := LastDim(inShape);
    var chunk, rot := Chunk(a, dim), RotaryDim(a, dim);
    if !hasData || !isF32 then Some(NullOrType)
    else if Numel(inShape) != Numel(outShape) || |inShape| < 2 then Some(BadShape)
    else if dim % 2 != 0 then Some(OddDim)
    else if chunk <= 0 || dim % chunk != 0 || chunk % 2 != 0 then Some(BadHeadDim)
    else if rot > chunk || rot <= 0 || rot % 2 != 0 then Some(BadRotaryDim)
    else None
  }

  function Check(a: Attrs, isF32: bool, hasData: bool, inShape: seq<nat>, outShape: seq<nat>): Option<RopeError> {
    var error := ShapeCheck(a, isF32, hasData, inShape, outShape);
    if error.Some? then error
    else if a.scaleKind !in KINDS then Some(UnsupportedScaling)
    else None
  }

  /**
   A zero last width passes the checks, and so reaches the division, exactly when the head width is
   given: positive, even and with a fitting rotary width. Without one it is refused.
   */
  lemma ZeroWidthDivides(a: Attrs, isF32: bool, hasData: bool, inShape: seq<nat>, outShape: seq<nat>)
    requires LastDim(inShape) == 0
    ensures ShapeCheck(a, isF32, hasData, inShape, outShape).None?
       <==> hasData && isF32 && |inShape| >= 2 && Numel(inShape) == Numel(outShape) && a.headDim > 0 && a.headDim % 2 == 0
            && (a.rotaryDim <= 0 || (a.rotaryDim <= a.headDim && a.rotaryDim % 2 == 0))
    ensures var b := Attrs(2, 0, 0, 0, "", 1.0, 1.0, 0); ShapeCheck(b, true, true, [1, 0], [1, 0]).None? && LastDim([1, 0]) == 0
  {
    if a.headDim > 0 { assert 0 % a.headDim == 0; }
  }

  function PlanOf(a: Attrs, dim: nat): Plan
    requires Chunk(a, dim) >= 0 && RotaryDim(a, dim) >= 0
  {
    var rot := RotaryDim(a, dim);
    Plan(Chunk(a, dim), rot / 2, a.align == 0 && rot < Chunk(a, dim), a.mode == 2)
  }

  /** The extra magnitude of the interpolated rotation. */
  function Magnitude(f: Fns, a: Attrs): real {
    var factor := if a.scaleFactor > 0.0 then a.scaleFactor else 1.0;
    var af := if a.attnFactor > 0.0 then a.attnFactor else 1.0;
    if a.scaleKind == "yarn" && factor > 1.0 then 0.1 * af * f.log(factor) + 1.0 else 1.0
  }

  /** A given position, else the counter plus the row number. */
  function PositionOf(positions: Option<seq<real>>, base: nat, r: nat): real {
    if positions.Some? && r < |positions.value| then positions.value[r] else DefaultPosition(base, r) as real
  }

  /** The sequence length that selects the frequencies: the published one, else the row's own. */
  function LengthOf(a: Attrs, pos: real): real { if a.lengthOverride > 0 then a.lengthOverride as real else pos + 1.0 }

  /** The angles of row `r`. */
  function RowAngles(f: Fns, a: Attrs, s: Plan, positions: Option<seq<real>>, base: nat, r: nat): nat -> real {
    var pos := PositionOf(positions, base, r);
    Angles(f, s, pos, LengthOf(a, pos))
  }

  function AnglesOf(f: Fns, a: Attrs, s: Plan, positions: Option<seq<real>>, base: nat): nat -> nat -> real {
    (r: nat) => RowAngles(f, a, s, positions, base, r)
  }

  // ----- one head -----

  lemma Halves(f: Fns, s: Plan, scale: real, angles: nat -> real, head: Row, p: nat)
    requires s.Valid() && |head| == s.chunk && p < s.half
    ensures var o := s.Off();
      && o + s.First(p) < s.chunk && o + s.Second(p) < s.chunk
      && Rotated(f, s, scale, angles, head)[o + s.First(p)] == FirstOf(f, scale, angles(p), head[o + s.First(p)], head[o + s.Second(p)])
      && Rotated(f, s, scale, angles, head)[o + s.Second(p)] == SecondOf(f, scale, angles(p), head[o + s.First(p)], head[o + s.Second(p)])
  {
    PairIs(f, s, scale, angles, head, p);
  }

  /** Every rotated position belongs to exactly one pair. */
  function PairAt(s: Plan, i: nat): (p: nat)
    requires s.Valid() && i < s.half + s.half
    ensures p < s.half && (i == s.First(p) || i == s.Second(p))
    ensures forall q: nat :: q < s.half && (i == s.First(q) || i == s.Second(q)) ==> q == p
  {
    if s.neox then (if i < s.half then i else i - s.half) else i / 2
  }

  /** The copied part and the first `p` pairs of the head have been written; the rest of the output is untouched. */
  ghost predicate HeadTo(s: Plan, want: Row, o: nat, before: seq<real>, now: seq<real>, p: nat)
    requires s.Valid() && |want| == s.chunk
  {
    && |now| == |before| && o + s.chunk <= |now|
    && (forall x :: 0 <= x < |now| && !(o <= x < o + s.chunk) ==> now[x] == before[x])
    && (forall j: nat :: j < s.chunk && (j < s.Off() || j >= s.Off() + (s.half + s.half)) ==> now[o + j] == want[j])
    && (forall i: nat :: i < s.half + s.half && PairAt(s, i) < p ==> now[o + s.Off() + i] == want[s.Off() + i])
  }

  lemma {:induction false} HeadStep(s: Plan, want: Row, o: nat, before: seq<real>, now: seq<real>, p: nat, a: real, b: real)
    requires s.Valid() && |want| == s.chunk && p < s.half && HeadTo(s, want, o, before, now, p)
    requires a == want[s.Off() + s.First(p)] && b == want[s.Off() + s.Second(p)]
    ensures HeadTo(s, want, o, before, now[o + (s.Off() + s.First(p)) := a][o + (s.Off() + s.Second(p)) := b], p + 1)
  {
    var x, y := o + s.Off() + s.First(p), o + s.Off() + s.Second(p);
    var then' := now[x := a][y := b];
    forall i: nat | i < s.half + s.half && PairAt(s, i) < p + 1 ensures then'[o + s.Off() + i] == want[s.Off() + i] {
      if PairAt(s, i) < p { assert i != s.First(p) && i != s.Second(p); }
    }
  }

  /** `piece` has been written at `o` and nothing else has changed. */
  ghost predicate Wrote(before: seq<real>, now: seq<real>, o: nat, piece: seq<real>) {
    && |now| == |before| && o + |piece| <= |now|
    && now[..o] == before[..o] && now[o..o + |piece|] == piece && now[o + |piece|..] == before[o + |piece|..]
  }

  lemma WroteNothing(a: seq<real>, o: nat)
    requires o <= |a|
    ensures Wrote(a, a, o, [])
  {}

  /** Two pieces written one behind the other are one longer piece. */
  lemma WroteBoth(a: seq<real>, b: seq<real>, c: seq<real>, o: nat, p: seq<real>, q: seq<real>)
    requires Wrote(a, b, o, p) && Wrote(b, c, o + |p|, q)
    ensures Wrote(a, c, o, p + q)
  {
    var n, m := o + |p|, o + |p| + |q|;
    assert c[..o] == c[..n][..o] && b[..n][..o] == b[..o];
    assert c[o..m] == c[o..n] + c[n..m];
    assert c[o..n] == c[..n][o..] && b[..n][o..] == b[o..n];
    assert b[m..] == b[n..][|q|..] && a[m..] == a[n..][|q|..];
  }

  lemma HeadDone(s: Plan, want: Row, o: nat, before: seq<real>, now: seq<real>)
    requires s.Valid() && |want| == s.chunk && HeadTo(s, want, o, before, now, s.half)
    ensures Wrote(before, now, o, want)
  {
    forall j: nat | j < s.chunk ensures now[o + j] == want[j] {
      if s.Off() <= j < s.Off() + (s.half + s.half) {
        var i := j - s.Off();
        assert PairAt(s, i) < s.half;
        assert now[o + s.Off() + i] == want[s.Off() + i];
      }
    }
  }

  /** The pairs from `p` on have not been written over: the input still holds them, even where it is the output. */
  ghost predicate Unread(s: Plan, head: Row, o: nat, now: seq<real>, p: nat)
    requires s.Valid() && |head| == s.chunk
  {
    o + s.chunk <= |now| && forall i: nat :: i < s.half + s.half && PairAt(s, i) >= p ==> now[o + (s.Off() + i)] == head[s.Off() + i]
  }

  lemma UnreadStep(s: Plan, head: Row, o: nat, now: seq<real>, p: nat, a: real, b: real)
    requires s.Valid() && |head| == s.chunk && p < s.half && Unread(s, head, o, now, p)
    ensures now[o + (s.Off() + s.First(p))] == head[s.Off() + s.First(p)] && now[o + (s.Off() + s.Second(p))] == head[s.Off() + s.Second(p)]
    ensures Unread(s, head, o, now, p + 1)
    ensures Unread(s, head, o, now[o + (s.Off() + s.First(p)) := a][o + (s.Off() + s.Second(p)) := b], p + 1)
  {
    var then' := now[o + (s.Off() + s.First(p)) := a][o + (s.Off() + s.Second(p)) := b];
    assert PairAt(s, s.First(p)) == p && PairAt(s, s.Second(p)) == p;
    forall i: nat | i < s.half + s.half && PairAt(s, i) >= p + 1 ensures then'[o + (s.Off() + i)] == head[s.Off() + i] {
      assert i != s.First(p) && i != s.Second(p);
    }
  }

  /** One head: the unrotated part is copied, then each pair is rotated; the output may be the input buffer. */
  method HeadPass(f: Fns, s: Plan, scale: real, angles: nat -> real, x: array<real>, ghost head: Row, out: array<real>, o: nat)
    requires s.Valid() && |head| == s.chunk && o + s.chunk <= out.Length && o + s.chunk <= x.Length && x[o..o + s.chunk] == head
    modifies out
    ensures Wrote(old(out[..]), out[..], o, Rotated(f, s, scale, angles, head))
  {
    ghost var before, want := out[..], Rotated(f, s, scale, angles, head);
    CopyPass(s, x, head, out, o);
    assert HeadTo(s, want, o, before, out[..], 0);
    assert Unread(s, head, o, x[..], 0) by {
      forall i: nat | i < s.half + s.half && PairAt(s, i) >= 0 ensures x[..][o + (s.Off() + i)] == head[s.Off() + i] {
        assert x[o + (s.Off() + i)] == x[o..o + s.chunk][s.Off() + i];
      }
    }
    PairPass(f, s, scale, angles, x, head, out, o, before);
    HeadDone(s, want, o, before, out[..]);
  }

  /** The part of a head that is not rotated is copied. */
  method CopyPass(s: Plan, x: array<real>, ghost head: Row, out: array<real>, o: nat)
    requires s.Valid() && |head| == s.chunk && o + s.chunk <= out.Length && o + s.chunk <= x.Length && x[o..o + s.chunk] == head
    modifies out
    ensures forall k :: 0 <= k < out.Length && !(o <= k < o + s.chunk) ==> out[k] == old(out[k])
    ensures forall k: nat :: k < s.chunk && (k < s.Off() || k >= s.Off() + (s.half + s.half)) ==> out[o + k] == head[k]
    ensures x[o..o + s.chunk] == head
  {
    var rot := s.half + s.half;
    var copyOff := if s.leading then rot else 0;
    for j := 0 to s.chunk - rot
      invariant forall k :: 0 <= k < out.Length && !(o <= k < o + s.chunk) ==> out[k] == old(out[k])
      invariant forall k: nat :: copyOff <= k < copyOff + j ==> out[o + k] == head[k]
      invariant x[o..o + s.chunk] == head
    {
      assert x[o + copyOff + j] == x[o..o + s.chunk][copyOff + j];
      out[o + copyOff + j] := x[o + copyOff + j];
    }
  }

  method RotatePair(f: Fns, scale: real, angle: real, a: real, b: real) returns (x: real, y: real)
    ensures x == FirstOf(f, scale, angle, a, b) && y == SecondOf(f, scale, angle, a, b)
  {
    var c, s := f.cos(angle) * scale, f.sin(angle) * scale;
    x, y := a * c - b * s, a * s + b * c;
  }

  method PairPass(f: Fns, s: Plan, scale: real, angles: nat -> real, x: array<real>, ghost head: Row, out: array<real>, o: nat, ghost before: seq<real>)
    requires s.Valid() && |head| == s.chunk && HeadTo(s, Rotated(f, s, scale, angles, head), o, before, out[..], 0)
    requires Unread(s, head, o, x[..], 0)
    modifies out
    ensures HeadTo(s, Rotated(f, s, scale, angles, head), o, before, out[..], s.half)
  {
    hide HeadTo, RotatedAt, Rotated, Unread;
    for p := 0 to s.half
      invariant HeadTo(s, Rotated(f, s, scale, angles, head), o, before, out[..], p)
      invariant Unread(s, head, o, x[..], p)
    {
      OnePair(f, s, scale, angles, x, head, out, o, before, p);
    }
  }

  method OnePair(f: Fns, s: Plan, scale: real, angles: nat -> real, x: array<real>, ghost head: Row, out: array<real>, o: nat, ghost before: seq<real>, p: nat)
    requires s.Valid() && |head| == s.chunk && p < s.half && HeadTo(s, Rotated(f, s, scale, angles, head), o, before, out[..], p)
    requires Unread(s, head, o, x[..], p)
    modifies out
    ensures HeadTo(s, Rotated(f, s, scale, angles, head), o, before, out[..], p + 1)
    ensures Unread(s, head, o, x[..], p + 1)
  {
    hide HeadTo, RotatedAt, Rotated, FirstOf, SecondOf, Unread, PairAt;
    ghost var want, was, input := Rotated(f, s, scale, angles, head), out[..], x[..];
    Halves(f, s, scale, angles, head, p);
    BufferCovers(s, want, o, before, was, p);
    InputCovers(s, head, o, input, p);
    var i, j := s.Off() + s.First(p), s.Off() + s.Second(p);
    UnreadStep(s, head, o, input, p, want[i], want[j]);
    var a, b := RotatePair(f, scale, angles(p), x[o + i], x[o + j]);
    HeadStep(s, want, o, before, was, p, a, b);
    out[o + i] := a;
    out[o + j] := b;
    assert out[..] == was[o + i := a][o + j := b];
    assert x != out ==> x[..] == input;
  }

  lemma InputCovers(s: Plan, head: Row, o: nat, now: seq<real>, p: nat)
    requires s.Valid() && |head| == s.chunk && Unread(s, head, o, now, p)
    ensures o + s.chunk <= |now|
  {}

  lemma BufferCovers(s: Plan, want: Row, o: nat, before: seq<real>, now: seq<real>, p: nat)
    requires s.Valid() && |want| == s.chunk && HeadTo(s, want, o, before, now, p)
    ensures o + s.chunk <= |now|
  {}

  // ----- rows -----

  /** A checked call. */
  datatype Call = Call(rows: nat, heads: nat, s: Plan, scale: real, x: seq<real>) {
    function Dim(): nat { Span(heads, s.chunk) }

    predicate Valid() { s.Valid() && Span(rows, Dim()) <= |x| }

    /** Head `h` of row `r` of the input. */
    function Head(r: nat, h: nat): (head: Row)
      requires Valid() && r < rows && h < heads
      ensures |head| == s.chunk
    {
      SpanApart(r, rows, Dim());
      SpanApart(h, heads, s.chunk);
      x[Span(r, Dim()) + Span(h, s.chunk)..Span(r, Dim()) + Span(h, s.chunk) + s.chunk]
    }

    /** The first `h` heads of row `r`, rotated. */
    function Heads(f: Fns, angles: nat -> nat -> real, r: nat, h: nat): (out: seq<real>)
      requires Valid() && r < rows && h <= heads
      ensures |out| == Span(h, s.chunk)
    {
      if h == 0 then [] else Heads(f, angles, r, h - 1) + Rotated(f, s, scale, angles(r), Head(r, h - 1))
    }

    /** The first `r` rows, rotated. */
    function Rows(f: Fns, angles: nat -> nat -> real, r: nat): (out: seq<real>)
      requires Valid() && r <= rows
      ensures |out| == Span(r, Dim())
    {
      if r == 0 then [] else Rows(f, angles, r - 1) + Heads(f, angles, r - 1, heads)
    }
  }

  lemma HeadsGrow(f: Fns, c: Call, angles: nat -> nat -> real, r: nat, h: nat)
    requires c.Valid() && r < c.rows && h < c.heads
    ensures c.Heads(f, angles, r, h + 1) == c.Heads(f, angles, r, h) + Rotated(f, c.s, c.scale, angles(r), c.Head(r, h))
    ensures |c.Heads(f, angles, r, h)| == Span(h, c.s.chunk) && c.s.Valid() && |c.Head(r, h)| == c.s.chunk
    ensures Span(r, c.Dim()) + Span(h, c.s.chunk) + c.s.chunk <= Span(c.rows, c.Dim())
  {
    hide c.Head, Rotated;
    SpanApart(r, c.rows, c.Dim());
    SpanApart(h, c.heads, c.s.chunk);
  }

  /** From position `at` on, the input still is what it was. */
  ghost predicate Ahead(c: Call, now: seq<real>, at: nat)
    requires c.Valid()
  {
    Span(c.rows, c.Dim()) <= |now| && forall i :: at <= i < Span(c.rows, c.Dim()) ==> now[i] == c.x[i]
  }

  /** Writing a piece leaves what lies behind it. */
  lemma AheadStep(c: Call, was: seq<real>, now: seq<real>, at: nat, piece: seq<real>)
    requires c.Valid() && Ahead(c, was, at) && Wrote(was, now, at, piece)
    ensures Ahead(c, now, at + |piece|)
  {
    forall i | at + |piece| <= i < Span(c.rows, c.Dim()) ensures now[i] == c.x[i] {
      assert now[i] == now[at + |piece|..][i - (at + |piece|)] == was[at + |piece|..][i - (at + |piece|)] == was[i];
    }
  }

  lemma AheadLater(c: Call, now: seq<real>, at: nat, later: nat)
    requires c.Valid() && Ahead(c, now, at) && at <= later
    ensures Ahead(c, now, later)
  {}

  /** The head that comes next is still in the input. */
  lemma AheadHead(c: Call, now: seq<real>, r: nat, h: nat)
    requires c.Valid() && r < c.rows && h < c.heads && Ahead(c, now, Span(r, c.Dim()) + Span(h, c.s.chunk))
    ensures Span(r, c.Dim()) + Span(h, c.s.chunk) + c.s.chunk <= |now|
    ensures now[Span(r, c.Dim()) + Span(h, c.s.chunk)..Span(r, c.Dim()) + Span(h, c.s.chunk) + c.s.chunk] == c.Head(r, h)
  {
    SpanApart(r, c.rows, c.Dim());
    SpanApart(h, c.heads, c.s.chunk);
  }

  method RowPass(f: Fns, c: Call, angles: nat -> nat -> real, r: nat, x: array<real>, out: array<real>)
    requires c.Valid() && r < c.rows && Span(c.rows, c.Dim()) <= out.Length && Ahead(c, x[..], Span(r, c.Dim()))
    modifies out
    ensures Wrote(old(out[..]), out[..], Span(r, c.Dim()), c.Heads(f, angles, r, c.heads))
    ensures Ahead(c, x[..], Span(r, c.Dim()) + Span(c.heads, c.s.chunk))
  {
    hide Wrote, Rotated, Ahead;
    SpanApart(r, c.rows, c.Dim());
    ghost var before := out[..];
    WroteNothing(before, Span(r, c.Dim()));
    for h := 0 to c.heads
      invariant Wrote(before, out[..], Span(r, c.Dim()), c.Heads(f, angles, r, h))
      invariant Ahead(c, x[..], Span(r, c.Dim()) + Span(h, c.s.chunk))
    {
      HeadInRow(f, c, angles, r, h, x, out, before);
    }
  }

  method HeadInRow(f: Fns, c: Call, angles: nat -> nat -> real, r: nat, h: nat, x: array<real>, out: array<real>, ghost before: seq<real>)
    requires c.Valid() && r < c.rows && h < c.heads && Span(c.rows, c.Dim()) <= out.Length
    requires Wrote(before, out[..], Span(r, c.Dim()), c.Heads(f, angles, r, h))
    requires Ahead(c, x[..], Span(r, c.Dim()) + Span(h, c.s.chunk))
    modifies out
    ensures Wrote(before, out[..], Span(r, c.Dim()), c.Heads(f, angles, r, h + 1))
    ensures Ahead(c, x[..], Span(r, c.Dim()) + Span(h + 1, c.s.chunk))
  {
    hide Wrote, Rotated, Ahead, Span;
    HeadsGrow(f, c, angles, r, h);
    SpanNext(h, c.s.chunk);
    ghost var was, input, at := out[..], x[..], Span(r, c.Dim()) + Span(h, c.s.chunk);
    ghost var head := c.Head(r, h);
    ghost var piece := Rotated(f, c.s, c.scale, angles(r), head);
    AheadHead(c, input, r, h);
    HeadPass(f, c.s, c.scale, angles(r), x, head, out, Span(r, c.Dim()) + Span(h, c.s.chunk));
    WroteBoth(before, was, out[..], Span(r, c.Dim()), c.Heads(f, angles, r, h), piece);
    if x == out { AheadStep(c, was, out[..], at, piece); } else { AheadLater(c, input, at, at + |piece|); }
  }

  lemma SpanNext(n: nat, w: nat)
    ensures Span(n + 1, w) == Span(n, w) + w
  {}

  function CallOf(f: Fns, a: Attrs, shape: seq<nat>, x: seq<real>): Call
    requires Check(a, true, true, shape, shape).None?
  {
    var dim := LastDim(shape);
    Call(Numel(shape[..|shape| - 1]), dim / Chunk(a, dim), PlanOf(a, dim), Magnitude(f, a), x)
  }

  lemma CheckedIsValid(f: Fns, a: Attrs, shape: seq<nat>, x: seq<real>)
    requires Check(a, true, true, shape, shape).None? && Numel(shape) <= |x|
    ensures CallOf(f, a, shape, x).Valid() && CallOf(f, a, shape, x).Dim() == LastDim(shape)
    ensures Span(CallOf(f, a, shape, x).rows, CallOf(f, a, shape, x).Dim()) == Numel(shape)
  {
    Divides(LastDim(shape), Chunk(a, LastDim(shape)));
  }

  lemma Divides(dim: nat, chunk: nat)
    requires chunk > 0 && dim % chunk == 0
    ensures Span(dim / chunk, chunk) == dim
  {
    SpanIsProduct(dim / chunk, chunk);
    assert dim == chunk * (dim / chunk) + dim % chunk;
    assert dim / chunk * chunk == chunk * (dim / chunk);
  }

  /**
   The kernel: a failed check leaves the output alone; otherwise every head of every row is rotated
   by its row's angles. Excluded is the division by zero that ZeroWidthDivides pins down.
   */
  method RopeF32(f: Fns, a: Attrs, isF32: bool, x: array?<real>, shape: seq<nat>, positions: Option<seq<real>>, base: nat,
                 out: array<real>, outShape: seq<nat>)
    returns (error: Option<RopeError>)
    requires x != null ==> Numel(shape) <= x.Length
    requires Numel(outShape) <= out.Length && (ShapeCheck(a, isF32, x != null, shape, outShape).None? ==> LastDim(shape) > 0)
    modifies out
    ensures error == Check(a, isF32, x != null, shape, outShape)
    ensures error.Some? ==> out[..] == old(out[..])
    ensures error.None? ==>
      && Check(a, true, true, shape, shape).None?
      && var c := CallOf(f, a, shape, old(x[..]));
         && c.Valid() && Span(c.rows, c.Dim()) == Numel(shape) <= out.Length
         && Wrote(old(out[..]), out[..], 0, c.Rows(f, AnglesOf(f, a, c.s, positions, base), c.rows))
         && Rotates(f, a, c, positions, base, out[..])
    ensures error.None? ==>
              |shape| >= 2 && RowsTurned(f, a, Numel(shape[..|shape| - 1]), shape[|shape| - 1], old(x[..]), positions, base, out[..])
  {
    error := Check(a, isF32, x != null, shape, outShape);
    if error.Some? { return; }
    var c := CallOf(f, a, shape, x[..]);
    CheckedIsValid(f, a, shape, x[..]);
    ghost var before := out[..];
    RowsPass(f, c, AnglesOf(f, a, c.s, positions, base), x, out);
    WroteIsRotated(f, a, c, positions, base, before, out[..]);
    KernelTurns(f, a, shape, c.x, positions, base, out[..]);
  }

  // ----- what the output numbers are -----

  /** The width of a head: the given one, or the whole row. */
  function HeadWidth(a: Attrs, dim: nat): nat { if a.headDim > 0 then a.headDim else dim }

  /** How many numbers of a head are rotated. */
  function Turning(a: Attrs, dim: nat): nat { if a.rotaryDim > 0 then a.rotaryDim else HeadWidth(a, dim) }

  /** Where the rotated part of head `h` of row `r` starts: first in the head for alignment 0, last otherwise. */
  function TurnAt(a: Attrs, dim: nat, r: nat, h: nat): int {
    Span(r, dim) + Span(h, HeadWidth(a, dim)) + if a.align == 0 then 0 else HeadWidth(a, dim) - Turning(a, dim)
  }

  /** The angle of pair `p` in row `r`: the row's position, given or counted, times the pair's frequency. */
  function TurnBy(f: Fns, a: Attrs, dim: nat, positions: Option<seq<real>>, base: nat, r: nat, p: nat): real {
    var pos := if positions.Some? && r < |positions.value| then positions.value[r] else (base + r) as real;
    pos * f.freq(p, Turning(a, dim) / 2, if a.lengthOverride > 0 then a.lengthOverride as real else 1.0 + pos)
  }

  /** Interpolated scaling by more than 1 lengthens every rotated pair. */
  function Stretch(f: Fns, a: Attrs): real {
    if a.scaleKind != "yarn" || a.scaleFactor <= 1.0 then 1.0
    else 1.0 + 0.1 * (if a.attnFactor > 0.0 then a.attnFactor else 1.0) * f.log(a.scaleFactor)
  }

  /**
   Pair `p` of head `h` of row `r`: in mode 2 the numbers `p` and `p` plus half the rotated width of the rotated part,
   otherwise numbers `2 * p` and `2 * p + 1`, turned by the pair's angle and stretched.
   */
  ghost predicate PairTurned(f: Fns, a: Attrs, dim: nat, x: seq<real>, positions: Option<seq<real>>, base: nat, out: seq<real>, r: nat, h: nat, p: nat) {
    var at := TurnAt(a, dim, r, h);
    var i := if a.mode == 2 then at + p else at + 2 * p;
    var j := if a.mode == 2 then at + p + Turning(a, dim) / 2 else at + 2 * p + 1;
    var angle := TurnBy(f, a, dim, positions, base, r, p);
    Turned(x, i, j, out, f.cos(angle), f.sin(angle), Stretch(f, a))
  }

  /** Numbers `i` and `j` of the output are the plane rotation of those of the input, stretched by `m`. */
  predicate Turned(x: seq<real>, i: int, j: int, out: seq<real>, c: real, s: real, m: real) {
    && 0 <= i < j < |x| && j < |out|
    && out[i] == x[i] * (c * m) - x[j] * (s * m) && out[j] == x[i] * (s * m) + x[j] * (c * m)
  }

  /** Number `e` of head `h` of row `r`, outside the rotated part, is copied. */
  ghost predicate NumberCopied(a: Attrs, dim: nat, x: seq<real>, out: seq<real>, r: nat, h: nat, e: nat) {
    var at := Span(r, dim) + Span(h, HeadWidth(a, dim)) + e;
    at < |x| && at < |out| && (at < TurnAt(a, dim, r, h) || at >= TurnAt(a, dim, r, h) + Turning(a, dim) ==> out[at] == x[at])
  }

  /** Row `r` and head `h` lie inside `rows` rows of `dim` numbers. */
  predicate Inside(a: Attrs, rows: nat, dim: nat, r: nat, h: nat) { r < rows && Span(h + 1, HeadWidth(a, dim)) <= dim }

  /** All `rows` rows of `dim` numbers: every pair of every head is turned, and every other number copied. */
  ghost predicate RowsTurned(f: Fns, a: Attrs, rows: nat, dim: nat, x: seq<real>, positions: Option<seq<real>>, base: nat, out: seq<real>) {
    && (forall r: nat, h: nat, p: nat :: Inside(a, rows, dim, r, h) && p < Turning(a, dim) / 2 ==> PairTurned(f, a, dim, x, positions, base, out, r, h, p))
    && (forall r: nat, h: nat, e: nat :: Inside(a, rows, dim, r, h) && e < HeadWidth(a, dim) ==> NumberCopied(a, dim, x, out, r, h, e))
  }

  /** What a checked call makes of the attributes. */
  lemma PlanIs(f: Fns, a: Attrs, shape: seq<nat>, x: seq<real>)
    requires Check(a, true, true, shape, shape).None? && Numel(shape) <= |x|
    ensures var c, dim := CallOf(f, a, shape, x), LastDim(shape);
      && c.Valid() && c.Dim() == dim && c.x == x && Span(c.rows, dim) == Numel(shape)
      && c.s.chunk == HeadWidth(a, dim) && c.s.half == Turning(a, dim) / 2 && c.s.half + c.s.half == Turning(a, dim) <= HeadWidth(a, dim)
      && c.s.Off() == (if a.align == 0 then 0 else HeadWidth(a, dim) - Turning(a, dim)) && (c.s.neox <==> a.mode == 2)
      && c.scale == Stretch(f, a)
  {
    CheckedIsValid(f, a, shape, x);
  }

  lemma HeadIndex(h: nat, heads: nat, w: nat)
    requires w > 0 && Span(h + 1, w) <= Span(heads, w)
    ensures h < heads
  {
    if h >= heads { SpanMonotone(heads, h, w); }
  }

  lemma AngleIs(f: Fns, a: Attrs, s: Plan, dim: nat, positions: Option<seq<real>>, base: nat, r: nat, p: nat)
    requires s.half == Turning(a, dim) / 2
    ensures RowAngles(f, a, s, positions, base, r)(p) == TurnBy(f, a, dim, positions, base, r, p)
  {
    var pos := PositionOf(positions, base, r);
    assert LengthOf(a, pos) == if a.lengthOverride > 0 then a.lengthOverride as real else 1.0 + pos;
  }

  /** One number of a head as the call read it and as it was left. */
  lemma HeadNumber(f: Fns, a: Attrs, c: Call, positions: Option<seq<real>>, base: nat, out: seq<real>, r: nat, h: nat, e: nat)
    requires c.Valid() && r < c.rows && h < c.heads && e < c.s.chunk && Rotates(f, a, c, positions, base, out)
    ensures var at := Span(r, c.Dim()) + Span(h, c.s.chunk) + e;
      && at < |c.x| && at < |out| && c.Head(r, h)[e] == c.x[at]
      && out[at] == Rotated(f, c.s, c.scale, RowAngles(f, a, c.s, positions, base, r), c.Head(r, h))[e]
  {
    hide *;
    RotatesCovers(f, a, c, positions, base, out);
    OutHeadIs(f, a, c, positions, base, out, r, h);
    HeadEntries(f, a, c, positions, base, out, r, h, e);
  }

  lemma HeadEntries(f: Fns, a: Attrs, c: Call, positions: Option<seq<real>>, base: nat, out: seq<real>, r: nat, h: nat, e: nat)
    requires c.Valid() && r < c.rows && h < c.heads && e < c.s.chunk && Span(c.rows, c.Dim()) <= |out|
    ensures var at := Span(r, c.Dim()) + Span(h, c.s.chunk) + e;
      at < |c.x| && at < |out| && c.Head(r, h)[e] == c.x[at] && OutHead(c, out, r, h)[e] == out[at]
  {
    hide Span;
    SpanApart(r, c.rows, c.Dim());
    SpanApart(h, c.heads, c.s.chunk);
  }

  lemma RotatesCovers(f: Fns, a: Attrs, c: Call, positions: Option<seq<real>>, base: nat, out: seq<real>)
    requires c.Valid() && Rotates(f, a, c, positions, base, out)
    ensures Span(c.rows, c.Dim()) <= |out|
  {}

  lemma OnePairTurned(f: Fns, a: Attrs, shape: seq<nat>, x: seq<real>, positions: Option<seq<real>>, base: nat, out: seq<real>, r: nat, h: nat, p: nat)
    requires Check(a, true, true, shape, shape).None? && Numel(shape) <= |x| && CallOf(f, a, shape, x).Valid()
    requires Rotates(f, a, CallOf(f, a, shape, x), positions, base, out)
    requires Inside(a, CallOf(f, a, shape, x).rows, LastDim(shape), r, h) && p < Turning(a, LastDim(shape)) / 2
    ensures PairTurned(f, a, LastDim(shape), x, positions, base, out, r, h, p)
  {
    hide Rotated, Rotates, TurnBy, RowAngles, Stretch, CallOf, Check, Call.Valid, HeadWidth, Turning, Span, Call.Head, Turned, Plan.Off;
    var c := CallOf(f, a, shape, x);
    PlanIs(f, a, shape, x);
    IsValidPlan(c);
    HeadIndex(h, c.heads, c.s.chunk);
    PairOfHead(f, a, c, positions, base, out, r, h, p);
    AngleIs(f, a, c.s, LastDim(shape), positions, base, r, p);
  }

  lemma PairOfHead(f: Fns, a: Attrs, c: Call, positions: Option<seq<real>>, base: nat, out: seq<real>, r: nat, h: nat, p: nat)
    requires c.Valid() && c.s.Valid() && Rotates(f, a, c, positions, base, out) && r < c.rows && h < c.heads && p < c.s.half
    ensures var at, angle := Span(r, c.Dim()) + Span(h, c.s.chunk) + c.s.Off(), RowAngles(f, a, c.s, positions, base, r)(p);
      Turned(c.x, at + c.s.First(p), at + c.s.Second(p), out, f.cos(angle), f.sin(angle), c.scale)
  {
    hide Rotated, Rotates, RowAngles, Call.Valid, Span, Call.Head, Plan.Off;
    Halves(f, c.s, c.scale, RowAngles(f, a, c.s, positions, base, r), c.Head(r, h), p);
    HeadNumber(f, a, c, positions, base, out, r, h, c.s.Off() + c.s.First(p));
    HeadNumber(f, a, c, positions, base, out, r, h, c.s.Off() + c.s.Second(p));
  }

  lemma IsValidPlan(c: Call)
    requires c.Valid()
    ensures c.s.Valid() && c.Dim() == Span(c.heads, c.s.chunk)
  {}

  lemma OneCopied(f: Fns, a: Attrs, shape: seq<nat>, x: seq<real>, positions: Option<seq<real>>, base: nat, out: seq<real>, r: nat, h: nat, e: nat)
    requires Check(a, true, true, shape, shape).None? && Numel(shape) <= |x| && CallOf(f, a, shape, x).Valid()
    requires Rotates(f, a, CallOf(f, a, shape, x), positions, base, out)
    requires Inside(a, CallOf(f, a, shape, x).rows, LastDim(shape), r, h) && e < HeadWidth(a, LastDim(shape))
    ensures NumberCopied(a, LastDim(shape), x, out, r, h, e)
  {
    hide Rotates, RowAngles, Stretch, CallOf, Check, Call.Valid, HeadWidth, Turning, Span, Call.Head;
    var c := CallOf(f, a, shape, x);
    PlanIs(f, a, shape, x);
    IsValidPlan(c);
    HeadIndex(h, c.heads, c.s.chunk);
    HeadNumber(f, a, c, positions, base, out, r, h, e);
  }

  /** Every number that the kernel leaves, from the attributes and the buffers alone. */
  lemma KernelTurns(f: Fns, a: Attrs, shape: seq<nat>, x: seq<real>, positions: Option<seq<real>>, base: nat, out: seq<real>)
    requires Check(a, true, true, shape, shape).None? && Numel(shape) <= |x| && CallOf(f, a, shape, x).Valid()
    requires Rotates(f, a, CallOf(f, a, shape, x), positions, base, out)
    ensures RowsTurned(f, a, CallOf(f, a, shape, x).rows, LastDim(shape), x, positions, base, out)
  {
    hide Rotates, CallOf, Check, Call.Valid, HeadWidth, Turning, Span, PairTurned, NumberCopied, Inside;
    var rows, dim := CallOf(f, a, shape, x).rows, LastDim(shape);
    forall r: nat, h: nat, p: nat | Inside(a, rows, dim, r, h) && p < Turning(a, dim) / 2
      ensures PairTurned(f, a, dim, x, positions, base, out, r, h, p)
    {
      OnePairTurned(f, a, shape, x, positions, base, out, r, h, p);
    }
    forall r: nat, h: nat, e: nat | Inside(a, rows, dim, r, h) && e < HeadWidth(a, dim) ensures NumberCopied(a, dim, x, out, r, h, e) {
      OneCopied(f, a, shape, x, positions, base, out, r, h, e);
    }
  }

  /** Which calls are accepted. */
  lemma AcceptsIff(a: Attrs, isF32: bool, hasData: bool, inShape: seq<nat>, outShape: seq<nat>)
    requires inShape != []
    ensures Check(a, isF32, hasData, inShape, outShape).None? <==>
      var dim := inShape[|inShape| - 1];
      && isF32 && hasData && |inShape| >= 2 && Numel(inShape) == Numel(outShape) && dim % 2 == 0
      && HeadWidth(a, dim) > 0 && HeadWidth(a, dim) % 2 == 0 && dim % HeadWidth(a, dim) == 0
      && 0 < Turning(a, dim) <= HeadWidth(a, dim) && Turning(a, dim) % 2 == 0
      && (a.scaleKind == "" || a.scaleKind == "none" || a.scaleKind == "default" || a.scaleKind == "linear" || a.scaleKind == "llama3"
          || a.scaleKind == "dynamic" || a.scaleKind == "yarn" || a.scaleKind == "longrope" || a.scaleKind == "su")
  {
    assert KINDS[0] == "" && KINDS[1] == "none" && KINDS[2] == "default" && KINDS[3] == "linear" && KINDS[4] == "llama3";
    assert KINDS[5] == "dynamic" && KINDS[6] == "yarn" && KINDS[7] == "longrope" && KINDS[8] == "su";
  }

  /** Element counts are products of dimensions. */
  lemma NumelIsProduct(m: nat, n: nat, k: nat)
    ensures Numel([m, n]) == m * n && Numel([m, n, k]) == m * n * k
  {
    assert [m, n, k][..2] == [m, n] && [m, n][..1] == [m] && [m][..0] == [];
    SpanIsProduct(1, m);
    assert Numel([]) == 1 && Numel([m]) == Span(Numel([]), m) == m;
    SpanIsProduct(m, n);
    assert Numel([m, n]) == Span(Numel([m]), n);
    SpanIsProduct(Span(m, n), k);
    assert Numel([m, n, k]) == Span(Numel([m, n]), k);
  }

  lemma RowsGrow(f: Fns, c: Call, angles: nat -> nat -> real, r: nat)
    requires c.Valid() && r < c.rows
    ensures c.Rows(f, angles, r + 1) == c.Rows(f, angles, r) + c.Heads(f, angles, r, c.heads)
    ensures |c.Rows(f, angles, r)| == Span(r, c.Dim()) && c.Dim() == Span(c.heads, c.s.chunk)
  {}

  method RowsPass(f: Fns, c: Call, angles: nat -> nat -> real, x: array<real>, out: array<real>)
    requires c.Valid() && Span(c.rows, c.Dim()) <= out.Length && c.x == x[..]
    modifies out
    ensures Wrote(old(out[..]), out[..], 0, c.Rows(f, angles, c.rows))
  {
    hide *;
    ghost var before := out[..];
    RowsStart(f, c, angles, before, x[..]);
    for r := 0 to c.rows
      invariant Wrote(before, out[..], 0, c.Rows(f, angles, r))
      invariant Ahead(c, x[..], Span(r, c.Dim()))
    {
      ghost var was := out[..];
      RowsGrow(f, c, angles, r);
      RowPass(f, c, angles, r, x, out);
      WroteBoth(before, was, out[..], 0, c.Rows(f, angles, r), c.Heads(f, angles, r, c.heads));
      SpanNext(r, c.Dim());
    }
  }

  lemma RowsStart(f: Fns, c: Call, angles: nat -> nat -> real, before: seq<real>, input: seq<real>)
    requires c.Valid() && c.x == input
    ensures Wrote(before, before, 0, c.Rows(f, angles, 0)) && Ahead(c, input, Span(0, c.Dim()))
  {
    WroteNothing(before, 0);
  }

  /** Number `j` of head `h` of output row `r` is that of the rotated head: nothing else in the row moves. */
  lemma {:induction false} RowsEntry(f: Fns, c: Call, angles: nat -> nat -> real, n: nat, r: nat, h: nat, j: nat)
    requires c.Valid() && r < n <= c.rows && h < c.heads && j < c.s.chunk
    ensures Span(r, c.Dim()) + Span(h, c.s.chunk) + j < Span(n, c.Dim())
    ensures c.Rows(f, angles, n)[Span(r, c.Dim()) + Span(h, c.s.chunk) + j] == Rotated(f, c.s, c.scale, angles(r), c.Head(r, h))[j]
  {
    hide Rotated, c.Heads, c.Head;
    SpanApart(h, c.heads, c.s.chunk);
    SpanApart(r, n, c.Dim());
    if r < n - 1 {
      SpanApart(r, n - 1, c.Dim());
      RowsEntry(f, c, angles, n - 1, r, h, j);
    } else {
      HeadsEntry(f, c, angles, r, c.heads, h, j);
    }
  }

  lemma {:induction false} HeadsEntry(f: Fns, c: Call, angles: nat -> nat -> real, r: nat, n: nat, h: nat, j: nat)
    requires c.Valid() && r < c.rows && h < n <= c.heads && j < c.s.chunk
    ensures Span(h, c.s.chunk) + j < Span(n, c.s.chunk)
    ensures c.Heads(f, angles, r, n)[Span(h, c.s.chunk) + j] == Rotated(f, c.s, c.scale, angles(r), c.Head(r, h))[j]
  {
    hide *;
    HeadsGrow(f, c, angles, r, n - 1);
    SpanApart(h, n, c.s.chunk);
    var front, back := c.Heads(f, angles, r, n - 1), Rotated(f, c.s, c.scale, angles(r), c.Head(r, n - 1));
    EntryOfJoin(front, back, Span(h, c.s.chunk) + j);
    if h < n - 1 { HeadsEntry(f, c, angles, r, n - 1, h, j); }
  }

  lemma EntryOfJoin(a: seq<real>, b: seq<real>, i: nat)
    requires i < |a| + |b|
    ensures (a + b)[i] == if i < |a| then a[i] else b[i - |a|]
  {}

  // ----- what the written heads are worth -----

  /** The output holds the rotation of the call's rows. */
  ghost predicate Rotates(f: Fns, a: Attrs, c: Call, positions: Option<seq<real>>, base: nat, out: seq<real>)
    requires c.Valid()
  {
    Span(c.rows, c.Dim()) <= |out| && out[..Span(c.rows, c.Dim())] == c.Rows(f, AnglesOf(f, a, c.s, positions, base), c.rows)
  }

  lemma WroteIsRotated(f: Fns, a: Attrs, c: Call, positions: Option<seq<real>>, base: nat, before: seq<real>, out: seq<real>)
    requires c.Valid() && Wrote(before, out, 0, c.Rows(f, AnglesOf(f, a, c.s, positions, base), c.rows))
    ensures Rotates(f, a, c, positions, base, out)
  {
    assert out[0..Span(c.rows, c.Dim())] == out[..Span(c.rows, c.Dim())];
  }

  function OutHead(c: Call, out: seq<real>, r: nat, h: nat): (head: Row)
    requires c.Valid() && r < c.rows && h < c.heads && Span(c.rows, c.Dim()) <= |out|
    ensures |head| == c.s.chunk
  {
    SpanApart(r, c.rows, c.Dim());
    SpanApart(h, c.heads, c.s.chunk);
    out[Span(r, c.Dim()) + Span(h, c.s.chunk)..Span(r, c.Dim()) + Span(h, c.s.chunk) + c.s.chunk]
  }

  lemma OutHeadIs(f: Fns, a: Attrs, c: Call, positions: Option<seq<real>>, base: nat, out: seq<real>, r: nat, h: nat)
    requires c.Valid() && r < c.rows && h < c.heads && Rotates(f, a, c, positions, base, out)
    ensures OutHead(c, out, r, h) == Rotated(f, c.s, c.scale, RowAngles(f, a, c.s, positions, base, r), c.Head(r, h))
  {
    hide Rotated, c.Head, RowAngles;
    var rows := c.Rows(f, AnglesOf(f, a, c.s, positions, base), c.rows);
    var head, want := OutHead(c, out, r, h), Rotated(f, c.s, c.scale, RowAngles(f, a, c.s, positions, base, r), c.Head(r, h));
    assert |want| == c.s.chunk && AnglesOf(f, a, c.s, positions, base)(r) == RowAngles(f, a, c.s, positions, base, r);
    SpanApart(r, c.rows, c.Dim());
    SpanApart(h, c.heads, c.s.chunk);
    var at := Span(r, c.Dim()) + Span(h, c.s.chunk);
    assert head == out[at..at + c.s.chunk];
    forall j | 0 <= j < c.s.chunk ensures head[j] == want[j] {
      RowsEntry(f, c, AnglesOf(f, a, c.s, positions, base), c.rows, r, h, j);
      assert out[at + j] == out[..Span(c.rows, c.Dim())][at + j] == rows[at + j];
    }
  }

  /** Rows at positions `m` and `n` are rotated from one frequency table. */
  ghost predicate SameTable(f: Fns, a: Attrs, pairs: nat, m: real, n: real) {
    forall p: nat :: p < pairs ==> f.freq(p, pairs, LengthOf(a, m)) == f.freq(p, pairs, LengthOf(a, n))
  }

  /** Two lengths select one table exactly when they fall into one class. */
  ghost predicate Selects(f: Fns, pairs: nat, group: real -> real) {
    forall x, y :: (forall p: nat :: p < pairs ==> f.freq(p, pairs, x) == f.freq(p, pairs, y)) <==> group(x) == group(y)
  }

  /** Dynamic scaling: every length beyond the original context has its own table. */
  function Dynamic(context: real): real -> real { (x: real) => if x > context then x else context }

  /** Long-context scaling: one table up to the original context, another one beyond. */
  function LongContext(context: real): real -> real { (x: real) => if x > context then 1.0 else 0.0 }

  /** Scaling that ignores the length. */
  function Fixed(): real -> real { (x: real) => 0.0 }

  /**
   When two rows share a table: always with a published length or with scaling that ignores it; else, under dynamic
   scaling, when their positions agree or neither reaches the original context; under long-context scaling, when
   both reach it or neither does.
   */
  lemma TablesShared(f: Fns, a: Attrs, pairs: nat, context: real, m: real, n: real)
    ensures Selects(f, pairs, Fixed()) ==> SameTable(f, a, pairs, m, n)
    ensures Selects(f, pairs, Dynamic(context)) ==>
              (SameTable(f, a, pairs, m, n) <==> a.lengthOverride > 0 || m == n || (m + 1.0 <= context && n + 1.0 <= context))
    ensures Selects(f, pairs, LongContext(context)) ==>
              (SameTable(f, a, pairs, m, n) <==> a.lengthOverride > 0 || (m + 1.0 > context <==> n + 1.0 > context))
  {
    SelectedTables(f, a, pairs, Fixed(), m, n);
    SelectedTables(f, a, pairs, Dynamic(context), m, n);
    SelectedTables(f, a, pairs, LongContext(context), m, n);
    hide SameTable, Selects;
  }

  lemma SelectedTables(f: Fns, a: Attrs, pairs: nat, group: real -> real, m: real, n: real)
    ensures Selects(f, pairs, group) ==> (SameTable(f, a, pairs, m, n) <==> group(LengthOf(a, m)) == group(LengthOf(a, n)))
  {
    if Selects(f, pairs, group) {
      var x, y := LengthOf(a, m), LengthOf(a, n);
      hide LengthOf;
      assert (forall p: nat :: p < pairs ==> f.freq(p, pairs, x) == f.freq(p, pairs, y)) <==> group(x) == group(y);
    }
  }

  /**
   The dot product of a query head and a key head as the kernel left them, in any rows of any two
   outputs rotated from one table, is a function of the heads and the distance of the rows' positions.
   */
  lemma KernelRelative(f: Fns, a: Attrs, q: Call, k: Call, qPos: Option<seq<real>>, kPos: Option<seq<real>>, qBase: nat, kBase: nat,
                       qOut: seq<real>, kOut: seq<real>, r: nat, h: nat, t: nat, g: nat)
    requires f.Lawful() && q.Valid() && k.Valid() && q.s == k.s && q.scale == k.scale
    requires Rotates(f, a, q, qPos, qBase, qOut) && Rotates(f, a, k, kPos, kBase, kOut)
    requires r < q.rows && h < q.heads && t < k.rows && g < k.heads
    requires SameTable(f, a, q.s.half, PositionOf(qPos, qBase, r), PositionOf(kPos, kBase, t))
    ensures var m, n := PositionOf(qPos, qBase, r), PositionOf(kPos, kBase, t);
      A.DotAt(OutHead(q, qOut, r, h), 0, OutHead(k, kOut, t, g), 0, q.s.chunk)
        == RelativeDot(f, q.s, q.scale, Angles(f, q.s, m - n, LengthOf(a, m)), q.Head(r, h), k.Head(t, g))
  {
    hide f.Lawful, RelativeDot, Rotated, q.Head, k.Head, Rotates, OutHead;
    OutHeadIs(f, a, q, qPos, qBase, qOut, r, h);
    OutHeadIs(f, a, k, kPos, kBase, kOut, t, g);
    var m, n := PositionOf(qPos, qBase, r), PositionOf(kPos, kBase, t);
    AnglesSubtract(f, a, q.s, m, n);
    RotatedDot(f, q.s, q.scale, Angles(f, q.s, m, LengthOf(a, m)), Angles(f, q.s, n, LengthOf(a, n)),
               Angles(f, q.s, m - n, LengthOf(a, m)), q.Head(r, h), k.Head(t, g));
  }

  lemma AnglesSubtract(f: Fns, a: Attrs, s: Plan, m: real, n: real)
    requires SameTable(f, a, s.half, m, n)
    ensures forall i: nat :: i < s.half ==>
      Angles(f, s, m - n, LengthOf(a, m))(i) == Angles(f, s, m, LengthOf(a, m))(i) - Angles(f, s, n, LengthOf(a, n))(i)
  {
    forall i: nat | i < s.half
      ensures Angles(f, s, m - n, LengthOf(a, m))(i) == Angles(f, s, m, LengthOf(a, m))(i) - Angles(f, s, n, LengthOf(a, n))(i)
    {
      var x := f.freq(i, s.half, LengthOf(a, m));
      assert f.freq(i, s.half, LengthOf(a, n)) == x;
      assert (m - n) * x == m * x - n * x;
    }
  }

  // ----- chunking and sliding -----

  lemma {:induction false} SpanWider(b: nat, m: nat, n: nat)
    requires b > 0 && m < n
    ensures Span(b, m) < Span(b, n)
  {
    if b > 1 { SpanWider(b - 1, m, n); }
  }

  /** One token of lane `b` as a step of `n` tokens sees it: row `t` of the lane, the counter at the cache's position. */
  ghost predicate TokenAt(c: K.Cache, g: H.History, layer: nat, b: nat, n: nat, t: nat, index: nat) {
    H.Inv(c, g) && layer < c.dims.layers && b < c.dims.batch && t < n && c.absPos + t == index
  }

  /** The same token of two runs gets the same position exactly when it is in lane 0 or the steps have the same length. */
  lemma PositionIgnoresChunks(c1: K.Cache, g1: H.History, c2: K.Cache, g2: H.History, layer: nat, b: nat,
                              n1: nat, t1: nat, n2: nat, t2: nat, index: nat)
    requires TokenAt(c1, g1, layer, b, n1, t1, index) && TokenAt(c2, g2, layer, b, n2, t2, index)
    ensures |g1.k| > layer && |g2.k| > layer && |g1.k[layer]| > b && |g2.k[layer]| > b
    ensures |g1.k[layer][b]| + t1 == |g2.k[layer][b]| + t2 == index
    ensures PositionOf(None, c1.absPos, Span(b, n1) + t1) == PositionOf(None, c2.absPos, Span(b, n2) + t2) <==> b == 0 || n1 == n2
    ensures b == 0 ==> PositionOf(None, c1.absPos, Span(b, n1) + t1) == index as real
  {
    PositionIsHistoryIndex(c1, g1, layer, b, n1, t1);
    PositionIsHistoryIndex(c2, g2, layer, b, n2, t2);
    hide H.Inv;
    if b > 0 && n1 < n2 { SpanWider(b, n1, n2); }
    if b > 0 && n2 < n1 { SpanWider(b, n2, n1); }
  }

  /**
   The same token in two runs of the cache, whatever chunks came before and whatever has been
   evicted, is rotated alike in lane 0; in the other lanes when the two steps have the same length.
   */
  lemma RotationIgnoresChunks(f: Fns, a: Attrs, c1: K.Cache, g1: H.History, c2: K.Cache, g2: H.History, layer: nat, b: nat,
                              n1: nat, t1: nat, n2: nat, t2: nat, index: nat, x1: Call, x2: Call, out1: seq<real>, out2: seq<real>, h: nat)
    requires TokenAt(c1, g1, layer, b, n1, t1, index) && TokenAt(c2, g2, layer, b, n2, t2, index) && (b == 0 || n1 == n2)
    requires x1.Valid() && x2.Valid() && x1.s == x2.s && x1.scale == x2.scale && h < x1.heads && h < x2.heads
    requires Span(b, n1) + t1 < x1.rows && Span(b, n2) + t2 < x2.rows
    requires x1.Head(Span(b, n1) + t1, h) == x2.Head(Span(b, n2) + t2, h)
    requires Rotates(f, a, x1, None, c1.absPos, out1) && Rotates(f, a, x2, None, c2.absPos, out2)
    ensures OutHead(x1, out1, Span(b, n1) + t1, h) == OutHead(x2, out2, Span(b, n2) + t2, h)
  {
    hide *;
    PositionIgnoresChunks(c1, g1, c2, g2, layer, b, n1, t1, n2, t2, index);
    AlikeRotated(f, a, x1, x2, c1.absPos, c2.absPos, out1, out2, Span(b, n1) + t1, Span(b, n2) + t2, h);
  }

  lemma AlikeRotated(f: Fns, a: Attrs, x1: Call, x2: Call, base1: nat, base2: nat, out1: seq<real>, out2: seq<real>, r1: nat, r2: nat, h: nat)
    requires x1.Valid() && x2.Valid() && x1.s == x2.s && x1.scale == x2.scale && h < x1.heads && h < x2.heads
    requires r1 < x1.rows && r2 < x2.rows && x1.Head(r1, h) == x2.Head(r2, h)
    requires Rotates(f, a, x1, None, base1, out1) && Rotates(f, a, x2, None, base2, out2)
    requires PositionOf(None, base1, r1) == PositionOf(None, base2, r2)
    ensures OutHead(x1, out1, r1, h) == OutHead(x2, out2, r2, h)
  {
    hide x1.Head, x2.Head, Rotates, Rotated, OutHead;
    OutHeadIs(f, a, x1, None, base1, out1, r1, h);
    OutHeadIs(f, a, x2, None, base2, out2, r2, h);
  }
}
