/**
 Shared vocabulary: optional values, and the row-major layout that every kernel and the
 key/value cache use. A flat buffer of shape [batch, stride, dim] is read as `batch` lanes,
 each a sequence of `stride` rows of `dim` numbers. Floats are modelled as reals.
 */
module Layout {

  datatype Option<+T> = None | Some(value: T)

  datatype Result<+T, +E> = Success(value: T) | Failure(error: E)

  type Row = seq<real>
  type Lane = seq<Row>

  function Min(a: int, b: int): int { if a < b then a else b }

  function Max(a: int, b: int): int { if a < b then b else a }

  // ----- offsets -----

  /**
   Length of `n` consecutive pieces of width `w`: the product n * w (see SpanIsProduct). Offsets
   are written with it so that proofs use the three laws below instead of nonlinear arithmetic.
   */
  function Span(n: nat, w: nat): nat { if n == 0 then 0 else Span(n - 1, w) + w }

  lemma {:induction false} SpanIsProduct(n: nat, w: nat)
    ensures Span(n, w) == n * w
  {
    if n > 0 {
      SpanIsProduct(n - 1, w);
      assert n * w == (n - 1) * w + w;
    }
  }

  lemma {:induction false} SpanAdd(a: nat, b: nat, w: nat)
    ensures Span(a + b, w) == Span(a, w) + Span(b, w)
  {
    if b > 0 {
      SpanAdd(a, b - 1, w);
      assert Span(a + b, w) == Span(a + (b - 1), w) + w;
    }
  }

  lemma SpanMonotone(a: nat, b: nat, w: nat)
    requires a <= b
    ensures Span(a, w) <= Span(b, w)
  {
    SpanAdd(a, b - a, w);
  }

  /** Piece `a` ends at or before the start of any later piece. */
  lemma SpanApart(a: nat, b: nat, w: nat)
    requires a < b
    ensures Span(a, w) + w <= Span(b, w)
  {
    SpanMonotone(a + 1, b, w);
  }

  // ----- rows and lanes -----

  /** Row number `r` of a buffer of consecutive rows of width `dim`. */
  function RowAt(flat: seq<real>, dim: nat, r: nat): (row: Row)
    requires Span(r, dim) + dim <= |flat|
    ensures |row| == dim
  {
    flat[Span(r, dim)..Span(r, dim) + dim]
  }

  /** The first `n` rows of a buffer. */
  function RowsOf(flat: seq<real>, dim: nat, n: nat): (rows: seq<Row>)
    requires Span(n, dim) <= |flat|
    ensures |rows| == n
    ensures forall r {:trigger rows[r]} :: 0 <= r < n ==> Span(r, dim) + dim <= |flat| && rows[r] == RowAt(flat, dim, r)
    ensures forall r :: 0 <= r < n ==> |rows[r]| == dim
  {
    assert forall r: nat :: r < n ==> Span(r, dim) + dim <= Span(n, dim) by {
      forall r: nat | r < n ensures Span(r, dim) + dim <= Span(n, dim) { SpanApart(r, n, dim); }
    }
    seq(n, r requires 0 <= r < n => RowAt(flat, dim, r))
  }

  /** Lane `b` of a sequence of rows cut into lanes of `stride` rows. */
  function LaneAt(rows: seq<Row>, stride: nat, b: nat): (lane: Lane)
    requires Span(b, stride) + stride <= |rows|
    ensures |lane| == stride
    ensures forall t :: 0 <= t < stride ==> lane[t] == rows[Span(b, stride) + t]
  {
    seq(stride, t requires 0 <= t < stride => rows[Span(b, stride) + t])
  }

  function LanesOf(rows: seq<Row>, batch: nat, stride: nat): (lanes: seq<Lane>)
    requires Span(batch, stride) <= |rows|
    ensures |lanes| == batch
    ensures forall b {:trigger lanes[b]} :: 0 <= b < batch ==> Span(b, stride) + stride <= |rows| && lanes[b] == LaneAt(rows, stride, b)
    ensures forall b :: 0 <= b < batch ==> |lanes[b]| == stride
  {
    assert forall b: nat :: b < batch ==> Span(b, stride) + stride <= Span(batch, stride) by {
      forall b: nat | b < batch ensures Span(b, stride) + stride <= Span(batch, stride) { SpanApart(b, batch, stride); }
    }
    seq(batch, b requires 0 <= b < batch => LaneAt(rows, stride, b))
  }

  /** All lanes of a flat [batch, stride, dim] buffer. */
  function Lanes(flat: seq<real>, batch: nat, stride: nat, dim: nat): (lanes: seq<Lane>)
    requires Span(Span(batch, stride), dim) <= |flat|
    ensures |lanes| == batch
    ensures forall b :: 0 <= b < batch ==> |lanes[b]| == stride
    ensures forall b, t :: 0 <= b < batch && 0 <= t < stride ==> |lanes[b][t]| == dim
  {
    LanesOf(RowsOf(flat, dim, Span(batch, stride)), batch, stride)
  }

  /** Where number `c` of row `t` of lane `b` stands. */
  lemma LanesAt(flat: seq<real>, batch: nat, stride: nat, dim: nat, b: nat, t: nat, c: nat)
    requires Span(Span(batch, stride), dim) <= |flat| && b < batch && t < stride && c < dim
    ensures Span(Span(b, stride) + t, dim) + c < |flat|
    ensures Lanes(flat, batch, stride, dim)[b][t][c] == flat[Span(Span(b, stride) + t, dim) + c]
  {
    hide *;
    RowOfLane(flat, batch, stride, dim, b, t);
    NumberOfRow(flat, dim, Span(b, stride) + t, c);
  }

  lemma RowOfLane(flat: seq<real>, batch: nat, stride: nat, dim: nat, b: nat, t: nat)
    requires Span(Span(batch, stride), dim) <= |flat| && b < batch && t < stride
    ensures Span(b, stride) + t < Span(batch, stride) && Span(Span(b, stride) + t, dim) + dim <= |flat|
    ensures Lanes(flat, batch, stride, dim)[b][t] == RowAt(flat, dim, Span(b, stride) + t)
  {
    hide Span, RowAt, RowsOf, LanesOf, LaneAt;
    SpanApart(b, batch, stride);
    SpanApart(Span(b, stride) + t, Span(batch, stride), dim);
    var rows := RowsOf(flat, dim, Span(batch, stride));
    assert LanesOf(rows, batch, stride)[b] == LaneAt(rows, stride, b);
  }

  lemma NumberOfRow(flat: seq<real>, dim: nat, r: nat, c: nat)
    requires Span(r, dim) + dim <= |flat| && c < dim
    ensures RowAt(flat, dim, r)[c] == flat[Span(r, dim) + c]
  {}

  // ----- slicing and joining -----

  lemma SliceOfSlice(s: seq<real>, from: nat, len: nat, o: nat, n: nat)
    requires from + len <= |s| && o + n <= len
    ensures s[from..from + len][o..o + n] == s[from + o..from + o + n]
  {
    var part, want := s[from..from + len], s[from + o..from + o + n];
    forall i | 0 <= i < n ensures part[o..o + n][i] == want[i] { assert part[o + i] == s[from + (o + i)]; }
  }

  lemma RowOfSlice(flat: seq<real>, dim: nat, r0: nat, m: nat, part: seq<real>, r: nat)
    requires r < m && Span(r0, dim) + Span(m, dim) <= |flat|
    requires part == flat[Span(r0, dim)..Span(r0, dim) + Span(m, dim)]
    ensures Span(r, dim) + dim <= Span(m, dim) && Span(r0 + r, dim) + dim <= |flat|
    ensures RowAt(part, dim, r) == RowAt(flat, dim, r0 + r)
  {
    SpanApart(r, m, dim);
    SpanAdd(r0, r, dim);
    SliceOfSlice(flat, Span(r0, dim), Span(m, dim), Span(r, dim), dim);
  }

  /** Consecutive rows occupy consecutive numbers. */
  lemma {:induction false} RowsOfSlice(flat: seq<real>, dim: nat, total: nat, r0: nat, m: nat)
    requires Span(total, dim) <= |flat| && r0 + m <= total
    ensures Span(r0, dim) + Span(m, dim) <= |flat|
    ensures RowsOf(flat[Span(r0, dim)..Span(r0, dim) + Span(m, dim)], dim, m) == RowsOf(flat, dim, total)[r0..r0 + m]
  {
    hide RowsOf, RowAt;
    SpanAdd(r0, m, dim);
    SpanMonotone(r0 + m, total, dim);
    var part := flat[Span(r0, dim)..Span(r0, dim) + Span(m, dim)];
    var rows, want := RowsOf(part, dim, m), RowsOf(flat, dim, total)[r0..r0 + m];
    forall r | 0 <= r < m ensures rows[r] == want[r] {
      RowOfSlice(flat, dim, r0, m, part, r);
      assert want[r] == RowsOf(flat, dim, total)[r0 + r];
    }
    assert rows == want;
  }

  lemma RowsOfJoin(a: seq<real>, b: seq<real>, dim: nat, n: nat, m: nat)
    requires |a| == Span(n, dim) && |b| == Span(m, dim)
    ensures |a + b| == Span(n + m, dim)
    ensures RowsOf(a + b, dim, n + m) == RowsOf(a, dim, n) + RowsOf(b, dim, m)
  {
    SpanAdd(n, m, dim);
    var both := a + b;
    assert both[Span(0, dim)..Span(0, dim) + Span(n, dim)] == a;
    assert both[Span(n, dim)..Span(n, dim) + Span(m, dim)] == b;
    RowsOfSlice(both, dim, n + m, 0, n);
    RowsOfSlice(both, dim, n + m, n, m);
    var rows := RowsOf(both, dim, n + m);
    assert rows == rows[0..n] + rows[n..n + m];
  }

  lemma LanesOfJoin(rows: seq<Row>, lane: Lane, b: nat, stride: nat)
    requires |rows| == Span(b, stride) && |lane| == stride
    ensures LanesOf(rows + lane, b + 1, stride) == LanesOf(rows, b, stride) + [lane]
  {
    forall b' | 0 <= b' < b ensures LanesOf(rows + lane, b + 1, stride)[b'] == LanesOf(rows, b, stride)[b'] {
      SpanApart(b', b, stride);
      assert LaneAt(rows + lane, stride, b') == LaneAt(rows, stride, b');
    }
    assert LaneAt(rows + lane, stride, b) == lane;
  }
}
