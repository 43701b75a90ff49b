/**
 The cache as the program has it: one flat array per layer and side, shifted and overwritten in
 place. Every operation is proved to do to the arrays what KvModel says it does to the lanes.
 */
module KvCache {
  import opened Layout
  import opened KvModel

  // ----- one flat array, by rows -----

  /** Where row `r` of a buffer is found after `n` rows at `src` have been moved to `dst`. */
  function MovedFrom(dst: nat, src: nat, n: nat, r: nat): nat {
    if dst <= r < dst + n then src + (r - dst) else r
  }

  /** `rows'` is `rows` after `n` rows at `src` have been moved to `dst`. */
  ghost predicate RowsMoved(rows: seq<Row>, rows': seq<Row>, dst: nat, src: nat, n: nat) {
    && |rows'| == |rows| && src + n <= |rows|
    && forall r :: 0 <= r < |rows| ==> rows'[r] == rows[MovedFrom(dst, src, n, r)]
  }

  /** Moving whole rows moves their numbers: an offset inside row `r` is found at the same offset of its source row. */
  lemma MovedSpan(dim: nat, dst: nat, src: nat, n: nat, r: nat, d: nat)
    requires d < dim
    ensures MovedFrom(Span(dst, dim), Span(src, dim), Span(n, dim), Span(r, dim) + d)
         == Span(MovedFrom(dst, src, n, r), dim) + d
  {
    if r < dst {
      SpanApart(r, dst, dim);
    } else if r < dst + n {
      SpanAdd(dst, r - dst, dim);
      SpanAdd(src, r - dst, dim);
      SpanApart(r - dst, n, dim);
    } else {
      SpanAdd(dst, n, dim);
      SpanMonotone(dst + n, r, dim);
    }
  }

  lemma MovedRow(flat: seq<real>, flat': seq<real>, dim: nat, dst: nat, src: nat, n: nat, r: nat)
    requires |flat'| == |flat| && Span(r, dim) + dim <= |flat|
    requires Span(MovedFrom(dst, src, n, r), dim) + dim <= |flat|
    requires forall i {:trigger flat'[i]} :: 0 <= i < |flat| ==>
      var j := MovedFrom(Span(dst, dim), Span(src, dim), Span(n, dim), i);
      0 <= j < |flat| && flat'[i] == flat[j]
    ensures RowAt(flat', dim, r) == RowAt(flat, dim, MovedFrom(dst, src, n, r))
  {
    var r' := MovedFrom(dst, src, n, r);
    var row, row' := RowAt(flat, dim, r'), RowAt(flat', dim, r);
    forall d | 0 <= d < dim ensures row'[d] == row[d] {
      MovedSpan(dim, dst, src, n, r, d);
      assert flat'[Span(r, dim) + d] == flat[Span(r', dim) + d];
    }
  }

  /** memmove of `n` rows: the source is read before it is overwritten. */
  method MoveRows(a: array<real>, dim: nat, ghost total: nat, dst: nat, src: nat, n: nat, ghost rows: seq<Row>)
    requires dst + n <= total && src + n <= total && Span(total, dim) == a.Length
    requires rows == RowsOf(a[..], dim, total)
    modifies a
    ensures RowsMoved(rows, RowsOf(a[..], dim, total), dst, src, n)
  {
    ghost var before := a[..];
    SpanAdd(dst, n, dim);
    SpanAdd(src, n, dim);
    SpanMonotone(dst + n, total, dim);
    SpanMonotone(src + n, total, dim);
    var to, from, len := Span(dst, dim), Span(src, dim), Span(n, dim);
    forall i | 0 <= i < len { a[to + i] := a[from + i]; }
    forall i | 0 <= i < a.Length ensures a[..][i] == before[MovedFrom(to, from, len, i)] {
      if to <= i < to + len { assert a[to + (i - to)] == before[from + (i - to)]; }
    }
    forall r | 0 <= r < total
      ensures RowsOf(a[..], dim, total)[r] == RowsOf(before, dim, total)[MovedFrom(dst, src, n, r)]
    {
      SpanApart(r, total, dim);
      SpanApart(MovedFrom(dst, src, n, r), total, dim);
      MovedRow(before, a[..], dim, dst, src, n, r);
    }
  }

  lemma CopiedRow(flat: seq<real>, flat': seq<real>, dim: nat, total: nat, dst: nat, row: Row, r: nat)
    requires dst < total && r < total && Span(total, dim) == |flat| == |flat'| && |row| == dim
    requires forall i :: 0 <= i < |flat| ==>
      flat'[i] == if Span(dst, dim) <= i < Span(dst, dim) + dim then row[i - Span(dst, dim)] else flat[i]
    ensures RowsOf(flat', dim, total)[r] == if r == dst then row else RowsOf(flat, dim, total)[r]
  {
    SpanApart(r, total, dim);
    if r < dst {
      SpanApart(r, dst, dim);
      assert RowAt(flat', dim, r) == RowAt(flat, dim, r);
    } else if dst < r {
      SpanApart(dst, r, dim);
      assert RowAt(flat', dim, r) == RowAt(flat, dim, r);
    } else {
      assert RowAt(flat', dim, r) == row;
    }
  }

  /** memcpy of one row out of a view. */
  method CopyRow(a: array<real>, dim: nat, ghost total: nat, dst: nat, source: seq<real>, ghost rows: nat, src: nat)
    requires dst < total && Span(total, dim) == a.Length
    requires src < rows && Span(rows, dim) <= |source|
    modifies a
    ensures RowsOf(a[..], dim, total) == old(RowsOf(a[..], dim, total))[dst := RowsOf(source, dim, rows)[src]]
  {
    ghost var before := a[..];
    SpanApart(dst, total, dim);
    SpanApart(src, rows, dim);
    var to, from := Span(dst, dim), Span(src, dim);
    forall i | 0 <= i < dim { a[to + i] := source[from + i]; }
    ghost var row := RowAt(source, dim, src);
    forall i | 0 <= i < a.Length ensures a[..][i] == if to <= i < to + dim then row[i - to] else before[i] {
      if to <= i < to + dim { assert a[to + (i - to)] == source[from + (i - to)]; }
    }
    forall r | 0 <= r < total
      ensures RowsOf(a[..], dim, total)[r] == RowsOf(before, dim, total)[dst := row][r]
    {
      CopiedRow(before, a[..], dim, total, dst, row, r);
    }
  }

  // ----- one flat array, by lanes -----

  /** Rows outside lane `b` unchanged: only that lane differs. */
  lemma OtherLane(rows: seq<Row>, rows': seq<Row>, batch: nat, window: nat, b: nat, b': nat)
    requires b < batch && b' < batch && b' != b && Span(batch, window) == |rows| == |rows'|
    requires forall r :: 0 <= r < |rows| && !(Span(b, window) <= r < Span(b, window) + window) ==> rows'[r] == rows[r]
    ensures LanesOf(rows', batch, window)[b'] == LanesOf(rows, batch, window)[b']
  {
    SpanApart(b', batch, window);
    if b' < b { SpanApart(b', b, window); } else { SpanApart(b, b', window); }
    assert LaneAt(rows', window, b') == LaneAt(rows, window, b');
  }

  lemma SlidRows(rows: seq<Row>, rows': seq<Row>, batch: nat, window: nat, b: nat, to: nat, keep: nat, drop: nat, past: nat)
    requires b < batch && keep + drop <= past <= window && Span(batch, window) == |rows| == |rows'|
    requires Span(b, window) + window <= |rows| && to == Span(b, window) + keep
    requires RowsMoved(rows, rows', to, to + drop, past - keep - drop)
    ensures LanesOf(rows', batch, window)
         == LanesOf(rows, batch, window)[b := SlideLane(LanesOf(rows, batch, window)[b], keep, drop, past)]
  {
    forall b' | 0 <= b' < batch && b' != b ensures LanesOf(rows', batch, window)[b'] == LanesOf(rows, batch, window)[b'] {
      OtherLane(rows, rows', batch, window, b, b');
    }
    assert LaneAt(rows', window, b) == SlideLane(LaneAt(rows, window, b), keep, drop, past);
  }

  lemma WrittenRow(rows: seq<Row>, batch: nat, window: nat, b: nat, t: nat, row: Row)
    requires b < batch && t < window && Span(batch, window) == |rows|
    requires Span(b, window) + window <= |rows|
    ensures LanesOf(rows[Span(b, window) + t := row], batch, window)
         == LanesOf(rows, batch, window)[b := LanesOf(rows, batch, window)[b][t := row]]
  {
    var rows' := rows[Span(b, window) + t := row];
    forall b' | 0 <= b' < batch && b' != b ensures LanesOf(rows', batch, window)[b'] == LanesOf(rows, batch, window)[b'] {
      OtherLane(rows, rows', batch, window, b, b');
    }
    assert LaneAt(rows', window, b) == LaneAt(rows, window, b)[t := row];
  }

  /** The lanes held by one array of the cache. */
  ghost function ArrayLanes(a: array<real>, d: Dims, dim: nat): (lanes: seq<Lane>)
    requires Span(Span(d.batch, d.window), dim) == a.Length
    reads a
    ensures |lanes| == d.batch && forall b :: 0 <= b < d.batch ==> |lanes[b]| == d.window
  {
    Lanes(a[..], d.batch, d.window, dim)
  }

  /** Compaction of every lane of one array. */
  method SlideArray(a: array<real>, d: Dims, dim: nat, keep: nat, drop: nat, past: nat)
    requires keep + drop <= past <= d.window && Span(Span(d.batch, d.window), dim) == a.Length
    modifies a
    ensures ArrayLanes(a, d, dim) == SlideLanes(old(ArrayLanes(a, d, dim)), d.window, keep, drop, past)
  {
    ghost var before := ArrayLanes(a, d, dim);
    ghost var now := before;
    var tail := past - keep - drop;
    for b := 0 to d.batch
      invariant ArrayLanes(a, d, dim) == now && |now| == d.batch
      invariant forall b' :: 0 <= b' < b ==> now[b'] == SlideLane(before[b'], keep, drop, past)
      invariant forall b' :: b <= b' < d.batch ==> now[b'] == before[b']
    {
      if tail > 0 {
        SlideOneLane(a, d, dim, b, keep, drop, past);
      } else {
        assert SlideLane(before[b], keep, drop, past) == before[b];
      }
      now := now[b := SlideLane(before[b], keep, drop, past)];
    }
  }

  method SlideOneLane(a: array<real>, d: Dims, dim: nat, b: nat, keep: nat, drop: nat, past: nat)
    requires b < d.batch && keep + drop <= past <= d.window && Span(Span(d.batch, d.window), dim) == a.Length
    modifies a
    ensures ArrayLanes(a, d, dim) == old(ArrayLanes(a, d, dim))[b := SlideLane(old(ArrayLanes(a, d, dim))[b], keep, drop, past)]
  {
    ghost var total := Span(d.batch, d.window);
    assert Span(b, d.window) + d.window <= total by { SpanApart(b, d.batch, d.window); }
    var to := Span(b, d.window) + keep;
    ghost var rows := RowsOf(a[..], dim, total);
    MoveRows(a, dim, total, to, to + drop, past - keep - drop, rows);
    ghost var rows' := RowsOf(a[..], dim, total);
    assert LanesOf(rows', d.batch, d.window)
        == LanesOf(rows, d.batch, d.window)[b := SlideLane(LanesOf(rows, d.batch, d.window)[b], keep, drop, past)] by {
      SlidRows(rows, rows', d.batch, d.window, b, to, keep, drop, past);
    }
  }

  /** Writing the new rows of every lane of one array. */
  method WriteArray(a: array<real>, d: Dims, dim: nat, at: nat, len: nat, source: seq<real>)
    requires at + len <= d.window && Span(Span(d.batch, d.window), dim) == a.Length
    requires Span(Span(d.batch, len), dim) <= |source|
    modifies a
    ensures ArrayLanes(a, d, dim) == WriteLanes(old(ArrayLanes(a, d, dim)), at, Lanes(source, d.batch, len, dim))
  {
    ghost var before := ArrayLanes(a, d, dim);
    ghost var news := Lanes(source, d.batch, len, dim);
    ghost var now := before;
    for b := 0 to d.batch
      invariant ArrayLanes(a, d, dim) == now && |now| == d.batch
      invariant forall b' :: 0 <= b' < b ==> now[b'] == WriteLane(before[b'], at, news[b'])
      invariant forall b' :: b <= b' < d.batch ==> now[b'] == before[b']
    {
      WriteOneLane(a, d, dim, b, at, len, source);
      now := now[b := WriteLane(before[b], at, news[b])];
    }
  }

  method WriteOneLane(a: array<real>, d: Dims, dim: nat, b: nat, at: nat, len: nat, source: seq<real>)
    requires b < d.batch && at + len <= d.window && Span(Span(d.batch, d.window), dim) == a.Length
    requires Span(Span(d.batch, len), dim) <= |source|
    modifies a
    ensures ArrayLanes(a, d, dim) == old(ArrayLanes(a, d, dim))
      [b := WriteLane(old(ArrayLanes(a, d, dim))[b], at, Lanes(source, d.batch, len, dim)[b])]
  {
    ghost var before := ArrayLanes(a, d, dim);
    ghost var rows := Lanes(source, d.batch, len, dim)[b];
    ghost var lane := before[b];
    for s := 0 to len
      invariant |lane| == d.window && lane == WriteLane(before[b], at, rows[..s])
      invariant ArrayLanes(a, d, dim) == before[b := lane]
    {
      WriteOneRow(a, d, dim, b, at + s, source, len, s);
      assert WriteLane(before[b], at, rows[..s + 1]) == lane[at + s := rows[s]];
      lane := lane[at + s := rows[s]];
    }
    assert rows[..len] == rows;
  }

  method WriteOneRow(a: array<real>, d: Dims, dim: nat, b: nat, t: nat, source: seq<real>, len: nat, s: nat)
    requires b < d.batch && t < d.window && s < len && Span(Span(d.batch, d.window), dim) == a.Length
    requires Span(Span(d.batch, len), dim) <= |source|
    modifies a
    ensures ArrayLanes(a, d, dim)
         == old(ArrayLanes(a, d, dim))[b := old(ArrayLanes(a, d, dim))[b][t := Lanes(source, d.batch, len, dim)[b][s]]]
  {
    ghost var total := Span(d.batch, d.window);
    ghost var rows := RowsOf(a[..], dim, total);
    SpanApart(b, d.batch, d.window);
    SpanApart(b, d.batch, len);
    CopyRow(a, dim, total, Span(b, d.window) + t, source, Span(d.batch, len), Span(b, len) + s);
    WrittenRow(rows, d.batch, d.window, b, t, RowsOf(source, dim, Span(d.batch, len))[Span(b, len) + s]);
  }

  // ----- reading the committed rows -----

  /** The first `past` rows of every lane. */
  ghost function Heads(lanes: seq<Lane>, past: nat): (r: seq<Lane>)
    requires forall b :: 0 <= b < |lanes| ==> past <= |lanes[b]|
    ensures |r| == |lanes| && forall b :: 0 <= b < |lanes| ==> r[b] == lanes[b][..past]
  {
    seq(|lanes|, b requires 0 <= b < |lanes| && past <= |lanes[b]| => lanes[b][..past])
  }

  /** Rows [0, past) of every lane, packed: what a [batch, past, dim] reader sees. */
  method PackArray(a: array<real>, d: Dims, dim: nat, past: nat) returns (packed: seq<real>)
    requires past <= d.window && Span(Span(d.batch, d.window), dim) == a.Length
    ensures |packed| == Span(Span(d.batch, past), dim)
    ensures Lanes(packed, d.batch, past, dim) == Heads(ArrayLanes(a, d, dim), past)
  {
    packed := [];
    ghost var want := Heads(ArrayLanes(a, d, dim), past);
    for b := 0 to d.batch
      invariant |packed| == Span(Span(b, past), dim)
      invariant Lanes(packed, b, past, dim) == want[..b]
    {
      var from, len := Span(Span(b, d.window), dim), Span(past, dim);
      PackedLane(packed, a[..], d, dim, b, past);
      packed := packed + a[from..from + len];
      assert want[..b + 1] == want[..b] + [want[b]];
    }
    assert want[..d.batch] == want;
  }

  lemma PackedLane(packed: seq<real>, flat: seq<real>, d: Dims, dim: nat, b: nat, past: nat)
    requires b < d.batch && past <= d.window && Span(Span(d.batch, d.window), dim) == |flat|
    requires |packed| == Span(Span(b, past), dim)
    ensures Span(Span(b, d.window), dim) + Span(past, dim) <= |flat|
    ensures var more := packed + flat[Span(Span(b, d.window), dim)..Span(Span(b, d.window), dim) + Span(past, dim)];
      && |more| == Span(Span(b + 1, past), dim)
      && Lanes(more, b + 1, past, dim) == Lanes(packed, b, past, dim) + [Lanes(flat, d.batch, d.window, dim)[b][..past]]
  {
    PartRows(flat, d, dim, b, past);
    var part := flat[Span(Span(b, d.window), dim)..Span(Span(b, d.window), dim) + Span(past, dim)];
    hide RowsOf, LanesOf;
    SpanAdd(Span(b, past), past, dim);
    RowsOfJoin(packed, part, dim, Span(b, past), past);
    LanesOfJoin(RowsOf(packed, dim, Span(b, past)), RowsOf(part, dim, past), b, past);
  }

  /** The stretch that is packed for lane `b` is the lane's first rows. */
  lemma PartRows(flat: seq<real>, d: Dims, dim: nat, b: nat, past: nat)
    requires b < d.batch && past <= d.window && Span(Span(d.batch, d.window), dim) == |flat|
    ensures Span(Span(b, d.window), dim) + Span(past, dim) <= |flat|
    ensures RowsOf(flat[Span(Span(b, d.window), dim)..Span(Span(b, d.window), dim) + Span(past, dim)], dim, past)
         == Lanes(flat, d.batch, d.window, dim)[b][..past]
  {
    SpanApart(b, d.batch, d.window);
    RowsOfSlice(flat, dim, Span(d.batch, d.window), Span(b, d.window), past);
    hide RowsOf;
    FrontOfLane(RowsOf(flat, dim, Span(d.batch, d.window)), d.batch, d.window, b, past);
  }

  lemma FrontOfLane(rows: seq<Row>, batch: nat, stride: nat, b: nat, n: nat)
    requires b < batch && n <= stride && Span(batch, stride) <= |rows|
    ensures Span(b, stride) + n <= |rows| && LanesOf(rows, batch, stride)[b][..n] == rows[Span(b, stride)..Span(b, stride) + n]
  {
    SpanApart(b, batch, stride);
    var lanes := LanesOf(rows, batch, stride);
    hide LanesOf;
    assert lanes[b] == rows[Span(b, stride)..Span(b, stride) + stride];
  }

  /** With one lane, or a full window, the storage prefix is already packed. */
  lemma PrefixIsPacked(flat: seq<real>, d: Dims, dim: nat, past: nat)
    requires past <= d.window && Span(Span(d.batch, d.window), dim) == |flat|
    requires d.batch == 1 || past == d.window
    ensures Span(Span(d.batch, past), dim) <= |flat|
    ensures Lanes(flat[..Span(Span(d.batch, past), dim)], d.batch, past, dim) == Heads(Lanes(flat, d.batch, d.window, dim), past)
  {
    var rows := RowsOf(flat, dim, Span(d.batch, d.window));
    if past == d.window {
      assert flat[..Span(Span(d.batch, past), dim)] == flat;
      forall b | 0 <= b < d.batch ensures LanesOf(rows, d.batch, past)[b] == LanesOf(rows, d.batch, past)[b][..past] {}
    } else {
      OnePackedLane(flat, d, dim, past);
    }
  }

  lemma OnePackedLane(flat: seq<real>, d: Dims, dim: nat, past: nat)
    requires past <= d.window && Span(Span(d.batch, d.window), dim) == |flat| && d.batch == 1
    ensures Span(Span(1, past), dim) <= |flat|
    ensures Lanes(flat[..Span(Span(1, past), dim)], 1, past, dim) == Heads(Lanes(flat, 1, d.window, dim), past)
  {
    assert Span(1, past) == past && Span(1, d.window) == d.window;
    RowsOfSlice(flat, dim, d.window, 0, past);
    var rows := RowsOf(flat, dim, d.window);
    assert LaneAt(rows[..past], past, 0) == LaneAt(rows, d.window, 0)[..past];
  }

  // ----- the arrays of one side -----

  ghost predicate BankSized(bufs: seq<array<real>>, d: Dims, dim: nat) {
    && (forall l :: 0 <= l < |bufs| ==> bufs[l].Length == Span(Span(d.batch, d.window), dim))
    && (forall l, l' :: 0 <= l < l' < |bufs| ==> bufs[l] != bufs[l'])
  }

  ghost function Bank(bufs: seq<array<real>>, d: Dims, dim: nat): (bank: seq<seq<Lane>>)
    requires BankSized(bufs, d, dim)
    reads bufs
    ensures |bank| == |bufs| && forall l :: 0 <= l < |bufs| ==> bank[l] == ArrayLanes(bufs[l], d, dim)
  {
    seq(|bufs|, l requires 0 <= l < |bufs| && BankSized(bufs, d, dim) reads bufs => ArrayLanes(bufs[l], d, dim))
  }

  method SlideArrays(bufs: seq<array<real>>, d: Dims, dim: nat, keep: nat, drop: nat, past: nat)
    requires keep + drop <= past <= d.window && BankSized(bufs, d, dim)
    modifies bufs
    ensures Bank(bufs, d, dim) == SlideBank(old(Bank(bufs, d, dim)), d.window, keep, drop, past)
  {
    hide ArrayLanes, Bank, SlideBank, SlideLanes, Span;
    ghost var before := Bank(bufs, d, dim);
    for l := 0 to |bufs|
      invariant forall j :: 0 <= j < l ==> ArrayLanes(bufs[j], d, dim) == SlideLanes(before[j], d.window, keep, drop, past)
      invariant forall j :: l <= j < |bufs| ==> ArrayLanes(bufs[j], d, dim) == before[j]
    {
      SlideArray(bufs[l], d, dim, keep, drop, past);
    }
  }

  method WriteLayerArray(bufs: seq<array<real>>, d: Dims, dim: nat, layer: nat, at: nat, len: nat, source: seq<real>)
    requires at + len <= d.window && BankSized(bufs, d, dim) && layer < |bufs|
    requires Span(Span(d.batch, len), dim) <= |source|
    modifies bufs[layer]
    ensures Bank(bufs, d, dim)
         == old(Bank(bufs, d, dim))[layer := WriteLanes(old(Bank(bufs, d, dim))[layer], at, Lanes(source, d.batch, len, dim))]
  {
    ghost var before := Bank(bufs, d, dim);
    WriteArray(bufs[layer], d, dim, at, len, source);
    forall j | 0 <= j < |bufs| && j != layer ensures Bank(bufs, d, dim)[j] == before[j] {}
  }

  // ----- the cache object -----

  class KvCache {
    var dims: Dims
    var past: nat
    var pending: int
    var absPos: nat
    var ropeScaleLen: nat
    var k: seq<array<real>>   // one [batch, window, kDim] buffer per layer
    var v: seq<array<real>>   // one [batch, window, vDim] buffer per layer

    ghost predicate Buffers()
      reads this
    {
      && |k| == |v| == dims.layers
      && BankSized(k, dims, dims.kDim) && BankSized(v, dims, dims.vDim)
      && (forall l, l' :: 0 <= l < dims.layers && 0 <= l' < dims.layers ==> k[l] != v[l'])
    }

    /** The abstract cache these fields and buffers stand for. */
    ghost function Model(): Cache
      requires Buffers()
      reads this, k, v
    {
      Cache(dims, past, pending, absPos, Bank(k, dims, dims.kDim), Bank(v, dims, dims.vDim))
    }

    ghost predicate Valid()
      reads this, k, v
    {
      Buffers() && Model().Valid()
    }

    constructor ()
      ensures Valid() && Model() == Unconfigured() && ropeScaleLen == 0 && k == [] && v == []
    {
      dims, past, pending, absPos, ropeScaleLen, k, v := Dims(0, 0, 0, 0, 0, 0, 4), 0, 0, 0, 0, [], [];
    }

    /** Zero-filled buffers, one per layer. */
    static method Allocate(d: Dims, dim: nat, ghost avoid: seq<array<real>>) returns (bufs: seq<array<real>>)
      ensures |bufs| == d.layers
      ensures forall l :: 0 <= l < |bufs| ==> fresh(bufs[l]) && bufs[l] !in avoid
      ensures forall l, l' :: 0 <= l < l' < |bufs| ==> bufs[l] != bufs[l']
      ensures forall l :: 0 <= l < |bufs| ==> bufs[l].Length == Span(Span(d.batch, d.window), dim)
      ensures forall l :: 0 <= l < |bufs| ==> forall i :: 0 <= i < bufs[l].Length ==> bufs[l][i] == 0.0
    {
      bufs := [];
      for l := 0 to d.layers
        invariant |bufs| == l
        invariant forall j :: 0 <= j < |bufs| ==> fresh(bufs[j]) && bufs[j] !in avoid
        invariant forall j, j' :: 0 <= j < j' < |bufs| ==> bufs[j] != bufs[j']
        invariant forall j :: 0 <= j < |bufs| ==> bufs[j].Length == Span(Span(d.batch, d.window), dim)
        invariant forall j :: 0 <= j < |bufs| ==> forall i :: 0 <= i < bufs[j].Length ==> bufs[j][i] == 0.0
      {
        var buf := new real[Span(Span(d.batch, d.window), dim)](_ => 0.0);
        bufs := bufs + [buf];
      }
    }

    method Configure(layers: int, batch: int, window: int, kDim: int, vDim: int, heads: int, sink: int)
      returns (error: Option<KvError>)
      requires Valid()
      modifies this
      ensures Valid()
      ensures var r := KvModel.Configure(layers, batch, window, kDim, vDim, heads, sink);
        if r.Success? then error.None? && Model() == r.value
        else error == Some(r.error) && Model() == old(Model()) && k == old(k) && v == old(v)
      ensures error.None? <==> layers > 0 && batch > 0 && window > 0 && kDim > 0 && vDim > 0 && heads > 0 && kDim % heads == 0
      ensures error.None? ==>
        && dims == Dims(layers, batch, window, kDim, vDim, heads, if 0 <= sink < window then sink else 0)
        && past == pending == absPos == 0 && |k| == |v| == layers
        && forall l :: 0 <= l < layers ==>
          && k[l].Length == batch * window * kDim && v[l].Length == batch * window * vDim
          && (forall i :: 0 <= i < k[l].Length ==> k[l][i] == 0.0) && forall i :: 0 <= i < v[l].Length ==> v[l][i] == 0.0
      ensures error.None? ==> forall l :: 0 <= l < |k| ==> fresh(k[l]) && fresh(v[l])
    {
      if layers <= 0 || batch <= 0 || window <= 0 || kDim <= 0 || vDim <= 0 || heads <= 0 {
        return Some(InvalidDims);
      }
      if kDim % heads != 0 {
        return Some(NotDivisible);
      }
      dims := Dims(layers, batch, window, kDim, vDim, heads, EffectiveSink(window, sink));
      past, pending, absPos := 0, 0, 0;
      k := Allocate(dims, dims.kDim, []);
      v := Allocate(dims, dims.vDim, k);
      ZeroModel();
      SpanIsProduct(batch, window);
      SpanIsProduct(batch * window, kDim);
      SpanIsProduct(batch * window, vDim);
      return None;
    }

    ghost predicate Zeroed()
      reads this, k, v
    {
      && (forall l :: 0 <= l < |k| ==> forall i :: 0 <= i < k[l].Length ==> k[l][i] == 0.0)
      && (forall l :: 0 <= l < |v| ==> forall i :: 0 <= i < v[l].Length ==> v[l][i] == 0.0)
    }

    lemma ZeroModel()
      requires Buffers() && Zeroed() && past == pending == absPos == 0
      requires dims.SinkFits()
      ensures Model() == Fresh(dims)
    {
      forall l | 0 <= l < dims.layers
        ensures ArrayLanes(k[l], dims, dims.kDim) == ZeroBank(dims.layers, dims.batch, dims.window, dims.kDim)[l]
        ensures ArrayLanes(v[l], dims, dims.vDim) == ZeroBank(dims.layers, dims.batch, dims.window, dims.vDim)[l]
      {
        ZeroLanes(k[l][..], dims.batch, dims.window, dims.kDim);
        ZeroLanes(v[l][..], dims.batch, dims.window, dims.vDim);
      }
      assert Model().k == Fresh(dims).k;
      assert Model().v == Fresh(dims).v;
    }

    /** `reset()`: zero every buffer and clear the counters. */
    method Reset()
      requires Valid()
      modifies this, k, v
      ensures Valid() && Model() == KvModel.Reset(old(Model())) && ropeScaleLen == 0
      ensures k == old(k) && v == old(v)
    {
      past, pending, absPos, ropeScaleLen := 0, 0, 0, 0;
      ZeroFill(k);
      ZeroFill(v);
      ZeroModel();
    }

    static method ZeroFill(bufs: seq<array<real>>)
      modifies bufs
      ensures forall l :: 0 <= l < |bufs| ==> forall i :: 0 <= i < bufs[l].Length ==> bufs[l][i] == 0.0
    {
      for l := 0 to |bufs|
        invariant forall j :: 0 <= j < l ==> forall i :: 0 <= i < bufs[j].Length ==> bufs[j][i] == 0.0
      {
        var buf := bufs[l];
        forall i | 0 <= i < buf.Length { buf[i] := 0.0; }
      }
    }

    method SetRopeScaleLen(n: int)
      requires Valid()
      modifies this`ropeScaleLen
      ensures Valid() && Model() == old(Model()) && ropeScaleLen == Max(n, 0)
    {
      ropeScaleLen := if n > 0 then n else 0;
    }

    /** Evict the rows after the sinks in every layer until `incoming` more rows fit. */
    method CompactToFit(incoming: int)
      requires Valid()
      modifies this`past, k, v
      ensures Valid() && Model() == Compact(old(Model()), incoming)
    {
      var need := past + incoming;
      if need <= dims.window { return; }
      var keep := Min(dims.sink, past);
      var movable := past - keep;
      var drop := if need - dims.window > movable then movable else need - dims.window;
      if drop <= 0 { return; }
      ghost var c := Model();
      CompactIs(c, incoming, keep, drop);
      hide Compact, SlideBank, Lanes;
      SlideBoth(keep, drop);
      past := past - drop;
      assert Model() == Compact(c, incoming);
    }

    method SlideBoth(keep: nat, drop: nat)
      requires Valid() && keep + drop <= past
      modifies k, v
      ensures Buffers()
      ensures Bank(k, dims, dims.kDim) == SlideBank(old(Bank(k, dims, dims.kDim)), dims.window, keep, drop, past)
      ensures Bank(v, dims, dims.vDim) == SlideBank(old(Bank(v, dims, dims.vDim)), dims.window, keep, drop, past)
    {
      SlideArrays(k, dims, dims.kDim, keep, drop, past);
      ghost var half := Bank(k, dims, dims.kDim);
      SlideArrays(v, dims, dims.vDim, keep, drop, past);
      assert Bank(k, dims, dims.kDim) == half;
    }

    /** Append the new rows of one layer. Occupancy advances only at CommitStep. */
    method AppendLayer(layer: int, kView: View, vView: View) returns (error: Option<KvError>)
      requires Valid() && kView.Covered() && vView.Covered()
      modifies this`past, this`pending, k, v
      ensures Valid()
      ensures Model() == KvModel.Append(old(Model()), layer, kView, vView).cache
      ensures error == KvModel.Append(old(Model()), layer, kView, vView).error
    {
      if dims.layers == 0 { return Some(NotConfigured); }
      if layer < 0 || layer >= dims.layers { return Some(LayerOutOfRange); }
      var ks := ParseShape(kView);
      if ks.Failure? { return Some(ks.error); }
      var vs := ParseShape(vView);
      if vs.Failure? { return Some(vs.error); }
      if ks.value.batch != dims.batch || vs.value.batch != dims.batch || ks.value.dim != dims.kDim
         || vs.value.dim != dims.vDim || ks.value.len != vs.value.len {
        return Some(ShapeMismatch);
      }
      var n := ks.value.len;
      if n > dims.window { return Some(SeqExceedsWindow); }
      error := AppendRows(layer, n, kView, vView);
    }

    /** The second half of `append_layer`: make room, then write, if the rows fit; the loops write nothing for a negative length. */
    method AppendRows(layer: nat, n: int, kView: View, vView: View) returns (error: Option<KvError>)
      requires Valid() && kView.Covered() && vView.Covered()
      requires AppendChecks(Model(), layer, kView, vView) == Success(n)
      modifies this`past, this`pending, k, v
      ensures Valid()
      ensures Model() == KvModel.Append(old(Model()), layer, kView, vView).cache
      ensures error == KvModel.Append(old(Model()), layer, kView, vView).error
    {
      ghost var c := Model();
      CompactToFit(n);
      AppendIs(c, layer, kView, vView, n);
      hide Append, Compact, RowsFit, WriteLanes, NewRows, ParseShape;
      if past + n < 0 || past + n > dims.window { return Some(CapacityExceeded); }
      StageRows(layer, n, kView.data.value, vView.data.value);
      return None;
    }

    /** Write the rows of one layer at the occupancy and note how many. */
    method StageRows(layer: nat, n: int, kRows: seq<real>, vRows: seq<real>)
      requires Valid() && layer < dims.layers && 0 <= past + n <= dims.window
      requires Span(Span(dims.batch, Pos(n)), dims.kDim) <= |kRows| && Span(Span(dims.batch, Pos(n)), dims.vDim) <= |vRows|
      requires RowsFit(Model().k[layer], past, Lanes(kRows, dims.batch, Pos(n), dims.kDim))
      requires RowsFit(Model().v[layer], past, Lanes(vRows, dims.batch, Pos(n), dims.vDim))
      modifies this`pending, k, v
      ensures Buffers()
      ensures Model() == var c := old(Model());
        c.(pending := n, k := c.k[layer := WriteLanes(c.k[layer], c.past, Lanes(kRows, c.dims.batch, Pos(n), c.dims.kDim))],
                         v := c.v[layer := WriteLanes(c.v[layer], c.past, Lanes(vRows, c.dims.batch, Pos(n), c.dims.vDim))])
    {
      hide RowsFit, WriteLanes, Lanes;
      WriteLayer(layer, Pos(n), kRows, vRows);
      pending := n;
    }

    method WriteLayer(layer: nat, n: nat, kRows: seq<real>, vRows: seq<real>)
      requires Valid() && layer < dims.layers && past + n <= dims.window
      requires Span(Span(dims.batch, n), dims.kDim) <= |kRows| && Span(Span(dims.batch, n), dims.vDim) <= |vRows|
      modifies k[layer], v[layer]
      ensures Buffers()
      ensures Bank(k, dims, dims.kDim) == old(Bank(k, dims, dims.kDim))
        [layer := WriteLanes(old(Bank(k, dims, dims.kDim))[layer], past, Lanes(kRows, dims.batch, n, dims.kDim))]
      ensures Bank(v, dims, dims.vDim) == old(Bank(v, dims, dims.vDim))
        [layer := WriteLanes(old(Bank(v, dims, dims.vDim))[layer], past, Lanes(vRows, dims.batch, n, dims.vDim))]
    {
      WriteLayerArray(k, dims, dims.kDim, layer, past, n, kRows);
      ghost var half := Bank(k, dims, dims.kDim);
      WriteLayerArray(v, dims, dims.vDim, layer, past, n, vRows);
      assert Bank(k, dims, dims.kDim) == half;
    }

    method CommitStep()
      requires Valid() && Model().Committable()
      modifies this`past, this`pending, this`absPos
      ensures Valid() && Model() == Commit(old(Model()))
    {
      absPos := absPos + pending;
      past := past + pending;
      pending := 0;
    }

    /** View of the committed rows of one layer, packed [batch, past, dim]; no data when empty. */
    method PastView(layer: int, isK: bool) returns (view: View)
      requires Valid()
      ensures ShowsPast(Model(), layer, isK, view)
      ensures view.data.Some? ==> |view.shape| == 3
    {
      if dims.layers == 0 || layer < 0 || layer >= dims.layers || past == 0 {
        return View(false, [], None);
      }
      var dim := if isK then dims.kDim else dims.vDim;
      var src := if isK then k[layer] else v[layer];
      var shape := [dims.batch, past, dim];
      ghost var c := Model();
      ghost var lanes := if isK then c.k[layer] else c.v[layer];
      assert lanes == Lanes(src[..], dims.batch, dims.window, dim);
      if dims.batch == 1 || past == dims.window {
        PrefixIsPacked(src[..], dims, dim, past);
        view := View(true, shape, Some(src[..Span(Span(dims.batch, past), dim)]));
      } else {
        var packed := PackArray(src, dims, dim, past);
        view := View(true, shape, Some(packed));
      }
      ViewShows(c, layer, isK, lanes, view);
    }
  }

  /** A view of the first rows of every lane shows what is committed. */
  lemma ViewShows(c: Cache, layer: nat, isK: bool, lanes: seq<Lane>, view: View)
    requires c.Valid() && c.Configured() && layer < c.dims.layers && c.past > 0 && lanes == if isK then c.k[layer] else c.v[layer]
    requires view.isF32 && view.data.Some? && view.shape == [c.dims.batch, c.past, if isK then c.dims.kDim else c.dims.vDim]
    requires |view.data.value| == Span(Span(c.dims.batch, c.past), view.shape[2]) && forall b :: 0 <= b < |lanes| ==> c.past <= |lanes[b]|
    requires Lanes(view.data.value, c.dims.batch, c.past, view.shape[2]) == Heads(lanes, c.past)
    ensures ShowsPast(c, layer, isK, view)
  {
    hide Lanes;
    assert view.Covered() && ParseShape(view) == Success(KvShape(c.dims.batch, c.past, view.shape[2]));
    assert NewRows(view) == PastLanes(c, layer, isK).value;
  }

  lemma ZeroLanes(flat: seq<real>, batch: nat, stride: nat, dim: nat)
    requires Span(Span(batch, stride), dim) == |flat|
    requires forall i :: 0 <= i < |flat| ==> flat[i] == 0.0
    ensures Lanes(flat, batch, stride, dim) == seq(batch, _ => ZeroLane(stride, dim))
  {
    forall b | 0 <= b < batch ensures Lanes(flat, batch, stride, dim)[b] == ZeroLane(stride, dim) {
      SpanApart(b, batch, stride);
      forall t | 0 <= t < stride ensures Lanes(flat, batch, stride, dim)[b][t] == ZeroLane(stride, dim)[t] {
        SpanApart(Span(b, stride) + t, Span(batch, stride), dim);
      }
    }
  }
}
