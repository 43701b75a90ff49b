/**
 The sliding key/value cache as a state machine on values: what each operation of the
 `KvCache` class does to the resident rows and to the three counters. The class (KvCache.dfy)
 is proved against these functions; the properties of whole runs are proved here and in
 KvHistory.dfy.
 */
module KvModel {
  import opened Layout

  datatype KvError =
    | InvalidDims | NotDivisible
    | NotConfigured | LayerOutOfRange | BadView | ShapeMismatch | SeqExceedsWindow | CapacityExceeded

  /** How often a loop up to `x` runs: not at all when `x` is negative. */
  function Pos(x: int): nat { if x < 0 then 0 else x }

  /** A tensor handed to the cache. Its dimensions may be negative; its data, when present, covers the others. */
  datatype View = View(isF32: bool, shape: seq<int>, data: Option<seq<real>>) {
    predicate Sized() {
      data.Some? && |shape| == 2 ==> Span(Span(Pos(shape[0]), 1), Pos(shape[1])) <= |data.value|
    }
    predicate Sized3() {
      data.Some? && |shape| == 3 ==> Span(Span(Pos(shape[0]), Pos(shape[1])), Pos(shape[2])) <= |data.value|
    }
    predicate Covered() { Sized() && Sized3() }
  }

  datatype KvShape = KvShape(batch: int, len: int, dim: int) {
    predicate Proper() { batch >= 0 && len >= 0 && dim >= 0 }
  }

  function ParseShape(v: View): Result<KvShape, KvError> {
    if !v.isF32 || v.data.None? then Failure(BadView)
    else if |v.shape| == 2 then Success(KvShape(v.shape[0], 1, v.shape[1]))
    else if |v.shape| == 3 then Success(KvShape(v.shape[0], v.shape[1], v.shape[2]))
    else Failure(BadView)
  }

  /** The per-batch new rows that a well-shaped view carries; none when its length is negative. */
  function NewRows(v: View): (rows: seq<Lane>)
    requires v.Covered() && ParseShape(v).Success?
    ensures var s := ParseShape(v).value;
      |rows| == Pos(s.batch) && forall b :: 0 <= b < |rows| ==> |rows[b]| == Pos(s.len)
  {
    var s := ParseShape(v).value;
    Lanes(v.data.value, Pos(s.batch), Pos(s.len), Pos(s.dim))
  }

  datatype Dims = Dims(layers: nat, batch: nat, window: nat, kDim: nat, vDim: nat, heads: nat, sink: nat) {
    /** In a configured cache the sinks leave room for at least one more row. */
    predicate SinkFits() { layers > 0 ==> sink == 0 || sink < window }
  }

  datatype Cache = Cache(
    dims: Dims,
    past: nat,          // committed resident rows
    pending: int,       // rows appended and not yet committed; the length the last append claimed
    absPos: nat,        // tokens ever committed
    k: seq<seq<Lane>>,  // k[layer][batch] has `window` rows
    v: seq<seq<Lane>>)
  {
    predicate Configured() { dims.layers > 0 }

    /** A negative pending length takes back no more rows than are committed. */
    predicate Committable() { past + pending >= 0 }

    ghost predicate Valid() {
      && past <= dims.window && past + pending <= dims.window
      && past <= absPos
      && dims.SinkFits()
      && BankShape(k) && BankShape(v)
    }

    ghost predicate BankShape(bank: seq<seq<Lane>>) {
      && |bank| == dims.layers
      && forall l :: 0 <= l < |bank| ==> LanesShape(bank[l])
    }

    ghost predicate LanesShape(lanes: seq<Lane>) {
      |lanes| == dims.batch && forall b :: 0 <= b < |lanes| ==> |lanes[b]| == dims.window
    }
  }

  function Unconfigured(): Cache { Cache(Dims(0, 0, 0, 0, 0, 0, 4), 0, 0, 0, [], []) }

  function ZeroLane(window: nat, dim: nat): Lane { seq(window, _ => seq(dim, _ => 0.0)) }

  function ZeroBank(layers: nat, batch: nat, window: nat, dim: nat): seq<seq<Lane>> {
    seq(layers, _ => seq(batch, _ => ZeroLane(window, dim)))
  }

  function EffectiveSink(window: nat, sink: int): nat {
    var s := if sink < 0 then 0 else sink;
    if s >= window then 0 else s
  }

  function Fresh(d: Dims): (c: Cache)
    requires d.SinkFits()
    ensures c.Valid()
  {
    Cache(d, 0, 0, 0, ZeroBank(d.layers, d.batch, d.window, d.kDim),
          ZeroBank(d.layers, d.batch, d.window, d.vDim))
  }

  /** `configure`: whatever the cache held before, it is empty with the given sizes, or the sizes are refused. */
  function Configure(layers: int, batch: int, window: int, kDim: int, vDim: int, heads: int, sink: int): (r: Result<Cache, KvError>)
    ensures r.Success? ==> r.value.Valid() && r.value.Configured()
  {
    if layers <= 0 || batch <= 0 || window <= 0 || kDim <= 0 || vDim <= 0 || heads <= 0 then Failure(InvalidDims)
    else if kDim % heads != 0 then Failure(NotDivisible)
    else Success(Fresh(Dims(layers, batch, window, kDim, vDim, heads, EffectiveSink(window, sink))))
  }

  function Reset(c: Cache): Cache
    requires c.Valid()
  {
    Fresh(c.dims)
  }

  // ----- making room -----

  /** Rows protected at the front of every lane. */
  function KeepSink(c: Cache): nat { Min(c.dims.sink, c.past) }

  /** How many rows the cache evicts, after the sinks, to fit `incoming` more. */
  function Drop(c: Cache, incoming: int): (d: nat)
    ensures d <= c.past - KeepSink(c)
  {
    var need := c.past + incoming;
    if need <= c.dims.window then 0 else Min(need - c.dims.window, c.past - KeepSink(c))
  }

  /** In-place compaction of one lane: the rows after the evicted ones move down to `keep`. */
  function SlideLane(lane: Lane, keep: nat, drop: nat, past: nat): (r: Lane)
    requires keep + drop <= past <= |lane|
    ensures |r| == |lane|
    ensures forall t :: 0 <= t < |lane| ==> r[t] == lane[if keep <= t < past - drop then t + drop else t]
  {
    seq(|lane|, t requires 0 <= t < |lane| => lane[if keep <= t < past - drop then t + drop else t])
  }

  function SlideLanes(lanes: seq<Lane>, window: nat, keep: nat, drop: nat, past: nat): (r: seq<Lane>)
    requires keep + drop <= past <= window
    requires forall b :: 0 <= b < |lanes| ==> |lanes[b]| == window
    ensures |r| == |lanes|
    ensures forall b :: 0 <= b < |lanes| ==> r[b] == SlideLane(lanes[b], keep, drop, past)
  {
    seq(|lanes|, b requires 0 <= b < |lanes| => SlideLane(lanes[b], keep, drop, past))
  }

  function SlideBank(bank: seq<seq<Lane>>, window: nat, keep: nat, drop: nat, past: nat): (r: seq<seq<Lane>>)
    requires keep + drop <= past <= window
    requires forall l, b :: 0 <= l < |bank| && 0 <= b < |bank[l]| ==> |bank[l][b]| == window
    ensures |r| == |bank|
    ensures forall l :: 0 <= l < |bank| ==> r[l] == SlideLanes(bank[l], window, keep, drop, past)
  {
    seq(|bank|, l requires 0 <= l < |bank| => SlideLanes(bank[l], window, keep, drop, past))
  }

  function Compact(c: Cache, incoming: int): (r: Cache)
    requires c.Valid()
    ensures r.Valid()
    ensures r.dims == c.dims && r.absPos == c.absPos && r.pending == c.pending
    ensures r.past == c.past - Drop(c, incoming)
  {
    var d := Drop(c, incoming);
    var keep := KeepSink(c);
    if d == 0 then c
    else c.(past := c.past - d,
            k := SlideBank(c.k, c.dims.window, keep, d, c.past),
            v := SlideBank(c.v, c.dims.window, keep, d, c.past))
  }

  /** Compaction that evicts something. */
  lemma CompactIs(c: Cache, incoming: int, keep: nat, drop: nat)
    requires c.Valid() && drop == Drop(c, incoming) > 0 && keep == KeepSink(c)
    ensures Compact(c, incoming) == c.(past := c.past - drop,
                                       k := SlideBank(c.k, c.dims.window, keep, drop, c.past), v := SlideBank(c.v, c.dims.window, keep, drop, c.past))
  {}

  // ----- append and commit -----

  /** Writes `rows` into one lane at position `at`. */
  function WriteLane(lane: Lane, at: nat, rows: Lane): (r: Lane)
    requires at + |rows| <= |lane|
    ensures |r| == |lane|
    ensures forall t :: 0 <= t < |lane| ==> r[t] == if at <= t < at + |rows| then rows[t - at] else lane[t]
  {
    seq(|lane|, t requires 0 <= t < |lane| => if at <= t < at + |rows| then rows[t - at] else lane[t])
  }

  /** There is room in every lane for its rows at position `at`. */
  predicate RowsFit(lanes: seq<Lane>, at: nat, rows: seq<Lane>) {
    |rows| == |lanes| && forall b :: 0 <= b < |lanes| ==> at + |rows[b]| <= |lanes[b]|
  }

  function WriteLanes(lanes: seq<Lane>, at: nat, rows: seq<Lane>): (r: seq<Lane>)
    requires RowsFit(lanes, at, rows)
    ensures |r| == |lanes|
    ensures forall b :: 0 <= b < |lanes| ==> r[b] == WriteLane(lanes[b], at, rows[b])
  {
    seq(|lanes|, b requires 0 <= b < |lanes| => WriteLane(lanes[b], at, rows[b]))
  }

  /** The checks `append_layer` makes before it touches the cache. */
  function AppendChecks(c: Cache, layer: int, k: View, v: View): Result<int, KvError> {
    if !c.Configured() then Failure(NotConfigured)
    else if layer < 0 || layer >= c.dims.layers then Failure(LayerOutOfRange)
    else
      var ks := ParseShape(k);
      var vs := ParseShape(v);
      if ks.Failure? then Failure(ks.error)
      else if vs.Failure? then Failure(vs.error)
      else if ks.value.batch != c.dims.batch || vs.value.batch != c.dims.batch || ks.value.dim != c.dims.kDim
              || vs.value.dim != c.dims.vDim || ks.value.len != vs.value.len then Failure(ShapeMismatch)
      else if ks.value.len > c.dims.window then Failure(SeqExceedsWindow)
      else Success(ks.value.len)
  }

  datatype Outcome = Outcome(cache: Cache, error: Option<KvError>)

  /** A failed append that got past the checks has already evicted rows. */
  function Append(c: Cache, layer: int, k: View, v: View): (r: Outcome)
    requires c.Valid() && k.Covered() && v.Covered()
    ensures r.cache.Valid()
    ensures r.cache.dims == c.dims && r.cache.absPos == c.absPos
    ensures r.error.Some? ==> r.cache.pending == c.pending
    ensures r.error.None? ==> AppendChecks(c, layer, k, v).Success? && r.cache.pending == AppendChecks(c, layer, k, v).value
    ensures r.error.None? ==> r.cache.Committable()
  {
    var checks := AppendChecks(c, layer, k, v);
    if checks.Failure? then Outcome(c, Some(checks.error))
    else
      var n := checks.value;
      var c1 := Compact(c, n);
      if c1.past + n < 0 || c1.past + n > c1.dims.window then Outcome(c1, Some(CapacityExceeded))
      else
        Outcome(c1.(pending := n,
                    k := c1.k[layer := WriteLanes(c1.k[layer], c1.past, NewRows(k))],
                    v := c1.v[layer := WriteLanes(c1.v[layer], c1.past, NewRows(v))]),
                None)
  }

  /** What an append that passed its checks does: make room, then either stop or write. */
  lemma AppendIs(c: Cache, layer: int, k: View, v: View, n: int)
    requires c.Valid() && k.Covered() && v.Covered() && AppendChecks(c, layer, k, v) == Success(n)
    ensures var c1, r := Compact(c, n), Append(c, layer, k, v);
      && c1.Valid() && c1.dims == c.dims && |c1.k| == |c1.v| == c.dims.layers
      && k.data.Some? && v.data.Some? && |NewRows(k)| == |NewRows(v)| == |c1.k[layer]| == |c1.v[layer]| == c.dims.batch
      && Span(Span(c.dims.batch, Pos(n)), c.dims.kDim) <= |k.data.value| && Span(Span(c.dims.batch, Pos(n)), c.dims.vDim) <= |v.data.value|
      && NewRows(k) == Lanes(k.data.value, c.dims.batch, Pos(n), c.dims.kDim)
      && NewRows(v) == Lanes(v.data.value, c.dims.batch, Pos(n), c.dims.vDim)
      && (c1.past + n < 0 || c1.past + n > c1.dims.window ==> r == Outcome(c1, Some(CapacityExceeded)))
      && (0 <= c1.past + n <= c1.dims.window ==>
            && RowsFit(c1.k[layer], c1.past, NewRows(k)) && RowsFit(c1.v[layer], c1.past, NewRows(v))
            && r == Outcome(c1.(pending := n,
                                k := c1.k[layer := WriteLanes(c1.k[layer], c1.past, NewRows(k))],
                                v := c1.v[layer := WriteLanes(c1.v[layer], c1.past, NewRows(v))]), None))
  {}

  function Commit(c: Cache): (r: Cache)
    requires c.Valid() && c.Committable()
    ensures r.Valid()
  {
    c.(absPos := c.absPos + c.pending, past := c.past + c.pending, pending := 0)
  }

  /** What a read of the committed rows of one layer returns, per batch lane; nothing when empty. */
  function PastLanes(c: Cache, layer: int, isK: bool): (r: Option<seq<Lane>>)
    requires c.Valid()
    ensures r.Some? <==> c.Configured() && 0 <= layer < c.dims.layers && c.past > 0
  {
    if !c.Configured() || layer < 0 || layer >= c.dims.layers || c.past == 0 then None
    else
      var bank := if isK then c.k[layer] else c.v[layer];
      Some(seq(c.dims.batch, b requires 0 <= b < c.dims.batch && c.Valid() && (bank == c.k[layer] || bank == c.v[layer]) => bank[b][..c.past]))
  }

  /** A view shows exactly the committed rows of one layer, or nothing when there are none. */
  ghost predicate ShowsPast(c: Cache, layer: int, isK: bool, view: View)
    requires c.Valid()
  {
    && view.Covered() && (view.data.Some? <==> PastLanes(c, layer, isK).Some?)
    && (view.data.Some? ==>
          && ParseShape(view) == Success(KvShape(c.dims.batch, c.past, if isK then c.dims.kDim else c.dims.vDim))
          && NewRows(view) == PastLanes(c, layer, isK).value)
  }

  /** The dimensions of a rank-2 or rank-3 view as lanes, rows, numbers a row; a rank-2 view has one row a lane. */
  function Three(v: View): (int, int, int)
    requires 2 <= |v.shape| <= 3
  {
    (v.shape[0], if |v.shape| == 2 then 1 else v.shape[1], v.shape[|v.shape| - 1])
  }

  /** A float view with data, of rank 2 or 3. */
  predicate Readable(v: View) { v.isF32 && v.data.Some? && (|v.shape| == 2 || |v.shape| == 3) }

  /** The checks pass exactly for readable views of the configured lanes and widths and one length that is at most the window. */
  lemma ChecksPassIff(c: Cache, layer: int, k: View, v: View)
    ensures AppendChecks(c, layer, k, v).Success? <==>
      && c.dims.layers > 0 && 0 <= layer < c.dims.layers && Readable(k) && Readable(v)
      && Three(k) == (c.dims.batch, Three(k).1, c.dims.kDim) && Three(v) == (c.dims.batch, Three(k).1, c.dims.vDim) && Three(k).1 <= c.dims.window
    ensures AppendChecks(c, layer, k, v).Success? ==> AppendChecks(c, layer, k, v).value == Three(k).1
  {}

  /** Number `x` of row `t` of lane `b` of a view stands in row-major order in its data. */
  lemma NewRowsAre(v: View, b: nat, t: nat, x: nat)
    requires v.Covered() && Readable(v) && b < Three(v).0 && t < Three(v).1 && x < Three(v).2
    ensures b < |NewRows(v)| && t < |NewRows(v)[b]| && x < |NewRows(v)[b][t]|
    ensures Span(Span(b, Three(v).1) + t, Three(v).2) + x < |v.data.value|
    ensures NewRows(v)[b][t][x] == v.data.value[Span(Span(b, Three(v).1) + t, Three(v).2) + x]
  {
    hide Lanes, Span;
    var (batch, n, dim) := Three(v);
    LanesAt(v.data.value, batch, n, dim, b, t, x);
  }

  // ----- when does an append fit -----

  /**
   Success is decided by sizes alone: the sinks that must stay, plus the new rows, must fit; and a
   negative length must not exceed the occupancy.
   */
  lemma AppendFits(c: Cache, layer: int, k: View, v: View)
    requires c.Valid() && k.Covered() && v.Covered()
    requires AppendChecks(c, layer, k, v).Success? || AppendChecks(c, layer, k, v) == Failure(SeqExceedsWindow)
    ensures var n := ParseShape(k).value.len;
      Append(c, layer, k, v).error.None? <==> n <= c.dims.window && KeepSink(c) + n <= c.dims.window && 0 <= c.past + n
  {}

  /** An append of rows that do not fit has already evicted every row but the sinks; one of a negative length evicts nothing. */
  lemma OverflowLeavesOnlySinks(c: Cache, layer: int, k: View, v: View)
    requires c.Valid() && k.Covered() && v.Covered()
    requires Append(c, layer, k, v).error == Some(CapacityExceeded)
    ensures Append(c, layer, k, v).cache.past == if AppendChecks(c, layer, k, v).value < 0 then c.past else KeepSink(c)
    ensures Append(c, layer, k, v).cache.pending == c.pending
    ensures PastLanes(Append(c, layer, k, v).cache, layer, true).Some? ==>
      forall b :: 0 <= b < c.dims.batch ==>
        PastLanes(Append(c, layer, k, v).cache, layer, true).value[b] == c.k[layer][b][..Append(c, layer, k, v).cache.past]
  {}

  /**
   A refused append leaves the cache as it was exactly when it failed a check before making room,
   when its length is negative, or when no row beyond the sinks was resident.
   */
  lemma RefusedIsUnchanged(c: Cache, layer: int, k: View, v: View)
    requires c.Valid() && k.Covered() && v.Covered() && Append(c, layer, k, v).error.Some?
    ensures Append(c, layer, k, v).cache == c
       <==> AppendChecks(c, layer, k, v).Failure? || AppendChecks(c, layer, k, v).value < 0 || c.past == KeepSink(c)
  {}

  /** A view of one lane of `n` one-number rows. */
  function Plain(n: nat): (v: View)
    ensures v.Covered() && ParseShape(v) == Success(KvShape(1, n, 1))
  {
    SpanIsProduct(1, n);
    SpanIsProduct(n, 1);
    View(true, [1, n, 1], Some(seq(n, _ => 0.0)))
  }

  /** A full window of four rows with two sinks: three more rows are refused, and two rows are gone. */
  lemma RefusedFullWindow()
    ensures var c := Commit(Append(Fresh(Dims(1, 1, 4, 1, 1, 1, 2)), 0, Plain(4), Plain(4)).cache);
      var r := Append(c, 0, Plain(3), Plain(3));
      c.past == 4 && r.error == Some(CapacityExceeded) && r.cache.past == 2 && r.cache != c
  {
    var c0 := Fresh(Dims(1, 1, 4, 1, 1, 1, 2));
    assert AppendChecks(c0, 0, Plain(4), Plain(4)) == Success(4);
    AppendFits(c0, 0, Plain(4), Plain(4));
    var c := Commit(Append(c0, 0, Plain(4), Plain(4)).cache);
    assert AppendChecks(c, 0, Plain(3), Plain(3)) == Success(3);
    OverflowLeavesOnlySinks(c, 0, Plain(3), Plain(3));
  }

  // ----- negative lengths -----

  /**
   An append whose views claim a negative length passes exactly when that many rows are committed;
   it writes nothing, and the next commit takes the newest rows and the position back.
   */
  lemma NegativeAppend(c: Cache, layer: int, k: View, v: View)
    requires c.Valid() && k.Covered() && v.Covered()
    requires AppendChecks(c, layer, k, v).Success? && AppendChecks(c, layer, k, v).value < 0
    ensures var n, r := AppendChecks(c, layer, k, v).value, Append(c, layer, k, v);
      && (r.error.None? <==> c.past + n >= 0)
      && (r.error.None? ==> r.cache == c.(pending := n) && Commit(r.cache) == c.(pending := 0, past := c.past + n, absPos := c.absPos + n))
      && (r.error.Some? ==> r.cache == c)
  {
    if c.past + AppendChecks(c, layer, k, v).value >= 0 {
      forall b | 0 <= b < c.dims.batch
        ensures WriteLane(c.k[layer][b], c.past, NewRows(k)[b]) == c.k[layer][b]
        ensures WriteLane(c.v[layer][b], c.past, NewRows(v)[b]) == c.v[layer][b]
      {}
      assert WriteLanes(c.k[layer], c.past, NewRows(k)) == c.k[layer];
      assert WriteLanes(c.v[layer], c.past, NewRows(v)) == c.v[layer];
      assert c.k[layer := c.k[layer]] == c.k && c.v[layer := c.v[layer]] == c.v;
    }
  }

  /** A commit rewinds the position exactly when the pending length is negative. */
  lemma CommitRewinds(c: Cache)
    requires c.Valid() && c.Committable()
    ensures Commit(c).absPos < c.absPos <==> c.pending < 0
  {}

  /** Two committed rows, then views that claim minus one: the append passes and the commit rewinds. */
  lemma NegativeRewinds()
    ensures var c := Commit(Append(Fresh(Dims(1, 1, 4, 1, 1, 1, 2)), 0, Plain(2), Plain(2)).cache);
      var w := View(true, [1, -1, 1], Some([]));
      && w.Covered() && c.absPos == 2
      && var r := Append(c, 0, w, w);
         r.error.None? && Commit(r.cache).absPos == 1 && Commit(r.cache).past == 1
  {
    var c0 := Fresh(Dims(1, 1, 4, 1, 1, 1, 2));
    assert AppendChecks(c0, 0, Plain(2), Plain(2)) == Success(2);
    AppendFits(c0, 0, Plain(2), Plain(2));
    var c := Commit(Append(c0, 0, Plain(2), Plain(2)).cache);
    var w := View(true, [1, -1, 1], Some([]));
    assert w.Covered() by {
      assert Pos(-1) == 0;
      SpanIsProduct(1, 0);
    }
    assert AppendChecks(c, 0, w, w) == Success(-1);
    NegativeAppend(c, 0, w, w);
  }

  // ----- ordinary lengths -----

  /** One token always fits, whatever has been evicted before. */
  lemma SingleTokenFits(c: Cache, layer: int, k: View, v: View)
    requires c.Valid() && k.Covered() && v.Covered()
    requires AppendChecks(c, layer, k, v) == Success(1)
    ensures Append(c, layer, k, v).error.None?
  {
    AppendFits(c, layer, k, v);
  }

  /** A successful append fills the window exactly when it had to evict. */
  lemma AppendOccupancy(c: Cache, layer: int, k: View, v: View)
    requires c.Valid() && k.Covered() && v.Covered()
    requires Append(c, layer, k, v).error.None?
    ensures var r := Append(c, layer, k, v).cache;
      var n := AppendChecks(c, layer, k, v).value;
      r.pending == n && r.past + n == Min(c.past + n, c.dims.window) && KeepSink(r) == KeepSink(c)
  {}
}
