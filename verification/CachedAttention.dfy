/**
 Attention against the cache: the dispatcher reads the committed rows of a layer, attends over
 them and the new rows, then appends the new rows. While nothing has been evicted, any chunking
 of a token sequence gives the rows of one uncached causal call; once the window has slid, a step
 is full attention restricted to an explicit set of positions.
 */
module CachedAttention {
  import opened Layout
  import opened AttentionSpec
  import opened Averages
  import opened Attention
  import opened KvModel
  import H = KvHistory
  import C = KvCache

  datatype DispatchError = InAttention(a: AttnError) | InCache(k: KvError)

  /** The committed rows of one lane, or none; a lane the cache does not have has none. */
  function PastRows(c: Cache, layer: int, isK: bool, b: nat): (r: Lane)
    requires c.Valid()
  {
    var p := PastLanes(c, layer, isK);
    if p.None? || b >= |p.value| then [] else p.value[b]
  }

  /** What a cached call writes to lane `b`. */
  ghost function CachedOut(f: Fns, o: Opts, hd: Heads, c: Cache, layer: int, qs: Lane, ks: Lane, vs: Lane, b: nat): (r: Lane)
    requires c.Valid()
    requires RoomyLane(hd, qs, PastRows(c, layer, true, b) + ks, PastRows(c, layer, false, b) + vs)
    ensures |r| == |qs|
  {
    LaneOut(f, o, hd, qs, PastRows(c, layer, true, b) + ks, PastRows(c, layer, false, b) + vs, |PastRows(c, layer, true, b)|)
  }

  // ----- the dispatcher -----

  function SomeView(v: View): Option<View> { if v.data.Some? then Some(v) else None }

  /** What a checked call takes from its operands. */
  lemma {:induction false} CallOperands(q: View, k: View, v: View, out: View, o: Opts, pk: View, pv: View)
    requires CheckCall(q, k, v, out, o, SomeView(pk), SomeView(pv)).Success?
    ensures var call := CheckCall(q, k, v, out, o, SomeView(pk), SomeView(pv)).value;
      && call.Valid() && q.Covered() && k.Covered() && v.Covered()
      && ParseShape(q) == Success(KvShape(call.batch, call.qSeq, call.qDim))
      && ParseShape(k) == Success(KvShape(call.batch, call.qSeq, call.kDim))
      && ParseShape(v) == Success(KvShape(call.batch, call.qSeq, call.vDim))
      && q.data == Some(call.q) && k.data == Some(call.k) && v.data == Some(call.v)
      && LayoutOf(o, q, k, v, call.hd) == call.hd
      && (pk.data.Some? <==> pv.data.Some?)
      && (pk.data.None? ==> call.past == 0)
      && (pk.data.Some? ==>
            && ParseShape(pk) == Success(KvShape(call.batch, call.past, call.kDim)) && pk.data == Some(call.pk)
            && ParseShape(pv) == Success(KvShape(call.batch, call.past, call.vDim)) && pv.data == Some(call.pv))
  {
    CheckedCallIsValid(q, k, v, out, o, SomeView(pk), SomeView(pv));
  }

  /** One lane of a call made with the cache's views attends over exactly the cached rows. */
  lemma {:induction false} LaneReads(c: Cache, layer: int, call: Call, past: View, fed: View, isK: bool, b: nat)
    requires c.Valid() && ShowsPast(c, layer, isK, past) && call.Valid() && b < call.batch && fed.Covered()
    requires ParseShape(fed) == Success(KvShape(call.batch, call.qSeq, if isK then call.kDim else call.vDim))
    requires fed.data == Some(if isK then call.k else call.v)
    requires past.data.None? ==> call.past == 0
    requires past.data.Some? ==>
      && ParseShape(past) == Success(KvShape(call.batch, call.past, if isK then call.kDim else call.vDim))
      && past.data == Some(if isK then call.pk else call.pv)
    ensures past.data.Some? ==> call.past == c.past && call.batch == c.dims.batch
    ensures call.past == |PastRows(c, layer, isK, b)|
    ensures (if isK then call.Keys(b) else call.Vals(b)) == PastRows(c, layer, isK, b) + NewRows(fed)[b]
  {
    if past.data.Some? {
      assert NewRows(past)[b] == PastRows(c, layer, isK, b);
    } else {
      assert PastRows(c, layer, isK, b) == [];
    }
  }

  /** A checked call made with the cache's views attends over exactly the cached rows. */
  lemma {:induction false} CallReadsCache(c: Cache, layer: int, q: View, k: View, v: View, out: View, o: Opts, pk: View, pv: View)
    requires c.Valid() && ShowsPast(c, layer, true, pk) && ShowsPast(c, layer, false, pv)
    requires CheckCall(q, k, v, out, o, SomeView(pk), SomeView(pv)).Success?
    ensures var call := CheckCall(q, k, v, out, o, SomeView(pk), SomeView(pv)).value;
      && call.Valid()
      && q.Covered() && k.Covered() && v.Covered()
      && ParseShape(q).Success? && ParseShape(k).Success? && ParseShape(v).Success? && ParseShape(q).value.Proper()
      && call.batch == |NewRows(q)| == |NewRows(k)| == |NewRows(v)| && call.qSeq == ParseShape(q).value.len
      && LayoutOf(o, q, k, v, call.hd) == call.hd
      && (forall b :: 0 <= b < call.batch ==> call.Queries(b) == NewRows(q)[b])
      && forall b :: 0 <= b < call.batch ==>
           && call.past == |PastRows(c, layer, true, b)|
           && call.Keys(b) == PastRows(c, layer, true, b) + NewRows(k)[b]
           && call.Vals(b) == PastRows(c, layer, false, b) + NewRows(v)[b]
  {
    CallOperands(q, k, v, out, o, pk, pv);
    hide CheckCall, PastRows, ShowsPast, LayoutOf, PastLanes;
    var call := CheckCall(q, k, v, out, o, SomeView(pk), SomeView(pv)).value;
    forall b: nat | b < call.batch
      ensures call.past == |PastRows(c, layer, true, b)|
      ensures call.Keys(b) == PastRows(c, layer, true, b) + NewRows(k)[b]
      ensures call.Vals(b) == PastRows(c, layer, false, b) + NewRows(v)[b]
    {
      LaneReads(c, layer, call, pk, k, true, b);
      LaneReads(c, layer, call, pv, v, false, b);
    }
  }

  /** The head layout that the operands' widths determine (for the output width that goes with it). */
  function LayoutOf(o: Opts, q: View, k: View, v: View, hd: Heads): Heads
    requires ParseShape(q).Success? && ParseShape(k).Success? && ParseShape(v).Success?
  {
    var r := HeadLayout(o, Pos(ParseShape(q).value.dim), Pos(ParseShape(k).value.dim), Pos(ParseShape(v).value.dim), Span(hd.heads, hd.vHeadDim));
    if r.Success? then r.value.1 else Heads(0, 0, 0, 0)
  }

  /** The output buffer holds the cached attention of every lane. */
  ghost predicate Served(f: Fns, o: Opts, hd: Heads, c: Cache, layer: int, q: View, k: View, v: View, out: seq<real>)
    requires c.Valid()
  {
    && q.Covered() && k.Covered() && v.Covered()
    && ParseShape(q).Success? && ParseShape(k).Success? && ParseShape(v).Success?
    && hd == LayoutOf(o, q, k, v, hd)
    && var s := ParseShape(q).value;
       && s.Proper() && s.batch == |NewRows(k)| == |NewRows(v)|
       && Span(Span(s.batch, s.len), Span(hd.heads, hd.vHeadDim)) <= |out|
       && forall b :: 0 <= b < s.batch ==> LaneServed(f, o, hd, c, layer, NewRows(q)[b], NewRows(k)[b], NewRows(v)[b], b,
            Lanes(out, s.batch, s.len, Span(hd.heads, hd.vHeadDim))[b])
  }

  ghost predicate LaneServed(f: Fns, o: Opts, hd: Heads, c: Cache, layer: int, qs: Lane, ks: Lane, vs: Lane, b: nat, outLane: Lane)
    requires c.Valid()
  {
    && RoomyLane(hd, qs, PastRows(c, layer, true, b) + ks, PastRows(c, layer, false, b) + vs)
    && outLane == CachedOut(f, o, hd, c, layer, qs, ks, vs, b)
  }

  lemma CallServes(f: Fns, o: Opts, c: Cache, layer: int, q: View, k: View, v: View, call: Call, out: seq<real>)
    requires c.Valid() && call.Valid()
    requires q.Covered() && k.Covered() && v.Covered()
    requires ParseShape(q).Success? && ParseShape(k).Success? && ParseShape(v).Success?
    requires ParseShape(q).value.Proper()
    requires call.batch == |NewRows(q)| == |NewRows(k)| == |NewRows(v)| && call.qSeq == ParseShape(q).value.len
    requires forall b :: 0 <= b < call.batch ==> call.Queries(b) == NewRows(q)[b]
    requires forall b :: 0 <= b < call.batch ==>
      && call.past == |PastRows(c, layer, true, b)|
      && call.Keys(b) == PastRows(c, layer, true, b) + NewRows(k)[b]
      && call.Vals(b) == PastRows(c, layer, false, b) + NewRows(v)[b]
    requires LayoutOf(o, q, k, v, call.hd) == call.hd
    requires Span(Span(call.batch, call.qSeq), call.outDim) <= |out|
    requires forall b :: 0 <= b < call.batch ==> Lanes(out, call.batch, call.qSeq, call.outDim)[b] == call.Expected(f, o, b)
    ensures Served(f, o, call.hd, c, layer, q, k, v, out)
  {
    forall b | 0 <= b < call.batch
      ensures LaneServed(f, o, call.hd, c, layer, NewRows(q)[b], NewRows(k)[b], NewRows(v)[b], b, Lanes(out, call.batch, call.qSeq, call.outDim)[b])
    {
      call.IsRoomy(b);
    }
  }

  /**
   The Attention branch of the dispatcher with the cache active: view, attend, append. A failed
   attention leaves the cache alone; a failed append comes after the output has been written.
   */
  method DispatchAttention(f: Fns, o: Opts, cache: C.KvCache, layer: nat, q: View, k: View, v: View, out: array<real>, outShape: seq<int>)
    returns (error: Option<DispatchError>, ghost hd: Heads)
    requires cache.Valid() && out !in cache.k && out !in cache.v
    modifies out, cache`past, cache`pending, cache.k, cache.v
    ensures cache.Valid()
    ensures error.Some? && error.value.InAttention? ==> cache.Model() == old(cache.Model()) && out[..] == old(out[..])
    ensures error.None? || error.value.InCache? ==>
      && k.Covered() && v.Covered()
      && Served(f, o, hd, old(cache.Model()), layer, q, k, v, out[..])
      && cache.Model() == Append(old(cache.Model()), layer, k, v).cache
      && (error.None? <==> Append(old(cache.Model()), layer, k, v).error.None?)
  {
    var failed;
    failed, hd := AttendCached(f, o, cache, layer, q, k, v, out, outShape);
    if failed.Some? { return Some(InAttention(failed.value)), hd; }
    var full := cache.AppendLayer(layer, k, v);
    if full.Some? { return Some(InCache(full.value)), hd; }
    return None, hd;
  }

  /** The reading half of the branch. */
  method AttendCached(f: Fns, o: Opts, cache: C.KvCache, layer: nat, q: View, k: View, v: View, out: array<real>, outShape: seq<int>)
    returns (failed: Option<AttnError>, ghost hd: Heads)
    requires cache.Valid() && out !in cache.k && out !in cache.v
    modifies out
    ensures cache.Valid() && cache.Model() == old(cache.Model())
    ensures failed.Some? ==> out[..] == old(out[..])
    ensures failed.None? ==> Served(f, o, hd, cache.Model(), layer, q, k, v, out[..])
  {
    ghost var c := cache.Model();
    assert c.Valid();
    hide Served, Lanes, ShowsPast, CheckCall, cache.Valid, cache.Model, cache.Buffers;
    var pk := cache.PastView(layer, true);
    var pv := cache.PastView(layer, false);
    ghost var outView := View(true, outShape, Some(out[..]));
    hd := Heads(0, 0, 0, 0);
    failed := AttentionKv(f, q, k, v, out, outShape, o, SomeView(pk), SomeView(pv));
    assert cache.Model() == c;
    if failed.None? {
      hd := CheckCall(q, k, v, outView, o, SomeView(pk), SomeView(pv)).value.hd;
      CheckedServes(f, o, c, layer, q, k, v, outView, pk, pv, out[..]);
    }
  }

  lemma CheckedServes(f: Fns, o: Opts, c: Cache, layer: int, q: View, k: View, v: View, outView: View, pk: View, pv: View, out: seq<real>)
    requires c.Valid() && ShowsPast(c, layer, true, pk) && ShowsPast(c, layer, false, pv)
    requires CheckCall(q, k, v, outView, o, SomeView(pk), SomeView(pv)).Success?
    requires var call := CheckCall(q, k, v, outView, o, SomeView(pk), SomeView(pv)).value;
      && call.Valid() && Span(Span(call.batch, call.qSeq), call.outDim) <= |out|
      && forall b :: 0 <= b < call.batch ==> Lanes(out, call.batch, call.qSeq, call.outDim)[b] == call.Expected(f, o, b)
    ensures Served(f, o, CheckCall(q, k, v, outView, o, SomeView(pk), SomeView(pv)).value.hd, c, layer, q, k, v, out)
  {
    CallReadsCache(c, layer, q, k, v, outView, o, pk, pv);
    CallServes(f, o, c, layer, q, k, v, CheckCall(q, k, v, outView, o, SomeView(pk), SomeView(pv)).value, out);
  }

  // ----- chunked attention is one-shot attention -----

  /** One layer's operands for one chunk of tokens. */
  datatype Input = Input(q: View, k: View, v: View)

  /** All layers' operands for one chunk. */
  type Chunk = seq<Input>

  ghost predicate InputFits(d: Dims, x: Input, n: nat) {
    && x.q.Covered() && x.k.Covered() && x.v.Covered()
    && ParseShape(x.q).Success? && ParseShape(x.q).value.batch == d.batch && ParseShape(x.q).value.len == n
    && ParseShape(x.k) == Success(KvShape(d.batch, n, d.kDim))
    && ParseShape(x.v) == Success(KvShape(d.batch, n, d.vDim))
  }

  ghost predicate ChunkFits(d: Dims, x: Chunk, n: nat) {
    |x| == d.layers && forall l :: 0 <= l < d.layers ==> InputFits(d, x[l], n)
  }

  /** A stream of chunks with their lengths. */
  ghost predicate StreamFits(d: Dims, xs: seq<Chunk>, ns: seq<nat>) {
    |xs| == |ns| && forall i :: 0 <= i < |xs| ==> ChunkFits(d, xs[i], ns[i])
  }

  /** Tokens in the first `i` chunks. */
  function Total(ns: seq<nat>, i: nat): nat
    requires i <= |ns|
  {
    if i == 0 then 0 else Total(ns, i - 1) + ns[i - 1]
  }

  datatype Side = Q | K | V

  function SideView(x: Input, s: Side): View {
    match s
    case Q => x.q
    case K => x.k
    case V => x.v
  }

  /** The rows one chunk brings to one lane. */
  ghost function Brings(d: Dims, x: Input, n: nat, b: nat, s: Side): (r: Lane)
    requires InputFits(d, x, n) && b < d.batch
    ensures |r| == n
  {
    NewRows(SideView(x, s))[b]
  }

  /** One side of one lane of one layer, over the first `i` chunks of the stream. */
  ghost function Whole(d: Dims, xs: seq<Chunk>, ns: seq<nat>, l: nat, b: nat, s: Side, i: nat): (r: Lane)
    requires StreamFits(d, xs, ns) && l < d.layers && b < d.batch && i <= |xs|
    ensures |r| == Total(ns, i)
  {
    if i == 0 then []
    else
      assert ChunkFits(d, xs[i - 1], ns[i - 1]);
      Whole(d, xs, ns, l, b, s, i - 1) + Brings(d, xs[i - 1][l], ns[i - 1], b, s)
  }

  /** The cache before layer `l` is dispatched, part-way through a step. */
  ghost function BeforeLayer(c: Cache, x: Chunk, n: nat, l: nat): (r: Cache)
    requires c.Valid() && ChunkFits(c.dims, x, n) && l <= c.dims.layers
    ensures r.Valid() && r.dims == c.dims && (c.pending >= 0 ==> r.pending >= 0)
  {
    if l == 0 then c
    else
      assert InputFits(c.dims, x[l - 1], n);
      Append(BeforeLayer(c, x, n, l - 1), l - 1, x[l - 1].k, x[l - 1].v).cache
  }

  /** The cache after the first `i` chunks of the stream have been processed and committed. */
  ghost function AfterChunks(d: Dims, xs: seq<Chunk>, ns: seq<nat>, i: nat): (r: Cache)
    requires d.SinkFits() && StreamFits(d, xs, ns) && i <= |xs|
    ensures r.Valid() && r.dims == d && r.pending >= 0
  {
    if i == 0 then Fresh(d)
    else Commit(BeforeLayer(AfterChunks(d, xs, ns, i - 1), xs[i - 1], ns[i - 1], d.layers))
  }

  /** The cache holds exactly the first `i` chunks. */
  ghost predicate Holds(d: Dims, c: Cache, xs: seq<Chunk>, ns: seq<nat>, i: nat)
    requires StreamFits(d, xs, ns) && i <= |xs|
  {
    && c.Valid() && c.pending >= 0 && c.dims == d && c.past == Total(ns, i)
    && forall l, b :: 0 <= l < d.layers && 0 <= b < d.batch ==> LaneIs(d, c, xs, ns, l, b, i)
  }

  ghost predicate LaneIs(d: Dims, c: Cache, xs: seq<Chunk>, ns: seq<nat>, l: nat, b: nat, i: nat)
    requires StreamFits(d, xs, ns) && i <= |xs| && c.Valid() && c.dims == d && l < d.layers && b < d.batch
  {
    && c.k[l][b][..c.past] == Whole(d, xs, ns, l, b, K, i)
    && c.v[l][b][..c.past] == Whole(d, xs, ns, l, b, V, i)
  }

  /** The committed rows of one lane are the same in two caches. */
  ghost predicate LaneKept(c: Cache, c': Cache, l: nat, b: nat)
    requires c.Valid() && c'.Valid() && c'.dims == c.dims && l < c.dims.layers && b < c.dims.batch
  {
    c'.k[l][b][..c.past] == c.k[l][b][..c.past] && c'.v[l][b][..c.past] == c.v[l][b][..c.past]
  }

  /** One lane holds a chunk's new rows behind the committed ones. */
  ghost predicate LaneStaged(c': Cache, x: Input, n: nat, p: nat, l: nat, b: nat)
    requires c'.Valid() && l < c'.dims.layers && b < c'.dims.batch
  {
    && p + n <= c'.dims.window && InputFits(c'.dims, x, n)
    && c'.k[l][b][p..p + n] == Brings(c'.dims, x, n, b, K) && c'.v[l][b][p..p + n] == Brings(c'.dims, x, n, b, V)
  }

  /** Part-way through a step nothing committed moves, and the layers already dispatched hold their new rows. */
  ghost predicate Staged(c: Cache, c': Cache, x: Chunk, n: nat, l: nat)
    requires c.Valid() && c'.Valid() && ChunkFits(c.dims, x, n) && l <= c.dims.layers
  {
    && c'.dims == c.dims && c'.past == c.past && (l > 0 ==> c'.pending == n)
    && (forall l', b :: 0 <= l' < c.dims.layers && 0 <= b < c.dims.batch ==> LaneKept(c, c', l', b))
    && (forall l', b :: 0 <= l' < l && 0 <= b < c.dims.batch ==> LaneStaged(c', x[l'], n, c.past, l', b))
  }

  lemma WriteShows(lane: Lane, at: nat, rows: Lane)
    requires at + |rows| <= |lane|
    ensures WriteLane(lane, at, rows)[..at] == lane[..at] && WriteLane(lane, at, rows)[at..at + |rows|] == rows
  {}

  /** What an append with room for its rows leaves. */
  ghost predicate WroteLayer(c': Cache, c2: Cache, x: Input, n: nat, l: nat)
    requires c'.Valid() && c2.Valid() && l < c'.dims.layers && InputFits(c'.dims, x, n)
  {
    && c2.dims == c'.dims && c2.past == c'.past && c2.pending == n
    && RowsFit(c'.k[l], c'.past, NewRows(x.k)) && RowsFit(c'.v[l], c'.past, NewRows(x.v))
    && c2.k == c'.k[l := WriteLanes(c'.k[l], c'.past, NewRows(x.k))] && c2.v == c'.v[l := WriteLanes(c'.v[l], c'.past, NewRows(x.v))]
  }

  lemma RoomyAppend(c': Cache, x: Input, n: nat, l: nat)
    requires c'.Valid() && l < c'.dims.layers && InputFits(c'.dims, x, n) && c'.past + n <= c'.dims.window
    ensures Append(c', l, x.k, x.v).error.None? && WroteLayer(c', Append(c', l, x.k, x.v).cache, x, n, l)
  {
    AppendIs(c', l, x.k, x.v, n);
  }

  lemma LaneWritten(c': Cache, c2: Cache, x: Input, n: nat, l: nat, b: nat)
    requires c'.Valid() && c2.Valid() && l < c'.dims.layers && InputFits(c'.dims, x, n) && b < c'.dims.batch
    requires c'.past + n <= c'.dims.window && WroteLayer(c', c2, x, n, l)
    ensures LaneKept(c', c2, l, b) && LaneStaged(c2, x, n, c'.past, l, b)
  {
    hide NewRows, WriteLane;
    WriteShows(c'.k[l][b], c'.past, NewRows(x.k)[b]);
    WriteShows(c'.v[l][b], c'.past, NewRows(x.v)[b]);
  }

  /** With room for the chunk, one more layer's append stages that layer and moves nothing. */
  lemma {:induction false} StageOne(c: Cache, c': Cache, x: Chunk, n: nat, l: nat)
    requires c.Valid() && c'.Valid() && ChunkFits(c.dims, x, n) && l < c.dims.layers
    requires c.past + n <= c.dims.window && Staged(c, c', x, n, l)
    ensures InputFits(c.dims, x[l], n) && Append(c', l, x[l].k, x[l].v).error.None?
    ensures Staged(c, Append(c', l, x[l].k, x[l].v).cache, x, n, l + 1)
  {
    assert InputFits(c.dims, x[l], n);
    var c2 := Append(c', l, x[l].k, x[l].v).cache;
    RoomyAppend(c', x[l], n, l);
    hide Append, WriteLanes, RowsFit, InputFits, NewRows;
    forall l', b | 0 <= l' < c.dims.layers && 0 <= b < c.dims.batch
      ensures LaneKept(c, c2, l', b) && (l' <= l ==> LaneStaged(c2, x[l'], n, c.past, l', b))
    {
      assert LaneKept(c, c', l', b);
      if l' == l {
        LaneWritten(c', c2, x[l], n, l, b);
      } else {
        assert c2.k[l'] == c'.k[l'] && c2.v[l'] == c'.v[l'];
        assert l' < l ==> LaneStaged(c', x[l'], n, c.past, l', b);
      }
    }
  }

  lemma {:induction false} StageAll(c: Cache, x: Chunk, n: nat, l: nat)
    requires c.Valid() && ChunkFits(c.dims, x, n) && l <= c.dims.layers
    requires c.past + n <= c.dims.window
    ensures Staged(c, BeforeLayer(c, x, n, l), x, n, l)
  {
    if l > 0 {
      StageAll(c, x, n, l - 1);
      StageOne(c, BeforeLayer(c, x, n, l - 1), x, n, l - 1);
    }
  }

  lemma {:induction false} TotalGrows(ns: seq<nat>, i: nat, j: nat)
    requires i <= j <= |ns|
    ensures Total(ns, i) <= Total(ns, j)
  {
    if i < j { TotalGrows(ns, i, j - 1); }
  }

  /** While the chunks so far fit the window, the cache holds exactly them. */
  lemma {:induction false} AfterChunksHolds(d: Dims, xs: seq<Chunk>, ns: seq<nat>, i: nat)
    requires d.SinkFits() && d.layers > 0 && StreamFits(d, xs, ns) && i <= |xs| && Total(ns, i) <= d.window
    ensures Holds(d, AfterChunks(d, xs, ns, i), xs, ns, i)
  {
    hide Holds, BeforeLayer, Commit, Fresh;
    if i == 0 {
      FreshHolds(d, xs, ns);
    } else {
      AfterChunksHolds(d, xs, ns, i - 1);
      NextChunkHolds(d, AfterChunks(d, xs, ns, i - 1), xs, ns, i - 1);
    }
  }

  lemma FreshHolds(d: Dims, xs: seq<Chunk>, ns: seq<nat>)
    requires d.SinkFits() && StreamFits(d, xs, ns)
    ensures Holds(d, Fresh(d), xs, ns, 0)
  {}

  lemma NextChunkHolds(d: Dims, c: Cache, xs: seq<Chunk>, ns: seq<nat>, i: nat)
    requires StreamFits(d, xs, ns) && i < |xs| && Holds(d, c, xs, ns, i) && d.layers > 0 && Total(ns, i + 1) <= d.window
    ensures ChunkFits(d, xs[i], ns[i]) && Holds(d, Commit(BeforeLayer(c, xs[i], ns[i], d.layers)), xs, ns, i + 1)
  {
    hide Staged, BeforeLayer, Commit, LaneIs;
    StageAll(c, xs[i], ns[i], d.layers);
    CommitHolds(d, c, xs, ns, i, BeforeLayer(c, xs[i], ns[i], d.layers));
  }

  lemma CommitHolds(d: Dims, c: Cache, xs: seq<Chunk>, ns: seq<nat>, i: nat, c': Cache)
    requires StreamFits(d, xs, ns) && i < |xs| && Holds(d, c, xs, ns, i) && d.layers > 0
    requires c'.Valid() && c'.Committable() && Staged(c, c', xs[i], ns[i], d.layers)
    ensures Holds(d, Commit(c'), xs, ns, i + 1)
  {
    hide Brings, Whole, LaneIs;
    var next := i + 1;
    forall l, b | 0 <= l < d.layers && 0 <= b < d.batch ensures LaneIs(d, Commit(c'), xs, ns, l, b, next) {
      CommitLane(d, c, xs, ns, i, c', l, b);
    }
  }

  lemma CommitLane(d: Dims, c: Cache, xs: seq<Chunk>, ns: seq<nat>, i: nat, c': Cache, l: nat, b: nat)
    requires StreamFits(d, xs, ns) && i < |xs| && Holds(d, c, xs, ns, i) && l < d.layers && b < d.batch
    requires c'.Valid() && c'.Committable() && Staged(c, c', xs[i], ns[i], d.layers)
    ensures LaneIs(d, Commit(c'), xs, ns, l, b, i + 1)
  {
    hide Brings;
    assert LaneIs(d, c, xs, ns, l, b, i);
    var p, n := c.past, ns[i];
    assert LaneKept(c, c', l, b) && LaneStaged(c', xs[i][l], n, p, l, b);
    assert c'.k[l][b][..p + n] == c'.k[l][b][..p] + c'.k[l][b][p..p + n];
    assert c'.v[l][b][..p + n] == c'.v[l][b][..p] + c'.v[l][b][p..p + n];
  }

  lemma {:induction false} WholePrefix(d: Dims, xs: seq<Chunk>, ns: seq<nat>, l: nat, b: nat, s: Side, i: nat, j: nat)
    requires StreamFits(d, xs, ns) && l < d.layers && b < d.batch && i <= j <= |xs|
    ensures Total(ns, i) <= Total(ns, j)
    ensures Whole(d, xs, ns, l, b, s, j)[..Total(ns, i)] == Whole(d, xs, ns, l, b, s, i)
  {
    hide Brings;
    if i < j {
      WholePrefix(d, xs, ns, l, b, s, i, j - 1);
      TotalGrows(ns, i, j - 1);
      SliceOfJoin(Whole(d, xs, ns, l, b, s, j - 1), Brings(d, xs[j - 1][l], ns[j - 1], b, s), Total(ns, i));
    }
  }

  lemma SliceOfJoin(a: Lane, b: Lane, n: nat)
    requires n <= |a|
    ensures (a + b)[..n] == a[..n]
  {}

  /** The cached rows with the new rows are the sequences up to position p + n, and the queries are rows [p, p + n). */
  ghost predicate Continues(c: Cache, l: nat, b: nat, x: Input, fq: Lane, fk: Lane, fv: Lane, p: nat, n: nat)
    requires c.Valid() && b < c.dims.batch && InputFits(c.dims, x, n)
  {
    && |fq| == |fk| == |fv| && p + n <= |fk|
    && fq[..p] + Brings(c.dims, x, n, b, Q) == fq[..p + n]
    && |PastRows(c, l, true, b)| == p && PastRows(c, l, true, b) + Brings(c.dims, x, n, b, K) == fk[..p + n]
    && PastRows(c, l, false, b) + Brings(c.dims, x, n, b, V) == fv[..p + n]
  }

  lemma PastRowsAre(c0: Cache, c: Cache, x: Chunk, n: nat, l: nat, b: nat)
    requires c0.Valid() && c.Valid() && ChunkFits(c0.dims, x, n) && l < c0.dims.layers && b < c0.dims.batch && Staged(c0, c, x, n, l)
    ensures PastRows(c, l, true, b) == c0.k[l][b][..c0.past] && PastRows(c, l, false, b) == c0.v[l][b][..c0.past]
  {
    assert LaneKept(c0, c, l, b);
  }

  /** Before layer `l` of chunk `i` the cache returns, for that layer, exactly the chunks before `i`. */
  lemma ReadsPrefix(d: Dims, xs: seq<Chunk>, ns: seq<nat>, i: nat, l: nat, b: nat, c: Cache)
    requires d.SinkFits() && StreamFits(d, xs, ns) && Total(ns, |ns|) <= d.window
    requires i < |xs| && l < d.layers && b < d.batch
    requires c == BeforeLayer(AfterChunks(d, xs, ns, i), xs[i], ns[i], l)
    ensures InputFits(d, xs[i][l], ns[i]) && Append(c, l, xs[i][l].k, xs[i][l].v).error.None?
    ensures PastRows(c, l, true, b) == Whole(d, xs, ns, l, b, K, i)
    ensures PastRows(c, l, false, b) == Whole(d, xs, ns, l, b, V, i)
  {
    hide Brings, Append;
    TotalGrows(ns, i + 1, |ns|);
    AfterChunksHolds(d, xs, ns, i);
    var c0 := AfterChunks(d, xs, ns, i);
    StageAll(c0, xs[i], ns[i], l);
    StageOne(c0, c, xs[i], ns[i], l);
    assert LaneIs(d, c0, xs, ns, l, b, i);
    PastRowsAre(c0, c, xs[i], ns[i], l, b);
  }

  /** The whole sequence up to the end of chunk `i`. */
  lemma WholeThrough(d: Dims, xs: seq<Chunk>, ns: seq<nat>, l: nat, b: nat, s: Side, i: nat)
    requires StreamFits(d, xs, ns) && l < d.layers && b < d.batch && i < |xs|
    requires InputFits(d, xs[i][l], ns[i])
    ensures Total(ns, i) <= Total(ns, i) + ns[i] == Total(ns, i + 1) <= Total(ns, |ns|)
    ensures Whole(d, xs, ns, l, b, s, |xs|)[..Total(ns, i)] == Whole(d, xs, ns, l, b, s, i)
    ensures Whole(d, xs, ns, l, b, s, |xs|)[..Total(ns, i + 1)] == Whole(d, xs, ns, l, b, s, i) + Brings(d, xs[i][l], ns[i], b, s)
  {
    hide Whole, Brings, InputFits;
    WholeStep(d, xs, ns, l, b, s, i);
    WholePrefix(d, xs, ns, l, b, s, i, |xs|);
    WholePrefix(d, xs, ns, l, b, s, i + 1, |xs|);
  }

  lemma WholeStep(d: Dims, xs: seq<Chunk>, ns: seq<nat>, l: nat, b: nat, s: Side, i: nat)
    requires StreamFits(d, xs, ns) && l < d.layers && b < d.batch && i < |xs|
    requires InputFits(d, xs[i][l], ns[i])
    ensures Whole(d, xs, ns, l, b, s, i + 1) == Whole(d, xs, ns, l, b, s, i) + Brings(d, xs[i][l], ns[i], b, s)
  {}

  lemma ChunkContinues(d: Dims, xs: seq<Chunk>, ns: seq<nat>, i: nat, l: nat, b: nat, c: Cache)
    requires d.SinkFits() && StreamFits(d, xs, ns) && Total(ns, |ns|) <= d.window
    requires i < |xs| && l < d.layers && b < d.batch
    requires c == BeforeLayer(AfterChunks(d, xs, ns, i), xs[i], ns[i], l)
    ensures InputFits(d, xs[i][l], ns[i])
    ensures Continues(c, l, b, xs[i][l], Whole(d, xs, ns, l, b, Q, |xs|), Whole(d, xs, ns, l, b, K, |xs|), Whole(d, xs, ns, l, b, V, |xs|),
                      Total(ns, i), ns[i])
  {
    hide Brings, PastRows, BeforeLayer, Append;
    ReadsPrefix(d, xs, ns, i, l, b, c);
    WholeThrough(d, xs, ns, l, b, Q, i);
    WholeThrough(d, xs, ns, l, b, K, i);
    WholeThrough(d, xs, ns, l, b, V, i);
  }

  /** The rows a cached call writes for lane `b` are rows [p, p + n) of an uncached call over the given sequences. */
  ghost predicate Agrees(f: Fns, o: Opts, hd: Heads, c: Cache, l: nat, b: nat, x: Input, fq: Lane, fk: Lane, fv: Lane, p: nat, n: nat)
    requires c.Valid() && b < c.dims.batch && InputFits(c.dims, x, n)
    requires RoomyLane(hd, fq, fk, fv) && p + n <= |fq|
  {
    var qs, ks, vs := Brings(c.dims, x, n, b, Q), Brings(c.dims, x, n, b, K), Brings(c.dims, x, n, b, V);
    && RoomyLane(hd, qs, PastRows(c, l, true, b) + ks, PastRows(c, l, false, b) + vs)
    && CachedOut(f, o, hd, c, l, qs, ks, vs, b) == LaneOut(f, o, hd, fq, fk, fv, 0)[p..p + n]
  }

  /**
   Chunked cached attention is one-shot attention: for every split of the tokens into chunks that
   fits the window, the rows written for chunk `i`, layer `l`, lane `b` are those rows of a single
   uncached causal call over the whole sequence.
   */
  lemma ChunkedIsOneShot(f: Fns, o: Opts, hd: Heads, d: Dims, xs: seq<Chunk>, ns: seq<nat>, i: nat, l: nat, b: nat)
    requires d.SinkFits() && StreamFits(d, xs, ns) && Total(ns, |ns|) <= d.window
    requires i < |xs| && l < d.layers && b < d.batch && o.causal
    requires RoomyLane(hd, Whole(d, xs, ns, l, b, Q, |xs|), Whole(d, xs, ns, l, b, K, |xs|), Whole(d, xs, ns, l, b, V, |xs|))
    ensures InputFits(d, xs[i][l], ns[i]) && Total(ns, i) + ns[i] <= Total(ns, |ns|)
    ensures Agrees(f, o, hd, BeforeLayer(AfterChunks(d, xs, ns, i), xs[i], ns[i], l), l, b, xs[i][l],
                   Whole(d, xs, ns, l, b, Q, |xs|), Whole(d, xs, ns, l, b, K, |xs|), Whole(d, xs, ns, l, b, V, |xs|), Total(ns, i), ns[i])
  {
    hide Agrees;
    var c := BeforeLayer(AfterChunks(d, xs, ns, i), xs[i], ns[i], l);
    ChunkContinues(d, xs, ns, i, l, b, c);
    ChunkRows(f, o, hd, c, l, b, xs[i][l], Whole(d, xs, ns, l, b, Q, |xs|), Whole(d, xs, ns, l, b, K, |xs|), Whole(d, xs, ns, l, b, V, |xs|),
              Total(ns, i), ns[i]);
  }

  lemma ChunkRows(f: Fns, o: Opts, hd: Heads, c: Cache, l: nat, b: nat, x: Input, fq: Lane, fk: Lane, fv: Lane, p: nat, n: nat)
    requires c.Valid() && b < c.dims.batch && InputFits(c.dims, x, n) && o.causal
    requires RoomyLane(hd, fq, fk, fv) && Continues(c, l, b, x, fq, fk, fv, p, n)
    ensures Agrees(f, o, hd, c, l, b, x, fq, fk, fv, p, n)
  {
    hide Brings;
    PrefixOfOneShot(f, o, hd, fq, fk, fv, p, n, Brings(c.dims, x, n, b, Q));
  }

  /** Queries [p, p + n) attending over keys [0, p + n) give rows [p, p + n) of causal attention over all keys. */
  lemma PrefixOfOneShot(f: Fns, o: Opts, hd: Heads, fq: Lane, fk: Lane, fv: Lane, p: nat, n: nat, qs: Lane)
    requires o.causal && |fq| == |fk| == |fv| && p + n <= |fk|
    requires RoomyLane(hd, fq, fk, fv) && |qs| == n && fq[..p] + qs == fq[..p + n]
    ensures RoomyLane(hd, qs, fk[..p + n], fv[..p + n])
    ensures LaneOut(f, o, hd, qs, fk[..p + n], fv[..p + n], p) == LaneOut(f, o, hd, fq, fk, fv, 0)[p..p + n]
  {
    forall r | 0 <= r < n
      ensures Roomy(hd, qs[r], fk[..p + n], fv[..p + n])
      ensures OutRow(f, o, hd, qs[r], fk[..p + n], fv[..p + n], p + r) == OutRow(f, o, hd, fq[p + r], fk, fv, p + r)
    {
      assert (fq[..p] + qs)[p + r] == qs[r];
      assert fq[p + r] == qs[r];
      CausalRow(f, o, hd, fq[p + r], fk, fv, p + r, p + n);
    }
  }

  // ----- once the window has slid -----

  /** History index of the oldest surviving row after the sinks. */
  function OldestKept(c: Cache): int { c.absPos - (c.past - KeepSink(c)) }

  /** What a read returns, followed by new rows, is the history followed by them with the evicted span cut out. */
  lemma ResidentRows(c: Cache, g: H.History, layer: nat, b: nat, ks: Lane, vs: Lane)
    requires H.Inv(c, g) && layer < c.dims.layers && b < c.dims.batch
    ensures 0 <= KeepSink(c) <= OldestKept(c) <= c.absPos == |g.k[layer][b]| == |g.v[layer][b]|
    ensures PastRows(c, layer, true, b) + ks
         == (g.k[layer][b] + ks)[..KeepSink(c)] + (g.k[layer][b] + ks)[OldestKept(c)..]
    ensures PastRows(c, layer, false, b) + vs
         == (g.v[layer][b] + vs)[..KeepSink(c)] + (g.v[layer][b] + vs)[OldestKept(c)..]
    ensures |PastRows(c, layer, true, b)| == |PastRows(c, layer, false, b)| == c.absPos - (OldestKept(c) - KeepSink(c))
  {
    PastIsWindow(c, g, layer, b);
    WindowThen(g.k[layer][b], c.dims.sink, c.past, ks);
    WindowThen(g.v[layer][b], c.dims.sink, c.past, vs);
  }

  lemma PastIsWindow(c: Cache, g: H.History, layer: nat, b: nat)
    requires H.Inv(c, g) && layer < c.dims.layers && b < c.dims.batch
    ensures |g.k| == |g.v| == c.dims.layers && |g.k[layer]| == |g.v[layer]| == c.dims.batch
    ensures |g.k[layer][b]| == |g.v[layer][b]| == c.absPos && c.past <= c.absPos && (c.past < c.dims.sink ==> c.past == c.absPos)
    ensures PastRows(c, layer, true, b) == H.Window(g.k[layer][b], c.dims.sink, c.past)
    ensures PastRows(c, layer, false, b) == H.Window(g.v[layer][b], c.dims.sink, c.past)
  {
    hide H.Window, H.LanesStage;
    assert H.LanesHold(c, c.k[layer], g.k[layer]) && H.LanesHold(c, c.v[layer], g.v[layer]);
    assert H.LaneHolds(c, c.k[layer][b], g.k[layer][b]) && H.LaneHolds(c, c.v[layer][b], g.v[layer][b]);
    if c.past == 0 { assert PastRows(c, layer, true, b) == [] == PastRows(c, layer, false, b); }
  }

  /** A window of a history, followed by new rows: the history followed by them, with a span cut out. */
  lemma WindowThen(h: Lane, sink: nat, p: nat, rows: Lane)
    requires p <= |h|
    ensures var keep := Min(sink, p);
      H.Window(h, sink, p) + rows == (h + rows)[..keep] + (h + rows)[|h| - (p - keep)..]
  {
    var keep := Min(sink, p);
    var from := |h| - (p - keep);
    assert (h + rows)[..keep] == h[..keep];
    assert (h + rows)[from..] == h[from..] + rows;
  }

  /**
   A cached call against any reachable cache is full causal attention over the whole history and
   the new rows, restricted to the sinks, the newest resident rows and the new rows.
   */
  lemma CachedIsRestricted(f: Fns, o: Opts, hd: Heads, c: Cache, g: H.History, layer: nat, b: nat, qs: Lane, ks: Lane, vs: Lane, r: nat)
    requires H.Inv(c, g) && layer < c.dims.layers && b < c.dims.batch
    requires o.window <= 0 && |qs| == |ks| == |vs| && r < |qs|
    requires RoomyLane(hd, qs, g.k[layer][b] + ks, g.v[layer][b] + vs)
    ensures RoomyLane(hd, qs, PastRows(c, layer, true, b) + ks, PastRows(c, layer, false, b) + vs)
    ensures 0 <= KeepSink(c) <= OldestKept(c) <= c.absPos
    ensures CachedOut(f, o, hd, c, layer, qs, ks, vs, b)[r]
         == AllowedRow(f, o, hd, qs[r], g.k[layer][b] + ks, g.v[layer][b] + vs, c.absPos + r, Survivors(KeepSink(c), OldestKept(c)))
  {
    hide OutRow, AllowedRow, Roomy, PastRows;
    ResidentRows(c, g, layer, b, ks, vs);
    var fk, fv := g.k[layer][b] + ks, g.v[layer][b] + vs;
    forall i | 0 <= i < |qs| ensures Roomy(hd, qs[i], PastRows(c, layer, true, b) + ks, PastRows(c, layer, false, b) + vs) {
      EvictedRow(f, o, hd, qs[i], fk, fv, c.absPos + i, KeepSink(c), OldestKept(c));
    }
    EvictedRow(f, o, hd, qs[r], fk, fv, c.absPos + r, KeepSink(c), OldestKept(c));
  }

  /** A one-token cached call is full attention over the history and the new row, restricted to the survivors. */
  ghost predicate Decodes(f: Fns, o: Opts, hd: Heads, c: Cache, g: H.History, layer: nat, b: nat, q: Row, key: Row, val: Row, keep: nat, from: nat)
    requires H.Inv(c, g) && layer < c.dims.layers && b < c.dims.batch
    requires Roomy(hd, q, g.k[layer][b] + [key], g.v[layer][b] + [val])
  {
    && RoomyLane(hd, [q], PastRows(c, layer, true, b) + [key], PastRows(c, layer, false, b) + [val])
    && CachedOut(f, o, hd, c, layer, [q], [key], [val], b)[0]
       == AllowedRow(f, o, hd, q, g.k[layer][b] + [key], g.v[layer][b] + [val], c.absPos, Survivors(keep, from))
  }

  lemma DecodeIsRestricted(f: Fns, o: Opts, hd: Heads, c: Cache, g: H.History, layer: nat, b: nat, q: Row, key: Row, val: Row, keep: nat, from: nat)
    requires keep == KeepSink(c) && from == OldestKept(c)
    requires H.Inv(c, g) && layer < c.dims.layers && b < c.dims.batch && o.window <= 0
    requires Roomy(hd, q, g.k[layer][b] + [key], g.v[layer][b] + [val])
    ensures Decodes(f, o, hd, c, g, layer, b, q, key, val, keep, from)
  {
    CachedIsRestricted(f, o, hd, c, g, layer, b, [q], [key], [val], 0);
  }

  /** Every number of an output row is the average over all of these key and value rows. */
  ghost predicate AveragesAll(f: Fns, o: Opts, hd: Heads, q: Row, keys: Lane, vals: Lane, out: Row)
    requires hd.headsPerKv > 0
  {
    forall h: nat, d: nat :: h < hd.heads && d < hd.vHeadDim ==> AveragesAt(f, o, hd, q, keys, vals, out, h, d)
  }

  ghost predicate AveragesAt(f: Fns, o: Opts, hd: Heads, q: Row, keys: Lane, vals: Lane, out: Row, h: nat, d: nat)
    requires hd.headsPerKv > 0
  {
    Span(h, hd.vHeadDim) + d < |out|
    && IsAverage(f.exp, RowScore(f, o, hd, q, keys, h), RowValue(hd, vals, h, d), 0, |keys|, out[Span(h, hd.vHeadDim) + d])
  }

  /** Each number that a cached call writes is the average over the resident and new rows that its query may read. */
  lemma CachedNumber(f: Fns, o: Opts, hd: Heads, c: Cache, layer: int, qs: Lane, ks: Lane, vs: Lane, b: nat, i: nat, h: nat, d: nat)
    requires c.Valid() && Exponential(f.exp) && |qs| == |ks| && i < |qs| && h < hd.heads && d < hd.vHeadDim
    requires RoomyLane(hd, qs, PastRows(c, layer, true, b) + ks, PastRows(c, layer, false, b) + vs)
    ensures var keys, vals, p := PastRows(c, layer, true, b) + ks, PastRows(c, layer, false, b) + vs, |PastRows(c, layer, true, b)|;
      && hd.headsPerKv > 0 && |CachedOut(f, o, hd, c, layer, qs, ks, vs, b)[i]| > Span(h, hd.vHeadDim) + d
      && IsAverage(f.exp, RowScore(f, o, hd, qs[i], keys, h), RowValue(hd, vals, h, d), From(o, p + i), Upto(o, p + i, p + |ks|),
                   CachedOut(f, o, hd, c, layer, qs, ks, vs, b)[i][Span(h, hd.vHeadDim) + d])
  {
    hide IsAverage, RowScore, RowValue, OutRow, Exponential, PastRows, From, Upto;
    var keys, vals, p := PastRows(c, layer, true, b) + ks, PastRows(c, layer, false, b) + vs, |PastRows(c, layer, true, b)|;
    assert Roomy(hd, qs[i], keys, vals);
    RowAverages(f, o, hd, qs[i], keys, vals, p + i, h, d);
  }

  /** Decoding one token reads every resident row: the sinks, the newest rows, and the token's own. */
  lemma DecodeNumbers(f: Fns, o: Opts, hd: Heads, c: Cache, g: H.History, layer: nat, b: nat, q: Row, key: Row, val: Row)
    requires H.Inv(c, g) && layer < c.dims.layers && b < c.dims.batch && o.window <= 0 && Exponential(f.exp)
    requires Roomy(hd, q, g.k[layer][b] + [key], g.v[layer][b] + [val])
    ensures RoomyLane(hd, [q], PastRows(c, layer, true, b) + [key], PastRows(c, layer, false, b) + [val])
    ensures 0 <= KeepSink(c) <= OldestKept(c) <= c.absPos == |g.k[layer][b]| == |g.v[layer][b]| && hd.headsPerKv > 0
    ensures AveragesAll(f, o, hd, q, g.k[layer][b][..KeepSink(c)] + g.k[layer][b][OldestKept(c)..] + [key],
                        g.v[layer][b][..KeepSink(c)] + g.v[layer][b][OldestKept(c)..] + [val], CachedOut(f, o, hd, c, layer, [q], [key], [val], b)[0])
  {
    hide IsAverage, RowScore, RowValue, Exponential, PastRows, CachedOut, AllowedRow, H.Inv, Roomy;
    H.LaneLengths(c, g, layer, b);
    ResidentRows(c, g, layer, b, [key], [val]);
    assert RoomyLane(hd, [q], g.k[layer][b] + [key], g.v[layer][b] + [val]);
    CachedIsRestricted(f, o, hd, c, g, layer, b, [q], [key], [val], 0);
    KeptThen(g.k[layer][b], KeepSink(c), OldestKept(c), key);
    KeptThen(g.v[layer][b], KeepSink(c), OldestKept(c), val);
    assert [q][0] == q;
    HasGroups(hd, q, g.k[layer][b] + [key], g.v[layer][b] + [val]);
    assert PastRows(c, layer, true, b) + [key] == g.k[layer][b][..KeepSink(c)] + g.k[layer][b][OldestKept(c)..] + [key];
    assert PastRows(c, layer, false, b) + [val] == g.v[layer][b][..KeepSink(c)] + g.v[layer][b][OldestKept(c)..] + [val];
    hide AveragesAll;
    CachedAverages(f, o, hd, c, layer, b, q, key, val);
  }

  /** A token decoded without a sliding window reads every resident row and its own. */
  lemma CachedAverages(f: Fns, o: Opts, hd: Heads, c: Cache, layer: nat, b: nat, q: Row, key: Row, val: Row)
    requires c.Valid() && o.window <= 0 && Exponential(f.exp) && hd.headsPerKv > 0
    requires RoomyLane(hd, [q], PastRows(c, layer, true, b) + [key], PastRows(c, layer, false, b) + [val])
    ensures AveragesAll(f, o, hd, q, PastRows(c, layer, true, b) + [key], PastRows(c, layer, false, b) + [val],
                        CachedOut(f, o, hd, c, layer, [q], [key], [val], b)[0])
  {
    hide IsAverage, RowScore, RowValue, Exponential, PastRows, CachedOut, RoomyLane;
    forall h: nat, d: nat | h < hd.heads && d < hd.vHeadDim
      ensures AveragesAt(f, o, hd, q, PastRows(c, layer, true, b) + [key], PastRows(c, layer, false, b) + [val],
                         CachedOut(f, o, hd, c, layer, [q], [key], [val], b)[0], h, d)
    {
      CachedNumber(f, o, hd, c, layer, [q], [key], [val], b, 0, h, d);
    }
  }

  lemma HasGroups(hd: Heads, q: Row, keys: Lane, vals: Lane)
    requires Roomy(hd, q, keys, vals)
    ensures hd.headsPerKv > 0
  {}

  lemma KeptThen(h: Lane, keep: nat, from: nat, row: Row)
    requires keep <= from <= |h|
    ensures (h + [row])[..keep] + (h + [row])[from..] == h[..keep] + h[from..] + [row]
  {
    assert (h + [row])[..keep] == h[..keep] && (h + [row])[from..] == h[from..] + [row];
  }

  /** The first append of a step on a full window evicts one row from every layer and changes no history. */
  lemma FirstAppendEvicts(c: Cache, g: H.History, first: nat, k0: View, v0: View)
    requires H.Inv(c, g) && g.staged == map[] && c.past == c.dims.window && c.Configured()
    requires k0.Covered() && v0.Covered() && AppendChecks(c, first, k0, v0) == Success(1)
    ensures var c1 := Append(c, first, k0, v0).cache;
      var g1 := H.StepHistory(c, g, H.Append(first, k0, v0));
      && H.Inv(c1, g1) && g1.k == g.k && g1.v == g.v
      && c1.dims == c.dims && c1.absPos == c.absPos && c1.past == c.dims.window - 1
      && KeepSink(c) == KeepSink(c1) == c.dims.sink < c.dims.window <= c.absPos
  {
    SingleTokenFits(c, first, k0, v0);
    H.AppendInv(c, g, first, k0, v0);
  }

  /**
   Decoding one token when the window is full. The first layer dispatched reads all W resident
   rows and the new one; its append evicts a row from every layer, so each later layer reads the
   sinks, the newest W - 1 - sink rows and the new one.
   */
  lemma FullWindowDecode(f: Fns, o: Opts, hd: Heads, c: Cache, g: H.History, first: nat, k0: View, v0: View, later: nat, b: nat,
                         q: Row, key: Row, val: Row)
    requires H.Inv(c, g) && c.Configured() && g.staged == map[] && c.past == c.dims.window
    requires first < c.dims.layers && later < c.dims.layers && b < c.dims.batch && o.window <= 0
    requires k0.Covered() && v0.Covered() && AppendChecks(c, first, k0, v0) == Success(1)
    requires Roomy(hd, q, g.k[first][b] + [key], g.v[first][b] + [val])
    requires Roomy(hd, q, g.k[later][b] + [key], g.v[later][b] + [val])
    ensures var c1 := Append(c, first, k0, v0).cache;
      var g1 := H.StepHistory(c, g, H.Append(first, k0, v0));
      var n, w, s := c.absPos, c.dims.window, c.dims.sink;
      && s < w <= n && H.Inv(c1, g1) && g1.k == g.k && g1.v == g.v && c1.dims == c.dims && c1.absPos == n
      && Decodes(f, o, hd, c, g, first, b, q, key, val, s, n - (w - s))
      && Decodes(f, o, hd, c1, g1, later, b, q, key, val, s, n - (w - 1 - s))
    ensures Exponential(f.exp) ==>
      var c1, n, w, s := Append(c, first, k0, v0).cache, c.absPos, c.dims.window, c.dims.sink;
      var kf, vf, kl, vl := g.k[first][b], g.v[first][b], g.k[later][b], g.v[later][b];
      && |kf| == |vf| == |kl| == |vl| == n && hd.headsPerKv > 0
      && RoomyLane(hd, [q], PastRows(c, first, true, b) + [key], PastRows(c, first, false, b) + [val])
      && RoomyLane(hd, [q], PastRows(c1, later, true, b) + [key], PastRows(c1, later, false, b) + [val])
      && AveragesAll(f, o, hd, q, kf[..s] + kf[n - (w - s)..] + [key], vf[..s] + vf[n - (w - s)..] + [val],
                     CachedOut(f, o, hd, c, first, [q], [key], [val], b)[0])
      && AveragesAll(f, o, hd, q, kl[..s] + kl[n - (w - 1 - s)..] + [key], vl[..s] + vl[n - (w - 1 - s)..] + [val],
                     CachedOut(f, o, hd, c1, later, [q], [key], [val], b)[0])
  {
    hide Decodes, Append, H.StepHistory, Roomy, AveragesAll, Exponential, CachedOut, PastRows, RoomyLane;
    var n, w, s := c.absPos, c.dims.window, c.dims.sink;
    FirstAppendEvicts(c, g, first, k0, v0);
    DecodeIsRestricted(f, o, hd, c, g, first, b, q, key, val, s, n - (w - s));
    var c1, g1 := Append(c, first, k0, v0).cache, H.StepHistory(c, g, H.Append(first, k0, v0));
    DecodeIsRestricted(f, o, hd, c1, g1, later, b, q, key, val, s, n - (w - 1 - s));
    if Exponential(f.exp) {
      DecodeNumbers(f, o, hd, c, g, first, b, q, key, val);
      DecodeNumbers(f, o, hd, c1, g1, later, b, q, key, val);
    }
  }
}
