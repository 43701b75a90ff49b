/**
 Runs of the cache object itself: replaying any legal run on its buffers and reading a view gives
 the stated slice of everything ever committed, straight from the flat arrays.
 */
module KvRuns {
  import opened Layout
  import opened KvModel
  import opened KvHistory
  import C = KvCache

  /** One event on the object; giving a step up does nothing to the cache. */
  method Play(cache: C.KvCache, e: Event)
    requires cache.Valid() && (e.Append? ==> e.kView.Covered() && e.vView.Covered()) && (e.Commit? ==> cache.Model().Committable())
    modifies cache, cache.k, cache.v
    ensures cache.Valid() && cache.Model() == StepCache(old(cache.Model()), e)
    ensures cache.k == old(cache.k) && cache.v == old(cache.v)
  {
    match e
    case Append(l, k, v) => var _ := cache.AppendLayer(l, k, v);
    case Commit => cache.CommitStep();
    case Abandon =>
    case Clear => cache.Reset();
  }

  lemma RunStep(c: Cache, g: History, run: seq<Event>, i: nat)
    requires c.Valid() && i < |run| && LegalRun(c, g, run[i..])
    ensures Legal(c, g, run[i])
    ensures LegalRun(StepCache(c, run[i]), StepHistory(c, g, run[i]), run[i + 1..])
    ensures After(c, g, run[i..]) == After(StepCache(c, run[i]), StepHistory(c, g, run[i]), run[i + 1..])
  {
    assert run[i..][0] == run[i] && run[i..][1..] == run[i + 1..];
  }

  method Replay(cache: C.KvCache, run: seq<Event>, ghost g: History)
    requires cache.Valid() && LegalRun(cache.Model(), g, run)
    modifies cache, cache.k, cache.v
    ensures cache.Valid() && cache.Model() == After(old(cache.Model()), g, run).0
  {
    ghost var now := g;
    assert run[0..] == run;
    for i := 0 to |run|
      invariant cache.Valid() && cache.k == old(cache.k) && cache.v == old(cache.v)
      invariant LegalRun(cache.Model(), now, run[i..])
      invariant After(cache.Model(), now, run[i..]) == After(old(cache.Model()), g, run)
    {
      ghost var c := cache.Model();
      RunStep(c, now, run, i);
      Play(cache, run[i]);
      now := StepHistory(c, now, run[i]);
    }
  }

  /** The run of a freshly configured cache: its record of everything committed. */
  ghost function Recorded(layers: int, batch: int, window: int, kDim: int, vDim: int, heads: int, sink: int, run: seq<Event>): (r: (Cache, History))
    requires Configure(layers, batch, window, kDim, vDim, heads, sink).Success?
    requires var c0 := Configure(layers, batch, window, kDim, vDim, heads, sink).value; LegalRun(c0, NoHistory(c0.dims), run)
    ensures r.0.Valid()
  {
    var c0 := Configure(layers, batch, window, kDim, vDim, heads, sink).value;
    After(c0, NoHistory(c0.dims), run)
  }

  /**
   The rows a view holds for each lane are the first sinks and the newest rows of that lane's
   history; there is a view exactly when anything committed is resident. There are `sink` sinks if
   that leaves room in the window, and none otherwise.
   */
  ghost predicate ShowsHistory(c: Cache, g: History, window: int, sink: int, layer: nat, isK: bool, view: View)
    requires c.Valid()
  {
    var h := if isK then g.k else g.v;
    var keep := if 0 <= sink < window then Min(sink, c.past) else 0;
    && view.Covered() && (view.data.Some? <==> c.past > 0)
    && (view.data.Some? ==>
          && ParseShape(view) == Success(KvShape(c.dims.batch, c.past, if isK then c.dims.kDim else c.dims.vDim))
          && layer < |h| && |h[layer]| == c.dims.batch
          && forall b: nat :: b < c.dims.batch ==> |h[layer][b]| == c.absPos >= c.past && IsSlice(NewRows(view)[b], h[layer][b], keep, c.past))
  }

  lemma ShownIsHistory(c: Cache, g: History, window: int, sink: int, layer: nat, isK: bool, view: View)
    requires Inv(c, g) && c.Configured() && layer < c.dims.layers && ShowsPast(c, layer, isK, view)
    requires c.dims.sink == if 0 <= sink < window then sink else 0
    ensures ShowsHistory(c, g, window, sink, layer, isK, view)
  {
    hide Window, IsSlice;
    assert c.Valid() && |g.k| == |g.v| == c.dims.layers && |g.k[layer]| == |g.v[layer]| == c.dims.batch by { Shapes(c, g, layer); }
    var h := if isK then g.k else g.v;
    var keep := if 0 <= sink < window then Min(sink, c.past) else 0;
    forall b: nat | b < c.dims.batch
      ensures |h[layer][b]| == c.absPos >= c.past && (c.past > 0 ==> IsSlice(PastLanes(c, layer, isK).value[b], h[layer][b], keep, c.past))
    {
      InvRemembers(c, g, window, sink, layer, b);
    }
  }

  lemma Shapes(c: Cache, g: History, layer: nat)
    requires Inv(c, g) && layer < c.dims.layers
    ensures c.Valid() && |g.k| == |g.v| == c.dims.layers && |g.k[layer]| == |g.v[layer]| == c.dims.batch
  {
    assert LanesHold(c, c.k[layer], g.k[layer]) && LanesHold(c, c.v[layer], g.v[layer]);
  }

  /** From configuration through any legal run on the buffers to a view of any layer. */
  method ReplayAndRead(layers: int, batch: int, window: int, kDim: int, vDim: int, heads: int, sink: int, run: seq<Event>, layer: nat, isK: bool)
    returns (view: View)
    requires Configure(layers, batch, window, kDim, vDim, heads, sink).Success? && layer < layers
    requires var c0 := Configure(layers, batch, window, kDim, vDim, heads, sink).value; LegalRun(c0, NoHistory(c0.dims), run)
    ensures var (c, g) := Recorded(layers, batch, window, kDim, vDim, heads, sink, run);
      c.dims == Dims(layers, batch, window, kDim, vDim, heads, if 0 <= sink < window then sink else 0) && ShowsHistory(c, g, window, sink, layer, isK, view)
  {
    hide LegalRun, After, ShowsPast, ShowsHistory, Inv, Remembers;
    var cache := new C.KvCache();
    var error := cache.Configure(layers, batch, window, kDim, vDim, heads, sink);
    ghost var c0 := Configure(layers, batch, window, kDim, vDim, heads, sink).value;
    Replay(cache, run, NoHistory(c0.dims));
    view := cache.PastView(layer, isK);
    ReadsAreHistoryWindows(layers, batch, window, kDim, vDim, heads, sink, run, layer, 0);
    ghost var r := Recorded(layers, batch, window, kDim, vDim, heads, sink, run);
    assert r.0 == cache.Model();
    ShownIsHistory(r.0, r.1, window, sink, layer, isK, view);
  }
}
