/**
 Runs of the cache. A ghost history records every row ever committed, per layer and lane. The
 resident rows of every lane are always an explicit slice of that history: the sinks first,
 then the newest rows. The position counter counts the history and never rewinds.
 */
module KvHistory {
  import opened Layout
  import opened KvModel

  /** The first `min(sink, p)` rows of a history, then its last rows up to `p` in all. */
  function Window(h: Lane, sink: nat, p: nat): (r: Lane)
    requires p <= |h|
    ensures |r| == p
  {
    var keep := Min(sink, p);
    h[..keep] + h[|h| - (p - keep)..]
  }

  lemma SlideKeepsWindow(lane: Lane, h: Lane, sink: nat, p: nat, d: nat)
    requires p <= |lane| && p <= |h|
    requires lane[..p] == Window(h, sink, p)
    requires d <= p - Min(sink, p)
    ensures SlideLane(lane, Min(sink, p), d, p)[..p - d] == Window(h, sink, p - d)
  {
    var keep := Min(sink, p);
    assert Min(sink, p - d) == keep;
    var r := SlideLane(lane, keep, d, p);
    forall i | 0 <= i < p - d ensures r[i] == Window(h, sink, p - d)[i] {
      if i < keep {
        assert r[i] == lane[..p][i];
      } else {
        assert r[i] == lane[..p][i + d];
      }
    }
  }

  /** Rows are only ever missing once the sinks are all resident, so appending extends the window. */
  lemma CommitKeepsWindow(lane: Lane, h: Lane, sink: nat, p: nat, rows: Lane)
    requires p + |rows| <= |lane| && p <= |h|
    requires p < sink ==> p == |h|
    requires lane[..p] == Window(h, sink, p) && lane[p..p + |rows|] == rows
    ensures lane[..p + |rows|] == Window(h + rows, sink, p + |rows|)
  {
    assert lane[..p + |rows|] == lane[..p] + lane[p..p + |rows|];
  }

  // ----- the protocol -----

  /** Rows written for one layer in the step in progress. */
  datatype Staged = Staged(k: seq<Lane>, v: seq<Lane>)

  /** History per layer and lane, and the rows staged by the step in progress. */
  datatype History = History(k: seq<seq<Lane>>, v: seq<seq<Lane>>, staged: map<int, Staged>)

  datatype Event =
    | Append(layer: int, kView: View, vView: View)
    | Commit
    | Abandon   // the step in progress fails elsewhere and is given up
    | Clear     // reset()

  predicate IsLayer(c: Cache, l: int) { 0 <= l < c.dims.layers }

  function LayerIds(c: Cache): set<int> { set l | 0 <= l < c.dims.layers && IsLayer(c, l) }

  function NoHistory(d: Dims): History {
    var empty := seq(d.layers, _ => seq(d.batch, _ => []));
    History(empty, empty, map[])
  }

  /**
   The protocol: lengths are not negative (see KvModel.NegativeAppend for what happens otherwise), all
   layers of a step receive the same number of rows, and a step is committed only when every layer has
   received its rows (or when nothing at all is waiting).
   */
  ghost predicate Legal(c: Cache, g: History, e: Event)
    requires c.Valid()
  {
    match e
    case Append(l, k, v) =>
      && k.Covered() && v.Covered()
      && (AppendChecks(c, l, k, v).Success? ==> AppendChecks(c, l, k, v).value >= 0)
      && (g.staged != map[] && AppendChecks(c, l, k, v).Success? ==> AppendChecks(c, l, k, v).value == c.pending)
    case Commit => c.Committable() && (g.staged.Keys == LayerIds(c) || (g.staged == map[] && c.pending == 0))
    case Abandon => true
    case Clear => true
  }

  function Extend(h: seq<Lane>, rows: seq<Lane>): (r: seq<Lane>)
    ensures |r| == |h|
    ensures forall b :: 0 <= b < |h| && |rows| == |h| ==> r[b] == h[b] + rows[b]
  {
    seq(|h|, b requires 0 <= b < |h| => if b < |rows| then h[b] + rows[b] else h[b])
  }

  function CommitHistory(h: seq<seq<Lane>>, staged: map<int, Staged>, isK: bool): (r: seq<seq<Lane>>)
    ensures |r| == |h|
    ensures forall l :: 0 <= l < |h| ==>
      r[l] == if l in staged then Extend(h[l], if isK then staged[l].k else staged[l].v) else h[l]
  {
    seq(|h|, l requires 0 <= l < |h| =>
      if l in staged then Extend(h[l], if isK then staged[l].k else staged[l].v) else h[l])
  }

  function StepCache(c: Cache, e: Event): (r: Cache)
    requires c.Valid()
    requires e.Append? ==> e.kView.Covered() && e.vView.Covered()
    requires e.Commit? ==> c.Committable()
    ensures r.Valid()
  {
    match e
    case Append(l, k, v) => KvModel.Append(c, l, k, v).cache
    case Commit => KvModel.Commit(c)
    case Abandon => c
    case Clear => Reset(c)
  }

  function StepHistory(c: Cache, g: History, e: Event): History
    requires c.Valid()
    requires e.Append? ==> e.kView.Covered() && e.vView.Covered()
  {
    match e
    case Append(l, k, v) =>
      if KvModel.Append(c, l, k, v).error.None?
      then g.(staged := g.staged[l := Staged(NewRows(k), NewRows(v))])
      else g
    case Commit => History(CommitHistory(g.k, g.staged, true), CommitHistory(g.v, g.staged, false), map[])
    case Abandon => g.(staged := map[])
    case Clear => NoHistory(c.dims)
  }

  // ----- the invariant -----

  /** One lane holds its window of the history, followed by the rows staged for it, if any. */
  predicate LaneHolds(c: Cache, lane: Lane, h: Lane)
  {
    && |lane| == c.dims.window
    && |h| == c.absPos
    && c.past <= c.absPos && c.past <= c.dims.window
    && (c.past < c.dims.sink ==> c.past == c.absPos)
    && lane[..c.past] == Window(h, c.dims.sink, c.past)
  }

  predicate LaneStages(c: Cache, lane: Lane, rows: Lane) {
    |rows| == c.pending && c.past + c.pending <= |lane| && lane[c.past..c.past + c.pending] == rows
  }

  ghost predicate BankHolds(c: Cache, bank: seq<seq<Lane>>, h: seq<seq<Lane>>) {
    && |bank| == |h| == c.dims.layers
    && forall l :: 0 <= l < c.dims.layers ==> LanesHold(c, bank[l], h[l])
  }

  ghost predicate LanesHold(c: Cache, lanes: seq<Lane>, h: seq<Lane>) {
    && |lanes| == |h| == c.dims.batch
    && forall b :: 0 <= b < c.dims.batch ==> LaneHolds(c, lanes[b], h[b])
  }

  ghost predicate LanesStage(c: Cache, lanes: seq<Lane>, rows: seq<Lane>) {
    && |lanes| == |rows| == c.dims.batch
    && forall b :: 0 <= b < c.dims.batch ==> LaneStages(c, lanes[b], rows[b])
  }

  ghost predicate Inv(c: Cache, g: History) {
    && c.Valid() && c.pending >= 0
    && c.past <= c.absPos && (c.past < c.dims.sink ==> c.past == c.absPos)
    && BankHolds(c, c.k, g.k) && BankHolds(c, c.v, g.v)
    && g.staged.Keys <= LayerIds(c)
    && forall l :: l in g.staged ==> LanesStage(c, c.k[l], g.staged[l].k) && LanesStage(c, c.v[l], g.staged[l].v)
  }

  /** The counter is the length of every lane's history. */
  lemma LaneLengths(c: Cache, g: History, layer: nat, b: nat)
    requires Inv(c, g) && layer < c.dims.layers && b < c.dims.batch
    ensures c.Valid() && |g.k| == |g.v| == c.dims.layers && |g.k[layer]| == |g.v[layer]| == c.dims.batch
    ensures |g.k[layer][b]| == |g.v[layer][b]| == c.absPos
  {
    hide Window, LanesStage, c.Valid;
    assert LanesHold(c, c.k[layer], g.k[layer]) && LanesHold(c, c.v[layer], g.v[layer]);
    assert LaneHolds(c, c.k[layer][b], g.k[layer][b]) && LaneHolds(c, c.v[layer][b], g.v[layer][b]);
  }

  lemma FreshInv(d: Dims)
    requires d.SinkFits()
    ensures Inv(Fresh(d), NoHistory(d))
  {}

  // ----- each event keeps the invariant -----

  lemma CompactBank(c: Cache, bank: seq<seq<Lane>>, h: seq<seq<Lane>>, n: nat, bank': seq<seq<Lane>>)
    requires c.Valid() && c.past <= c.absPos && (c.past < c.dims.sink ==> c.past == c.absPos)
    requires BankHolds(c, bank, h)
    requires |bank'| == |bank|
    requires Drop(c, n) > 0
    requires forall l, b :: 0 <= l < |bank| && 0 <= b < |bank[l]| ==>
      |bank'[l]| == |bank[l]| && KeepSink(c) + Drop(c, n) <= c.past <= |bank[l][b]| &&
      bank'[l][b] == SlideLane(bank[l][b], KeepSink(c), Drop(c, n), c.past)
    requires forall l :: 0 <= l < |bank| ==> |bank'[l]| == |bank[l]|
    ensures BankHolds(Compact(c, n), bank', h)
  {
    var c' := Compact(c, n);
    forall l, b | 0 <= l < |bank| && 0 <= b < c.dims.batch
      ensures LaneHolds(c', bank'[l][b], h[l][b])
    {
      assert LaneHolds(c, bank[l][b], h[l][b]);
      SlideKeepsWindow(bank[l][b], h[l][b], c.dims.sink, c.past, Drop(c, n));
    }
  }

  /** Making room moves rows but keeps the window; it is only done with nothing staged. */
  lemma CompactInv(c: Cache, g: History, n: nat)
    requires Inv(c, g)
    requires Drop(c, n) > 0 ==> g.staged == map[]
    ensures Inv(Compact(c, n), g)
  {
    if Drop(c, n) > 0 {
      CompactBank(c, c.k, g.k, n, Compact(c, n).k);
      CompactBank(c, c.v, g.v, n, Compact(c, n).v);
    }
  }

  lemma WriteBank(c: Cache, bank: seq<seq<Lane>>, h: seq<seq<Lane>>, layer: nat, rows: seq<Lane>, c': Cache)
    requires c.Valid() && BankHolds(c, bank, h) && layer < c.dims.layers
    requires |rows| == c.dims.batch
    requires forall b :: 0 <= b < |rows| ==> c.past + |rows[b]| <= c.dims.window
    requires c'.dims == c.dims && c'.past == c.past && c'.absPos == c.absPos
    ensures BankHolds(c', bank[layer := WriteLanes(bank[layer], c.past, rows)], h)
  {
    var bank' := bank[layer := WriteLanes(bank[layer], c.past, rows)];
    forall l, b | 0 <= l < |bank| && 0 <= b < c.dims.batch
      ensures LaneHolds(c', bank'[l][b], h[l][b])
    {
      assert LaneHolds(c, bank[l][b], h[l][b]);
      assert bank'[l][b][..c.past] == bank[l][b][..c.past];
    }
  }

  lemma WriteStages(c: Cache, lanes: seq<Lane>, rows: seq<Lane>, c': Cache)
    requires |lanes| == |rows| == c'.dims.batch && c'.past == c.past
    requires forall b :: 0 <= b < |rows| ==> |rows[b]| == c'.pending && c.past + |rows[b]| <= |lanes[b]|
    ensures LanesStage(c', WriteLanes(lanes, c.past, rows), rows)
  {}

  /** The state in which the rows of one layer are written, once room has been made. */
  function Written(c: Cache, l: nat, kRows: seq<Lane>, vRows: seq<Lane>, n: nat): Cache
    requires c.Valid() && l < c.dims.layers && c.past + n <= c.dims.window
    requires |kRows| == |vRows| == c.dims.batch
    requires forall b :: 0 <= b < c.dims.batch ==> |kRows[b]| == n && |vRows[b]| == n
  {
    c.(pending := n, k := c.k[l := WriteLanes(c.k[l], c.past, kRows)], v := c.v[l := WriteLanes(c.v[l], c.past, vRows)])
  }

  lemma WrittenInv(c: Cache, g: History, l: nat, kRows: seq<Lane>, vRows: seq<Lane>, n: nat)
    requires Inv(c, g) && l < c.dims.layers && c.past + n <= c.dims.window
    requires |kRows| == |vRows| == c.dims.batch
    requires forall b :: 0 <= b < c.dims.batch ==> |kRows[b]| == n && |vRows[b]| == n
    requires g.staged != map[] ==> n == c.pending
    ensures Inv(Written(c, l, kRows, vRows, n), g.(staged := g.staged[l := Staged(kRows, vRows)]))
  {
    var c' := Written(c, l, kRows, vRows, n);
    WriteBank(c, c.k, g.k, l, kRows, c');
    WriteBank(c, c.v, g.v, l, vRows, c');
    WriteStages(c, c.k[l], kRows, c');
    WriteStages(c, c.v[l], vRows, c');
    var staged' := g.staged[l := Staged(kRows, vRows)];
    assert IsLayer(c, l);
    forall l' | l' in staged'
      ensures l' in LayerIds(c')
      ensures LanesStage(c', c'.k[l'], staged'[l'].k) && LanesStage(c', c'.v[l'], staged'[l'].v)
    {
      if l' != l {
        assert l' in LayerIds(c) && LanesStage(c, c.k[l'], g.staged[l'].k) && LanesStage(c, c.v[l'], g.staged[l'].v);
        StageCarries(c, c', c.k[l'], g.staged[l'].k);
        StageCarries(c, c', c.v[l'], g.staged[l'].v);
      }
    }
  }

  lemma StageCarries(c: Cache, c': Cache, lanes: seq<Lane>, rows: seq<Lane>)
    requires LanesStage(c, lanes, rows)
    requires c'.dims == c.dims && c'.past == c.past && c'.pending == c.pending
    ensures LanesStage(c', lanes, rows)
  {
    forall b | 0 <= b < c.dims.batch ensures LaneStages(c', lanes[b], rows[b]) {
      assert LaneStages(c, lanes[b], rows[b]);
    }
  }

  lemma AppendInv(c: Cache, g: History, l: int, k: View, v: View)
    requires Inv(c, g) && Legal(c, g, Append(l, k, v))
    ensures Inv(KvModel.Append(c, l, k, v).cache, StepHistory(c, g, Append(l, k, v)))
  {
    var checks := AppendChecks(c, l, k, v);
    if checks.Success? {
      var n: nat := checks.value;
      assert g.staged != map[] ==> n == c.pending;
      assert Drop(c, n) > 0 ==> g.staged == map[];
      CompactInv(c, g, n);
      AppendIs(c, l, k, v, n);
      hide Inv, Legal, Compact, KvModel.Append, AppendChecks, WriteLanes, NewRows;
      var c1 := Compact(c, n);
      if c1.past + n <= c1.dims.window {
        WrittenInv(c1, g, l, NewRows(k), NewRows(v), n);
      }
    }
  }

  lemma CommitBank(c: Cache, bank: seq<seq<Lane>>, h: seq<seq<Lane>>, rows: seq<seq<Lane>>, h': seq<seq<Lane>>)
    requires c.Valid() && c.Committable() && c.past <= c.absPos
    requires BankHolds(c, bank, h) && |rows| == |h'| == |h|
    requires forall l :: 0 <= l < |rows| ==> LanesStage(c, bank[l], rows[l]) && h'[l] == Extend(h[l], rows[l])
    ensures BankHolds(KvModel.Commit(c), bank, h')
  {
    var c' := KvModel.Commit(c);
    forall l, b | 0 <= l < |bank| && 0 <= b < c.dims.batch
      ensures LaneHolds(c', bank[l][b], h'[l][b])
    {
      assert LaneHolds(c, bank[l][b], h[l][b]) && LaneStages(c, bank[l][b], rows[l][b]);
      CommitKeepsWindow(bank[l][b], h[l][b], c.dims.sink, c.past, rows[l][b]);
    }
  }

  lemma CommitInv(c: Cache, g: History)
    requires Inv(c, g) && Legal(c, g, Commit)
    ensures Inv(KvModel.Commit(c), StepHistory(c, g, Commit))
  {
    if g.staged.Keys == LayerIds(c) {
      CompleteCommitInv(c, g);
    } else {
      assert CommitHistory(g.k, g.staged, true) == g.k && CommitHistory(g.v, g.staged, false) == g.v;
      assert KvModel.Commit(c) == c && StepHistory(c, g, Commit) == g;
    }
  }

  lemma CompleteCommitInv(c: Cache, g: History)
    requires Inv(c, g) && g.staged.Keys == LayerIds(c)
    ensures Inv(KvModel.Commit(c), StepHistory(c, g, Commit))
  {
    forall l | 0 <= l < c.dims.layers ensures l in g.staged {
      assert IsLayer(c, l) && l in LayerIds(c);
    }
    CommitSide(c, g, c.k, g.k, true);
    CommitSide(c, g, c.v, g.v, false);
  }

  lemma CommitSide(c: Cache, g: History, bank: seq<seq<Lane>>, h: seq<seq<Lane>>, isK: bool)
    requires c.Valid() && c.Committable() && c.past <= c.absPos && BankHolds(c, bank, h)
    requires forall l :: 0 <= l < c.dims.layers ==>
      l in g.staged && LanesStage(c, bank[l], if isK then g.staged[l].k else g.staged[l].v)
    ensures BankHolds(KvModel.Commit(c), bank, CommitHistory(h, g.staged, isK))
  {
    var rows := seq(c.dims.layers, l requires 0 <= l < c.dims.layers && l in g.staged =>
                                     if isK then g.staged[l].k else g.staged[l].v);
    CommitBank(c, bank, h, rows, CommitHistory(h, g.staged, isK));
  }

  lemma StepInv(c: Cache, g: History, e: Event)
    requires Inv(c, g) && Legal(c, g, e)
    ensures Inv(StepCache(c, e), StepHistory(c, g, e))
  {
    match e
    case Append(l, k, v) => AppendInv(c, g, l, k, v);
    case Commit => CommitInv(c, g);
    case Abandon =>
    case Clear => FreshInv(c.dims);
  }

  // ----- whole runs -----

  ghost predicate LegalRun(c: Cache, g: History, run: seq<Event>)
    requires c.Valid()
    decreases |run|
  {
    run == [] ||
    (Legal(c, g, run[0]) && LegalRun(StepCache(c, run[0]), StepHistory(c, g, run[0]), run[1..]))
  }

  ghost function After(c: Cache, g: History, run: seq<Event>): (r: (Cache, History))
    requires c.Valid() && LegalRun(c, g, run)
    ensures r.0.Valid()
    decreases |run|
  {
    if run == [] then (c, g) else After(StepCache(c, run[0]), StepHistory(c, g, run[0]), run[1..])
  }

  lemma {:induction false} RunInv(c: Cache, g: History, run: seq<Event>)
    requires Inv(c, g) && LegalRun(c, g, run)
    ensures Inv(After(c, g, run).0, After(c, g, run).1)
    decreases |run|
  {
    if run != [] {
      StepInv(c, g, run[0]);
      RunInv(StepCache(c, run[0]), StepHistory(c, g, run[0]), run[1..]);
    }
  }

  /**
   After any legal run from a successful configuration, what a read returns for any layer and lane
   is the stated slice of everything ever committed to that lane.
   */
  lemma ReadsAreHistoryWindows(layers: int, batch: int, window: int, kDim: int, vDim: int, heads: int, sink: int,
                               run: seq<Event>, layer: nat, b: nat)
    requires Configure(layers, batch, window, kDim, vDim, heads, sink).Success? && layer < layers && b < batch
    requires var c0 := Configure(layers, batch, window, kDim, vDim, heads, sink).value; LegalRun(c0, NoHistory(c0.dims), run)
    ensures var c0 := Configure(layers, batch, window, kDim, vDim, heads, sink).value;
      var (c, g) := After(c0, NoHistory(c0.dims), run);
      c.dims == c0.dims && Inv(c, g) && Remembers(c, g, window, sink, layer, b)
  {
    var c0 := Configure(layers, batch, window, kDim, vDim, heads, sink).value;
    FreshInv(c0.dims);
    RunInv(c0, NoHistory(c0.dims), run);
    RunDims(c0, NoHistory(c0.dims), run);
    InvRemembers(After(c0, NoHistory(c0.dims), run).0, After(c0, NoHistory(c0.dims), run).1, window, sink, layer, b);
  }

  /** The first `keep` rows of a history followed by its newest, `p` in all. */
  predicate IsSlice(rows: Lane, h: Lane, keep: nat, p: nat) { keep <= p <= |h| && rows == h[..keep] + h[|h| - (p - keep)..] }

  /**
   Reading one lane of one layer gives the first sinks and the newest rows of its history, in all `past` of them; nothing
   when empty. There are `sink` sinks if that leaves room in the window, and none otherwise.
   */
  ghost predicate Remembers(c: Cache, g: History, window: int, sink: int, layer: nat, b: nat)
    requires c.Valid() && layer < c.dims.layers && b < c.dims.batch
  {
    var keep := if 0 <= sink < window then Min(sink, c.past) else 0;
    && |g.k| == |g.v| == c.dims.layers && |g.k[layer]| == |g.v[layer]| == c.dims.batch
    && |g.k[layer][b]| == |g.v[layer][b]| == c.absPos
    && c.past <= c.absPos && c.past <= c.dims.window
    && (c.past == 0 ==> PastLanes(c, layer, true).None? && PastLanes(c, layer, false).None?)
    && (c.past > 0 ==>
          && PastLanes(c, layer, true).Some? && PastLanes(c, layer, false).Some?
          && IsSlice(PastLanes(c, layer, true).value[b], g.k[layer][b], keep, c.past)
          && IsSlice(PastLanes(c, layer, false).value[b], g.v[layer][b], keep, c.past))
  }

  lemma InvRemembers(c: Cache, g: History, window: int, sink: int, layer: nat, b: nat)
    requires Inv(c, g) && layer < c.dims.layers && b < c.dims.batch && c.dims.sink == if 0 <= sink < window then sink else 0
    ensures Remembers(c, g, window, sink, layer, b)
  {
    hide Window, IsSlice, LanesStage;
    assert LanesHold(c, c.k[layer], g.k[layer]) && LanesHold(c, c.v[layer], g.v[layer]);
    assert LaneHolds(c, c.k[layer][b], g.k[layer][b]) && LaneHolds(c, c.v[layer][b], g.v[layer][b]);
    WindowIsSlice(g.k[layer][b], c.dims.sink, c.past);
    WindowIsSlice(g.v[layer][b], c.dims.sink, c.past);
  }

  lemma WindowIsSlice(h: Lane, sink: nat, p: nat)
    requires p <= |h|
    ensures IsSlice(Window(h, sink, p), h, Min(sink, p), p)
  {}

  lemma {:induction false} RunDims(c: Cache, g: History, run: seq<Event>)
    requires c.Valid() && LegalRun(c, g, run)
    ensures After(c, g, run).0.dims == c.dims
    decreases |run|
  {
    if run != [] {
      RunDims(StepCache(c, run[0]), StepHistory(c, g, run[0]), run[1..]);
    }
  }

  // ----- occupancy and position -----

  /** An append that gets past the shape checks and still does not fit. */
  predicate Overflows(c: Cache, e: Event)
    requires c.Valid()
    requires e.Append? ==> e.kView.Covered() && e.vView.Covered()
  {
    e.Append? && KvModel.Append(c, e.layer, e.kView, e.vView).error == Some(CapacityExceeded)
  }

  /** No append of the run overflows, and no step is given up after it made room. */
  ghost predicate SmoothRun(c: Cache, g: History, run: seq<Event>)
    requires c.Valid() && LegalRun(c, g, run)
    decreases |run|
  {
    run == [] ||
    (&& !Overflows(c, run[0]) && !run[0].Abandon?
     && SmoothRun(StepCache(c, run[0]), StepHistory(c, g, run[0]), run[1..]))
  }

  /** With nothing staged the window is as full as it can be; a step in progress fills it on commit. */
  ghost predicate Full(c: Cache, g: History) {
    c.past + c.pending == Min(c.absPos + c.pending, c.dims.window) && (g.staged == map[] ==> c.pending == 0)
  }

  lemma AppendFull(c: Cache, g: History, l: int, k: View, v: View)
    requires Inv(c, g) && Legal(c, g, Append(l, k, v)) && Full(c, g) && !Overflows(c, Append(l, k, v))
    ensures Full(StepCache(c, Append(l, k, v)), StepHistory(c, g, Append(l, k, v)))
  {
    hide Inv;
    if KvModel.Append(c, l, k, v).error.None? {
      AppendOccupancy(c, l, k, v);
      hide KvModel.Append, AppendChecks, NewRows;
      assert l in g.staged[l := Staged(NewRows(k), NewRows(v))];
    } else {
      RefusedKeeps(c, l, k, v);
      hide KvModel.Append;
    }
  }

  lemma RefusedKeeps(c: Cache, l: int, k: View, v: View)
    requires c.Valid() && k.Covered() && v.Covered()
    requires KvModel.Append(c, l, k, v).error.Some? && KvModel.Append(c, l, k, v).error != Some(CapacityExceeded)
    ensures KvModel.Append(c, l, k, v).cache == c
  {
    hide c.Valid, Compact, WriteLanes, NewRows;
  }

  lemma {:induction false} StepFull(c: Cache, g: History, e: Event)
    requires Inv(c, g) && Legal(c, g, e) && Full(c, g) && !Overflows(c, e) && !e.Abandon?
    ensures Full(StepCache(c, e), StepHistory(c, g, e))
  {
    if e.Append? {
      AppendFull(c, g, e.layer, e.kView, e.vView);
      return;
    }
    hide Inv, KvModel.Append;
    if e.Commit? && g.staged == map[] {
      assert c.pending == 0;
    }
  }

  /** If every step succeeds, the resident length is exactly min(tokens ever committed, window). */
  lemma {:induction false} SmoothRunFull(c: Cache, g: History, run: seq<Event>)
    requires Inv(c, g) && Full(c, g) && LegalRun(c, g, run) && SmoothRun(c, g, run)
    ensures var (c', g') := After(c, g, run);
      Full(c', g') && (g'.staged == map[] ==> c'.past == Min(c'.absPos, c'.dims.window))
    decreases |run|
  {
    if run != [] {
      StepInv(c, g, run[0]);
      StepFull(c, g, run[0]);
      SmoothRunFull(StepCache(c, run[0]), StepHistory(c, g, run[0]), run[1..]);
    }
  }

  /** Sliding, failing and giving up never rewind the position counter; only `reset` clears it. */
  lemma {:induction false} PositionNeverRewinds(c: Cache, g: History, run: seq<Event>)
    requires c.Valid() && c.pending >= 0 && LegalRun(c, g, run)
    requires Clear !in run
    ensures After(c, g, run).0.absPos >= c.absPos
    decreases |run|
  {
    if run != [] {
      assert run[0] in run;
      PositionNeverRewinds(StepCache(c, run[0]), StepHistory(c, g, run[0]), run[1..]);
    }
  }
}
