/**
 Grouped-query attention, row by row: what one output row is, as a function of its query row, the
 resident and new key/value rows, and its absolute index among them. `exp`, `tanh` and the inverse
 square root are parameters.
 */
module AttentionSpec {
  import opened Layout
  import opened Softmax

  datatype Fns = Fns(exp: real -> real, tanh: real -> real, invSqrt: nat -> real)

  datatype Opts = Opts(numHeads: int, scale: real, causal: bool, softcap: real, window: int)

  /**
   The key/value head that query head `h` reads when `g` query heads share one: the quotient
   h / g (see KvHeadIsQuotient), written as repeated subtraction to keep proofs linear.
   */
  function KvHead(h: nat, g: nat): nat
    requires g > 0
  {
    if h < g then 0 else KvHead(h - g, g) + 1
  }

  lemma {:induction false} KvHeadIsQuotient(h: nat, g: nat)
    requires g > 0
    ensures KvHead(h, g) * g <= h < KvHead(h, g) * g + g
  {
    if h >= g {
      KvHeadIsQuotient(h - g, g);
      assert KvHead(h, g) * g == KvHead(h - g, g) * g + g;
    }
  }

  /** The head layout fixed by the shapes: query heads share key/value heads in equal groups. */
  datatype Heads = Heads(heads: nat, headDim: nat, headsPerKv: nat, vHeadDim: nat)

  function DotAt(a: Row, ao: nat, b: Row, bo: nat, n: nat): real
    requires ao + n <= |a| && bo + n <= |b|
  {
    if n == 0 then 0.0 else DotAt(a, ao, b, bo, n - 1) + a[ao + n - 1] * b[bo + n - 1]
  }

  function Scale(f: Fns, o: Opts, headDim: nat): real {
    if o.scale <= 0.0 then f.invSqrt(headDim) else o.scale
  }

  /** Scaling, then soft capping, of a raw dot product. */
  function ScaleAndCap(f: Fns, o: Opts, headDim: nat, raw: real): real {
    Capped(f, o, Sized(f, o, headDim, raw))
  }

  function Sized(f: Fns, o: Opts, headDim: nat, raw: real): real { raw * Scale(f, o, headDim) }

  function Capped(f: Fns, o: Opts, x: real): real { if o.softcap > 0.0 then o.softcap * f.tanh(x / o.softcap) else x }

  function Logit(f: Fns, o: Opts, headDim: nat, q: Row, qo: nat, k: Row, ko: nat): real
    requires qo + headDim <= |q| && ko + headDim <= |k|
  {
    ScaleAndCap(f, o, headDim, DotAt(q, qo, k, ko, headDim))
  }

  /** Key `j` may be read by the query at index `i` of the same numbering. */
  predicate Visible(o: Opts, j: int, i: int) {
    !(o.causal && j > i) && !(o.window > 0 && j + o.window <= i)
  }

  function ScoreRow(f: Fns, o: Opts, headDim: nat, q: Row, qo: nat, keys: Lane, ko: nat, i: nat): (s: seq<Score>)
    requires qo + headDim <= |q| && forall j :: 0 <= j < |keys| ==> ko + headDim <= |keys[j]|
    ensures |s| == |keys|
    ensures forall j :: 0 <= j < |keys| ==>
      s[j] == if Visible(o, j, i) then Val(Logit(f, o, headDim, q, qo, keys[j], ko)) else Masked
  {
    seq(|keys|, j requires 0 <= j < |keys| =>
      if Visible(o, j, i) then Val(Logit(f, o, headDim, q, qo, keys[j], ko)) else Masked)
  }

  function Column(vals: Lane, c: nat): (col: seq<real>)
    requires forall j :: 0 <= j < |vals| ==> c < |vals[j]|
    ensures |col| == |vals| && forall j :: 0 <= j < |vals| ==> col[j] == vals[j][c]
  {
    seq(|vals|, j requires 0 <= j < |vals| => vals[j][c])
  }

  /** Every key and value row has room for every head. */
  ghost predicate Roomy(hd: Heads, q: Row, keys: Lane, vals: Lane) {
    && hd.headsPerKv > 0 && |keys| == |vals|
    && Span(hd.heads, hd.headDim) <= |q|
    && (forall h, j :: 0 <= h < hd.heads && 0 <= j < |keys| ==> Span(KvHead(h, hd.headsPerKv), hd.headDim) + hd.headDim <= |keys[j]|)
    && (forall h, j :: 0 <= h < hd.heads && 0 <= j < |vals| ==> Span(KvHead(h, hd.headsPerKv), hd.vHeadDim) + hd.vHeadDim <= |vals[j]|)
  }

  lemma HeadInQuery(hd: Heads, h: nat)
    requires h < hd.heads
    ensures Span(h, hd.headDim) + hd.headDim <= Span(hd.heads, hd.headDim)
  {
    SpanApart(h, hd.heads, hd.headDim);
  }

  ghost function HeadScores(f: Fns, o: Opts, hd: Heads, q: Row, keys: Lane, vals: Lane, i: nat, h: nat): (s: seq<Score>)
    requires Roomy(hd, q, keys, vals) && h < hd.heads
    ensures |s| == |keys|
  {
    HeadInQuery(hd, h);
    ScoreRow(f, o, hd.headDim, q, Span(h, hd.headDim), keys, Span(KvHead(h, hd.headsPerKv), hd.headDim), i)
  }

  ghost function HeadColumn(hd: Heads, q: Row, keys: Lane, vals: Lane, h: nat, d: nat): (c: seq<real>)
    requires Roomy(hd, q, keys, vals) && h < hd.heads && d < hd.vHeadDim
    ensures |c| == |vals|
  {
    Column(vals, Span(KvHead(h, hd.headsPerKv), hd.vHeadDim) + d)
  }

  /** The scores of one head with every position that is not allowed masked as well. */
  ghost function AllowedScores(f: Fns, o: Opts, hd: Heads, q: Row, keys: Lane, vals: Lane, i: nat, allowed: nat -> bool, h: nat): (s: seq<Score>)
    requires Roomy(hd, q, keys, vals) && h < hd.heads
    ensures |s| == |keys|
  {
    var all := HeadScores(f, o, hd, q, keys, vals, i, h);
    seq(|all|, j requires 0 <= j < |all| => if allowed(j) then all[j] else Masked)
  }

  /** Number `d` of head `h` of the output row of query `i`, over the allowed positions. */
  ghost function Entry(f: Fns, o: Opts, hd: Heads, q: Row, keys: Lane, vals: Lane, i: nat, allowed: nat -> bool, h: nat, d: nat): real
    requires Roomy(hd, q, keys, vals) && h < hd.heads && d < hd.vHeadDim
  {
    Attend(f.exp, AllowedScores(f, o, hd, q, keys, vals, i, allowed, h), HeadColumn(hd, q, keys, vals, h, d))
  }

  /** The first `n` heads of an output row over the allowed positions, one value vector per query head. */
  ghost function AllowedHeads(f: Fns, o: Opts, hd: Heads, q: Row, keys: Lane, vals: Lane, i: nat, allowed: nat -> bool, n: nat): (r: Row)
    requires Roomy(hd, q, keys, vals) && n <= hd.heads
    ensures |r| == Span(n, hd.vHeadDim)
  {
    if n == 0 then []
    else AllowedHeads(f, o, hd, q, keys, vals, i, allowed, n - 1)
         + seq(hd.vHeadDim, d requires 0 <= d < hd.vHeadDim && Roomy(hd, q, keys, vals) => Entry(f, o, hd, q, keys, vals, i, allowed, n - 1, d))
  }

  ghost function AllowedRow(f: Fns, o: Opts, hd: Heads, q: Row, keys: Lane, vals: Lane, i: nat, allowed: nat -> bool): (r: Row)
    requires Roomy(hd, q, keys, vals)
    ensures |r| == Span(hd.heads, hd.vHeadDim)
  {
    AllowedHeads(f, o, hd, q, keys, vals, i, allowed, hd.heads)
  }

  /** Plain attention allows every position. */
  function Everything(): nat -> bool { (j: nat) => true }

  ghost function OutRow(f: Fns, o: Opts, hd: Heads, q: Row, keys: Lane, vals: Lane, i: nat): (r: Row)
    requires Roomy(hd, q, keys, vals)
    ensures |r| == Span(hd.heads, hd.vHeadDim)
  {
    AllowedRow(f, o, hd, q, keys, vals, i, Everything())
  }

  lemma EverythingScores(f: Fns, o: Opts, hd: Heads, q: Row, keys: Lane, vals: Lane, i: nat, h: nat)
    requires Roomy(hd, q, keys, vals) && h < hd.heads
    ensures AllowedScores(f, o, hd, q, keys, vals, i, Everything(), h) == HeadScores(f, o, hd, q, keys, vals, i, h)
  {
    assert AllowedScores(f, o, hd, q, keys, vals, i, Everything(), h) == HeadScores(f, o, hd, q, keys, vals, i, h);
  }

  ghost predicate RoomyLane(hd: Heads, qs: Lane, keys: Lane, vals: Lane) {
    forall i :: 0 <= i < |qs| ==> Roomy(hd, qs[i], keys, vals)
  }

  /** The output rows of a lane: query `i` stands at index `past + i` among the keys. */
  ghost function LaneOut(f: Fns, o: Opts, hd: Heads, qs: Lane, keys: Lane, vals: Lane, past: nat): (r: Lane)
    requires RoomyLane(hd, qs, keys, vals)
    ensures |r| == |qs| && forall i :: 0 <= i < |qs| ==> r[i] == OutRow(f, o, hd, qs[i], keys, vals, past + i)
  {
    seq(|qs|, i requires 0 <= i < |qs| && RoomyLane(hd, qs, keys, vals) => OutRow(f, o, hd, qs[i], keys, vals, past + i))
  }

  /** Two calls whose entries agree head by head give the same row. */
  lemma {:induction false} SameEntriesSameHeads(f: Fns, o: Opts, hd: Heads, q: Row, keys: Lane, vals: Lane, i: nat, allowed: nat -> bool,
                                                keys': Lane, vals': Lane, i': nat, allowed': nat -> bool, n: nat)
    requires Roomy(hd, q, keys, vals) && Roomy(hd, q, keys', vals') && n <= hd.heads
    requires forall h, d :: 0 <= h < n && 0 <= d < hd.vHeadDim ==>
      Entry(f, o, hd, q, keys, vals, i, allowed, h, d) == Entry(f, o, hd, q, keys', vals', i', allowed', h, d)
    ensures AllowedHeads(f, o, hd, q, keys, vals, i, allowed, n) == AllowedHeads(f, o, hd, q, keys', vals', i', allowed', n)
  {
    if n > 0 {
      SameEntriesSameHeads(f, o, hd, q, keys, vals, i, allowed, keys', vals', i', allowed', n - 1);
    }
  }

  // ----- every query sees itself -----

  /**
   A probability distribution that gives weight to exactly the positions that query `i` may read: those not after it
   if attention is causal, and not `window` or more before it if there is a window.
   */
  predicate Distributes(p: seq<real>, o: Opts, i: nat) {
    && Sum(p) == 1.0 && i < |p| && p[i] > 0.0
    && forall j :: 0 <= j < |p| ==> p[j] >= 0.0 && (p[j] > 0.0 <==> (!o.causal || j <= i) && (o.window <= 0 || i - j < o.window))
  }

  /** Neither causality nor the sliding window hides a query's own position, so its weights are a probability distribution. */
  lemma WeightsSumToOne(f: Fns, o: Opts, hd: Heads, q: Row, keys: Lane, vals: Lane, i: nat, h: nat)
    requires Roomy(hd, q, keys, vals) && h < hd.heads && i < |keys| && forall x: real :: f.exp(x) > 0.0
    ensures Distributes(Probs(f.exp, HeadScores(f, o, hd, q, keys, vals, i, h)), o, i)
  {
    var s := HeadScores(f, o, hd, q, keys, vals, i, h);
    assert Visible(o, i, i) && s[i].Val?;
    ProbsAreDistribution(f.exp, s);
  }

  lemma {:induction false} LaneWeights(f: Fns, o: Opts, hd: Heads, qs: Lane, keys: Lane, vals: Lane, past: nat, i: nat, h: nat)
    requires RoomyLane(hd, qs, keys, vals) && i < |qs| && past + i < |keys| && h < hd.heads && forall x: real :: f.exp(x) > 0.0
    ensures Roomy(hd, qs[i], keys, vals)
    ensures Distributes(Probs(f.exp, HeadScores(f, o, hd, qs[i], keys, vals, past + i, h)), o, past + i)
  {
    WeightsSumToOne(f, o, hd, qs[i], keys, vals, past + i, h);
  }

  // ----- causal attention reads no further than its own index -----

  lemma PrefixScores(f: Fns, o: Opts, hd: Heads, q: Row, keys: Lane, vals: Lane, i: nat, m: nat, h: nat)
    requires Roomy(hd, q, keys, vals) && o.causal && i < m <= |keys| && h < hd.heads
    ensures Roomy(hd, q, keys[..m], vals[..m])
    ensures HeadScores(f, o, hd, q, keys[..m], vals[..m], i, h) == HeadScores(f, o, hd, q, keys, vals, i, h)[..m]
    ensures AllMasked(HeadScores(f, o, hd, q, keys, vals, i, h)[m..])
  {}

  lemma PrefixColumn(hd: Heads, q: Row, keys: Lane, vals: Lane, m: nat, h: nat, d: nat)
    requires Roomy(hd, q, keys, vals) && m <= |keys| && Roomy(hd, q, keys[..m], vals[..m]) && h < hd.heads && d < hd.vHeadDim
    ensures HeadColumn(hd, q, keys[..m], vals[..m], h, d) == HeadColumn(hd, q, keys, vals, h, d)[..m]
  {}

  lemma CutTail(exp: real -> real, s: seq<Score>, c: seq<real>, m: nat)
    requires |s| == |c| && m <= |s| && AllMasked(s[m..])
    ensures Attend(exp, s[..m], c[..m]) == Attend(exp, s, c)
  {
    hide Attend;
    assert s[..m] + s[m..] + [] == s && c[..m] + c[m..] + [] == c;
    CutMasked(exp, s[..m], s[m..], [], c[..m], c[m..], []);
    assert s[..m] + [] == s[..m] && c[..m] + [] == c[..m];
  }

  lemma CausalEntry(f: Fns, o: Opts, hd: Heads, q: Row, keys: Lane, vals: Lane, i: nat, m: nat, h: nat, d: nat)
    requires Roomy(hd, q, keys, vals) && o.causal && i < m <= |keys|
    requires h < hd.heads && d < hd.vHeadDim
    ensures Roomy(hd, q, keys[..m], vals[..m])
    ensures Entry(f, o, hd, q, keys[..m], vals[..m], i, Everything(), h, d) == Entry(f, o, hd, q, keys, vals, i, Everything(), h, d)
  {
    hide HeadScores, HeadColumn, AllowedScores, Attend, AllMasked;
    PrefixScores(f, o, hd, q, keys, vals, i, m, h);
    PrefixColumn(hd, q, keys, vals, m, h, d);
    EverythingScores(f, o, hd, q, keys, vals, i, h);
    EverythingScores(f, o, hd, q, keys[..m], vals[..m], i, h);
    CutTail(f.exp, HeadScores(f, o, hd, q, keys, vals, i, h), HeadColumn(hd, q, keys, vals, h, d), m);
  }

  /** Keys and values past index `i` do not affect output row `i`. */
  lemma CausalRow(f: Fns, o: Opts, hd: Heads, q: Row, keys: Lane, vals: Lane, i: nat, m: nat)
    requires Roomy(hd, q, keys, vals) && o.causal && i < m <= |keys|
    ensures Roomy(hd, q, keys[..m], vals[..m])
    ensures OutRow(f, o, hd, q, keys[..m], vals[..m], i) == OutRow(f, o, hd, q, keys, vals, i)
  {
    hide Entry, AllowedHeads;
    assert Roomy(hd, q, keys[..m], vals[..m]);
    forall h, d | 0 <= h < hd.heads && 0 <= d < hd.vHeadDim
      ensures Entry(f, o, hd, q, keys[..m], vals[..m], i, Everything(), h, d) == Entry(f, o, hd, q, keys, vals, i, Everything(), h, d)
    {
      CausalEntry(f, o, hd, q, keys, vals, i, m, h, d);
    }
    SameEntriesSameHeads(f, o, hd, q, keys[..m], vals[..m], i, Everything(), keys, vals, i, Everything(), hd.heads);
  }

  // ----- attention over an evicted history -----

  /** The positions that survive when only `keep` sinks and the newest rows from `from` on are resident. */
  function Survivors(keep: nat, from: nat): nat -> bool { j => j < keep || from <= j }

  lemma CutMiddle(exp: real -> real, s: seq<Score>, c: seq<real>, keep: nat, from: nat)
    requires |s| == |c| && keep <= from <= |s| && AllMasked(s[keep..from])
    ensures Attend(exp, s[..keep] + s[from..], c[..keep] + c[from..]) == Attend(exp, s, c)
  {
    hide Attend;
    assert s == s[..keep] + s[keep..from] + s[from..] && c == c[..keep] + c[keep..from] + c[from..];
    CutMasked(exp, s[..keep], s[keep..from], s[from..], c[..keep], c[keep..from], c[from..]);
  }

  /**
   Attending over the resident rows is full attention restricted to the surviving positions. The
   query keeps its distance to the newest rows, so its index shifts by the number of rows evicted.
   */
  lemma {:induction false} EvictedEntry(f: Fns, o: Opts, hd: Heads, q: Row, keys: Lane, vals: Lane, i: nat, keep: nat, from: nat, h: nat, d: nat)
    requires keep <= from <= i < |keys| && o.window <= 0
    requires Roomy(hd, q, keys, vals)
    requires Roomy(hd, q, keys[..keep] + keys[from..], vals[..keep] + vals[from..])
    requires h < hd.heads && d < hd.vHeadDim
    ensures Entry(f, o, hd, q, keys[..keep] + keys[from..], vals[..keep] + vals[from..], i - (from - keep), Everything(), h, d)
         == Entry(f, o, hd, q, keys, vals, i, Survivors(keep, from), h, d)
  {
    var s, c := AllowedScores(f, o, hd, q, keys, vals, i, Survivors(keep, from), h), HeadColumn(hd, q, keys, vals, h, d);
    hide HeadScores, HeadColumn, AllowedScores, Attend, AllMasked;
    EvictedMasked(f, o, hd, q, keys, vals, i, keep, from, h);
    var rk, rv := keys[..keep] + keys[from..], vals[..keep] + vals[from..];
    EverythingScores(f, o, hd, q, rk, rv, i - (from - keep), h);
    EvictedScores(f, o, hd, q, keys, vals, i, keep, from, h);
    EvictedColumn(hd, q, keys, vals, keep, from, h, d);
    CutMiddle(f.exp, s, c, keep, from);
  }

  lemma EvictedMasked(f: Fns, o: Opts, hd: Heads, q: Row, keys: Lane, vals: Lane, i: nat, keep: nat, from: nat, h: nat)
    requires keep <= from <= |keys| && Roomy(hd, q, keys, vals) && h < hd.heads
    ensures AllMasked(AllowedScores(f, o, hd, q, keys, vals, i, Survivors(keep, from), h)[keep..from])
  {}

  lemma EvictedColumn(hd: Heads, q: Row, keys: Lane, vals: Lane, keep: nat, from: nat, h: nat, d: nat)
    requires Roomy(hd, q, keys, vals) && keep <= from <= |keys| && h < hd.heads && d < hd.vHeadDim
    requires Roomy(hd, q, keys[..keep] + keys[from..], vals[..keep] + vals[from..])
    ensures HeadColumn(hd, q, keys[..keep] + keys[from..], vals[..keep] + vals[from..], h, d)
         == HeadColumn(hd, q, keys, vals, h, d)[..keep] + HeadColumn(hd, q, keys, vals, h, d)[from..]
  {
    var c, rv := HeadColumn(hd, q, keys, vals, h, d), vals[..keep] + vals[from..];
    var rc := HeadColumn(hd, q, keys[..keep] + keys[from..], rv, h, d);
    forall j | 0 <= j < |rv| ensures rc[j] == (c[..keep] + c[from..])[j] {
      if j < keep { assert rv[j] == vals[j]; } else { assert rv[j] == vals[j + (from - keep)]; }
    }
  }

  lemma EvictedScores(f: Fns, o: Opts, hd: Heads, q: Row, keys: Lane, vals: Lane, i: nat, keep: nat, from: nat, h: nat)
    requires keep <= from <= i < |keys| && o.window <= 0
    requires Roomy(hd, q, keys, vals)
    requires Roomy(hd, q, keys[..keep] + keys[from..], vals[..keep] + vals[from..])
    requires h < hd.heads
    ensures HeadScores(f, o, hd, q, keys[..keep] + keys[from..], vals[..keep] + vals[from..], i - (from - keep), h)
         == AllowedScores(f, o, hd, q, keys, vals, i, Survivors(keep, from), h)[..keep]
          + AllowedScores(f, o, hd, q, keys, vals, i, Survivors(keep, from), h)[from..]
  {
    var s := AllowedScores(f, o, hd, q, keys, vals, i, Survivors(keep, from), h);
    var rk, rv := keys[..keep] + keys[from..], vals[..keep] + vals[from..];
    var rs := HeadScores(f, o, hd, q, rk, rv, i - (from - keep), h);
    forall j | 0 <= j < |rk| ensures rs[j] == (s[..keep] + s[from..])[j] {
      if j < keep { assert rk[j] == keys[j]; } else { assert rk[j] == keys[j + (from - keep)]; }
    }
  }

  /** Row form of EvictedEntry: attention over a window is restricted attention over the history. */
  lemma EvictedRow(f: Fns, o: Opts, hd: Heads, q: Row, keys: Lane, vals: Lane, i: nat, keep: nat, from: nat)
    requires keep <= from <= i < |keys| && o.window <= 0
    requires Roomy(hd, q, keys, vals)
    ensures Roomy(hd, q, keys[..keep] + keys[from..], vals[..keep] + vals[from..])
    ensures OutRow(f, o, hd, q, keys[..keep] + keys[from..], vals[..keep] + vals[from..], i - (from - keep))
         == AllowedRow(f, o, hd, q, keys, vals, i, Survivors(keep, from))
  {
    hide Entry, AllowedHeads;
    var rk, rv := keys[..keep] + keys[from..], vals[..keep] + vals[from..];
    EvictedRoomy(hd, q, keys, vals, keep, from);
    forall h, d | 0 <= h < hd.heads && 0 <= d < hd.vHeadDim
      ensures Entry(f, o, hd, q, rk, rv, i - (from - keep), Everything(), h, d)
           == Entry(f, o, hd, q, keys, vals, i, Survivors(keep, from), h, d)
    {
      EvictedEntry(f, o, hd, q, keys, vals, i, keep, from, h, d);
    }
    SameEntriesSameHeads(f, o, hd, q, rk, rv, i - (from - keep), Everything(), keys, vals, i, Survivors(keep, from), hd.heads);
  }

  lemma EvictedRoomy(hd: Heads, q: Row, keys: Lane, vals: Lane, keep: nat, from: nat)
    requires keep <= from <= |keys| && Roomy(hd, q, keys, vals)
    ensures Roomy(hd, q, keys[..keep] + keys[from..], vals[..keep] + vals[from..])
  {
    var rk, rv := keys[..keep] + keys[from..], vals[..keep] + vals[from..];
    forall h, j | 0 <= h < hd.heads && 0 <= j < |rk|
      ensures Span(KvHead(h, hd.headsPerKv), hd.headDim) + hd.headDim <= |rk[j]|
      ensures Span(KvHead(h, hd.headsPerKv), hd.vHeadDim) + hd.vHeadDim <= |rv[j]|
    {
      var j' := if j < keep then j else j + (from - keep);
      assert rk[j] == keys[j'] && rv[j] == vals[j'];
    }
  }
}
