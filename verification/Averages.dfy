/**
 What attention computes, in arithmetic: each output number times the sum of the exponentials of
 the scores is the sum of the exponentials times the values, over one explicit range of keys.
 */
module Averages {
  import opened Layout
  import opened Softmax
  import opened AttentionSpec
  import opened Sums

  /** The laws of the exponential. */
  ghost predicate Exponential(exp: real -> real) { (forall x :: exp(x) > 0.0) && forall x, y :: Multiplies(exp, x, y) }

  predicate Multiplies(exp: real -> real, x: real, y: real) { exp(x + y) == exp(x) * exp(y) }

  /** The exponentials of the scores from `lo` on. */
  function Exps(exp: real -> real, s: nat -> real, lo: nat): nat -> real { (j: nat) => exp(s(lo + j)) }

  /** The same, each times the value it weights. */
  function Weighted(exp: real -> real, s: nat -> real, v: nat -> real, lo: nat): nat -> real { (j: nat) => exp(s(lo + j)) * v(lo + j) }

  /** `x` is the average of `v` over [lo, hi), weighted by the exponentials of the scores `s`. */
  ghost predicate IsAverage(exp: real -> real, s: nat -> real, v: nat -> real, lo: nat, hi: nat, x: real) {
    && lo < hi && SumTo(hi - lo, Exps(exp, s, lo)) > 0.0
    && x * SumTo(hi - lo, Exps(exp, s, lo)) == SumTo(hi - lo, Weighted(exp, s, v, lo))
  }

  /** The score of a raw dot product: scaled, by default with the inverse root of the width, then capped. */
  function Strength(f: Fns, o: Opts, width: nat, raw: real): real {
    Squashed(f, o, Stretched(f, o, width, raw))
  }

  function Stretched(f: Fns, o: Opts, width: nat, raw: real): real { raw * (if o.scale > 0.0 then o.scale else f.invSqrt(width)) }

  function Squashed(f: Fns, o: Opts, x: real): real { if o.softcap > 0.0 then f.tanh(x / o.softcap) * o.softcap else x }

  // ----- softmax without its maximum -----

  predicate Unmasked(sc: seq<Score>) { forall j :: 0 <= j < |sc| ==> sc[j].Val? }

  lemma {:induction false} MixOfScaled(w: seq<real>, c: real, col: seq<real>)
    requires |w| == |col|
    ensures Mix(Scaled(w, c), col) == Mix(w, col) * c
  {
    if w != [] {
      var n := |w| - 1;
      MixOfScaled(w[..n], c, col[..n]);
      assert Scaled(w, c)[..n] == Scaled(w[..n], c) by {
        forall j | 0 <= j < n ensures Scaled(w, c)[..n][j] == Scaled(w[..n], c)[j] { assert w[..n][j] == w[j]; }
      }
      Terms(Mix(w[..n], col[..n]), w[n], col[n], c);
    }
  }

  lemma Terms(rest: real, x: real, y: real, c: real)
    ensures (rest + x * y) * c == rest * c + x * c * y
  {
    assert (rest + x * y) * c == rest * c + x * y * c;
    assert x * c * y == x * y * c;
  }

  /** Weights are exponentials of scores, up to one common factor. */
  lemma Shifted(exp: real -> real, x: real, m: real)
    requires Exponential(exp)
    ensures exp(x - m) * exp(m) == exp(x)
  {
    assert Multiplies(exp, x - m, m);
    assert (x - m) + m == x;
  }

  /** The scores are those of `s` from `lo` on, and the column that of `v`. */
  predicate Reads(sc: seq<Score>, col: seq<real>, s: nat -> real, v: nat -> real, lo: nat) {
    |col| == |sc| && forall j: nat :: j < |sc| ==> sc[j] == Val(s(lo + j)) && col[j] == v(lo + j)
  }

  lemma {:induction false} SumsOfWeights(exp: real -> real, sc: seq<Score>, m: real, col: seq<real>, s: nat -> real, v: nat -> real, lo: nat, n: nat)
    requires Exponential(exp) && Reads(sc, col, s, v, lo) && n <= |sc|
    ensures Sum(Weights(exp, sc, Some(m))[..n]) * exp(m) == SumTo(n, Exps(exp, s, lo))
    ensures Mix(Weights(exp, sc, Some(m))[..n], col[..n]) * exp(m) == SumTo(n, Weighted(exp, s, v, lo))
  {
    hide *;
    var w := Weights(exp, sc, Some(m));
    ReadsSizes(sc, col, s, v, lo);
    if n == 0 {
      NoTerms(exp, w, col, s, v, lo, exp(m));
    } else {
      SumsOfWeights(exp, sc, m, col, s, v, lo, n - 1);
      OneWeight(exp, sc, m, col, s, v, lo, n - 1);
      Prefixes(w, col, n);
      LastTerms(exp, s, v, lo, n);
      OneMore(Sum(w[..n - 1]), w[n - 1], exp(m), exp(s(lo + (n - 1))));
      OneMoreTimes(Mix(w[..n - 1], col[..n - 1]), w[n - 1], col[n - 1], exp(m), exp(s(lo + (n - 1))));
    }
  }

  lemma NoTerms(exp: real -> real, w: seq<real>, col: seq<real>, s: nat -> real, v: nat -> real, lo: nat, e: real)
    requires |w| == |col|
    ensures Sum(w[..0]) * e == SumTo(0, Exps(exp, s, lo)) && Mix(w[..0], col[..0]) * e == SumTo(0, Weighted(exp, s, v, lo))
  {}

  lemma ReadsSizes(sc: seq<Score>, col: seq<real>, s: nat -> real, v: nat -> real, lo: nat)
    requires Reads(sc, col, s, v, lo)
    ensures |sc| == |col|
  {}

  lemma LastTerms(exp: real -> real, s: nat -> real, v: nat -> real, lo: nat, n: nat)
    requires n > 0
    ensures SumTo(n, Exps(exp, s, lo)) == SumTo(n - 1, Exps(exp, s, lo)) + exp(s(lo + (n - 1)))
    ensures SumTo(n, Weighted(exp, s, v, lo)) == SumTo(n - 1, Weighted(exp, s, v, lo)) + exp(s(lo + (n - 1))) * v(lo + (n - 1))
  {
    assert Exps(exp, s, lo)(n - 1) == exp(s(lo + (n - 1)));
    assert Weighted(exp, s, v, lo)(n - 1) == exp(s(lo + (n - 1))) * v(lo + (n - 1));
  }

  lemma Prefixes(w: seq<real>, col: seq<real>, n: nat)
    requires 0 < n <= |w| == |col|
    ensures Sum(w[..n]) == Sum(w[..n - 1]) + w[n - 1]
    ensures Mix(w[..n], col[..n]) == Mix(w[..n - 1], col[..n - 1]) + w[n - 1] * col[n - 1]
  {
    assert w[..n][..n - 1] == w[..n - 1] && col[..n][..n - 1] == col[..n - 1];
  }

  lemma OneWeight(exp: real -> real, sc: seq<Score>, m: real, col: seq<real>, s: nat -> real, v: nat -> real, lo: nat, j: nat)
    requires Exponential(exp) && Reads(sc, col, s, v, lo) && j < |sc|
    ensures Weights(exp, sc, Some(m))[j] * exp(m) == exp(s(lo + j)) && col[j] == v(lo + j)
  {
    assert sc[j] == Val(s(lo + j));
    Shifted(exp, s(lo + j), m);
  }

  lemma OneMore(a: real, w: real, e: real, x: real)
    requires w * e == x
    ensures (a + w) * e == a * e + x
  {}

  lemma OneMoreTimes(b: real, w: real, y: real, e: real, x: real)
    requires w * e == x
    ensures (b + w * y) * e == b * e + x * y
  {
    assert (b + w * y) * e == b * e + w * y * e;
    assert w * y * e == w * e * y;
  }

  lemma ExpsAt(exp: real -> real, s: nat -> real, lo: nat, j: nat)
    requires Exponential(exp)
    ensures Exps(exp, s, lo)(j) > 0.0
  {
    var x := s(lo + j);
    assert exp(x) > 0.0;
  }

  lemma UnmaskedAverages(exp: real -> real, sc: seq<Score>, col: seq<real>, s: nat -> real, v: nat -> real, lo: nat)
    requires Exponential(exp) && Reads(sc, col, s, v, lo) && sc != []
    ensures IsAverage(exp, s, v, lo, lo + |sc|, Attend(exp, sc, col))
  {
    hide Sum, Mix, MaxScore, Weights, SumTo, Inverse;
    var n := |sc|;
    assert sc[0] == Val(s(lo + 0));
    MaxIsSomeUnlessMasked(sc);
    var m := MaxScore(sc).value;
    var w := Weights(exp, sc, Some(m));
    assert w[..n] == w && col[..n] == col;
    SumsOfWeights(exp, sc, m, col, s, v, lo, n);
    forall j: nat | j < n ensures Exps(exp, s, lo)(j) > 0.0 { ExpsAt(exp, s, lo, j); }
    SumPositive(n, Exps(exp, s, lo));
    MixOfScaled(w, Inverse(Sum(w)), col);
    Cancel(Sum(w), Mix(w, col), exp(m), Inverse(Sum(w)));
  }

  lemma Cancel(total: real, mix: real, e: real, inv: real)
    requires e > 0.0 && total * e > 0.0 && inv == Inverse(total)
    ensures mix * inv * (total * e) == mix * e
  {
    PositiveFactor(total, e);
    assert inv * total == 1.0;
    Regroup(mix, inv, total, e);
  }

  lemma PositiveFactor(x: real, e: real)
    requires e > 0.0 && x * e > 0.0
    ensures x > 0.0
  {}

  lemma Regroup(mix: real, inv: real, total: real, e: real)
    ensures mix * inv * (total * e) == mix * (inv * total) * e
  {}

  /** Scores masked outside [lo, hi) average the values inside. */
  lemma AttendAverages(exp: real -> real, sc: seq<Score>, col: seq<real>, s: nat -> real, v: nat -> real, lo: nat, hi: nat)
    requires Exponential(exp) && |sc| == |col| && lo < hi <= |sc| && Reads(sc[lo..hi], col[lo..hi], s, v, lo)
    requires AllMasked(sc[..lo]) && AllMasked(sc[hi..])
    ensures IsAverage(exp, s, v, lo, hi, Attend(exp, sc, col))
  {
    hide *;
    UnmaskedAverages(exp, sc[lo..hi], col[lo..hi], s, v, lo);
    CutBoth(exp, sc, col, lo, hi);
  }

  lemma CutBoth(exp: real -> real, sc: seq<Score>, col: seq<real>, lo: nat, hi: nat)
    requires |sc| == |col| && lo < hi <= |sc| && AllMasked(sc[..lo]) && AllMasked(sc[hi..])
    ensures Attend(exp, sc, col) == Attend(exp, sc[lo..hi], col[lo..hi])
  {
    hide *;
    CutTail(exp, sc, col, hi);
    assert sc[..hi] == [] + sc[..lo] + sc[lo..hi] && col[..hi] == [] + col[..lo] + col[lo..hi];
    CutMasked(exp, [], sc[..lo], sc[lo..hi], [], col[..lo], col[lo..hi]);
    assert [] + sc[lo..hi] == sc[lo..hi] && [] + col[lo..hi] == col[lo..hi];
  }

  lemma SameTerms(exp: real -> real, s: nat -> real, v: nat -> real, s': nat -> real, v': nat -> real, lo: nat, j: nat)
    requires s(lo + j) == s'(lo + j) && v(lo + j) == v'(lo + j)
    ensures Exps(exp, s, lo)(j) == Exps(exp, s', lo)(j) && Weighted(exp, s, v, lo)(j) == Weighted(exp, s', v', lo)(j)
  {}

  /** An average depends on the scores and values inside its range only. */
  lemma SameAverage(exp: real -> real, s: nat -> real, v: nat -> real, s': nat -> real, v': nat -> real, lo: nat, hi: nat, n: nat, x: real)
    requires IsAverage(exp, s, v, lo, hi, x) && hi <= n && (forall j: nat :: j < n ==> s(j) == s'(j)) && forall j: nat :: j < n ==> v(j) == v'(j)
    ensures IsAverage(exp, s', v', lo, hi, x)
  {
    hide SumTo, Exps, Weighted;
    forall j: nat | j < hi - lo ensures Exps(exp, s, lo)(j) == Exps(exp, s', lo)(j) && Weighted(exp, s, v, lo)(j) == Weighted(exp, s', v', lo)(j) {
      SameTerms(exp, s, v, s', v', lo, j);
    }
    SumSame(hi - lo, Exps(exp, s, lo), Exps(exp, s', lo));
    SumSame(hi - lo, Weighted(exp, s, v, lo), Weighted(exp, s', v', lo));
  }

  // ----- one row -----

  /** Row `j` of a list; empty outside it. */
  function Nth(rows: Lane, j: nat): Row { if j < |rows| then rows[j] else [] }

  /** The score of key row `j` for query head `h`. */
  function RowScore(f: Fns, o: Opts, hd: Heads, q: Row, keys: Lane, h: nat): nat -> real
    requires hd.headsPerKv > 0
  {
    (j: nat) => Strength(f, o, hd.headDim, SumTo(hd.headDim, Products(q, Span(h, hd.headDim), Nth(keys, j), Span(KvHead(h, hd.headsPerKv), hd.headDim))))
  }

  /** Number `d` of the value head that query head `h` reads, in row `j`. */
  function RowValue(hd: Heads, vals: Lane, h: nat, d: nat): nat -> real
    requires hd.headsPerKv > 0
  {
    (j: nat) => At(Nth(vals, j), Span(KvHead(h, hd.headsPerKv), hd.vHeadDim) + d)
  }

  /** First key that a query at index `i` reads. */
  function From(o: Opts, i: nat): nat { if 0 < o.window <= i then i + 1 - o.window else 0 }

  /** One past the last key that a query at index `i` reads of `n`. */
  function Upto(o: Opts, i: nat, n: nat): nat { if o.causal then i + 1 else n }

  lemma ProductsAt(a: Row, ao: nat, b: Row, bo: nat, e: nat)
    requires ao + e < |a| && bo + e < |b|
    ensures Products(a, ao, b, bo)(e) == a[ao + e] * b[bo + e]
  {
    assert At(a, ao + e) == a[ao + e] && At(b, bo + e) == b[bo + e];
  }

  lemma {:induction false} DotIsSum(a: Row, ao: nat, b: Row, bo: nat, n: nat)
    requires ao + n <= |a| && bo + n <= |b|
    ensures DotAt(a, ao, b, bo, n) == SumTo(n, Products(a, ao, b, bo))
  {
    if n > 0 {
      DotIsSum(a, ao, b, bo, n - 1);
      ProductsAt(a, ao, b, bo, n - 1);
    }
  }

  lemma CapIsStrength(f: Fns, o: Opts, width: nat, raw: real)
    ensures ScaleAndCap(f, o, width, raw) == Strength(f, o, width, raw)
  {
    hide Capped, Squashed, Sized, Stretched;
    SizedIsStretched(f, o, width, raw);
    CapIsSquash(f, o, Sized(f, o, width, raw));
  }

  lemma SizedIsStretched(f: Fns, o: Opts, width: nat, raw: real)
    ensures Sized(f, o, width, raw) == Stretched(f, o, width, raw)
  {}

  lemma CapIsSquash(f: Fns, o: Opts, x: real)
    ensures Capped(f, o, x) == Squashed(f, o, x)
  {
    if o.softcap > 0.0 { Turned(o.softcap, f.tanh(x / o.softcap)); }
  }

  lemma Turned(x: real, y: real)
    ensures x * y == y * x
  {}

  /** The score of a key is its strength. */
  lemma LogitIsStrength(f: Fns, o: Opts, hd: Heads, q: Row, keys: Lane, vals: Lane, h: nat, j: nat)
    requires Roomy(hd, q, keys, vals) && h < hd.heads && j < |keys|
    ensures Span(h, hd.headDim) + hd.headDim <= |q| && Span(KvHead(h, hd.headsPerKv), hd.headDim) + hd.headDim <= |keys[j]|
    ensures Logit(f, o, hd.headDim, q, Span(h, hd.headDim), keys[j], Span(KvHead(h, hd.headsPerKv), hd.headDim)) == RowScore(f, o, hd, q, keys, h)(j)
  {
    hide SumTo, DotAt, Span, KvHead, Products;
    HeadInQuery(hd, h);
    DotIsSum(q, Span(h, hd.headDim), keys[j], Span(KvHead(h, hd.headsPerKv), hd.headDim), hd.headDim);
    CapIsStrength(f, o, hd.headDim, DotAt(q, Span(h, hd.headDim), keys[j], Span(KvHead(h, hd.headsPerKv), hd.headDim), hd.headDim));
  }

  /** Number `d` of head `h` stands in its head's stretch of the row. */
  lemma {:induction false} HeadsEntry(f: Fns, o: Opts, hd: Heads, q: Row, keys: Lane, vals: Lane, i: nat, allowed: nat -> bool, n: nat, h: nat, d: nat)
    requires Roomy(hd, q, keys, vals) && h < n <= hd.heads && d < hd.vHeadDim
    ensures Span(h, hd.vHeadDim) + d < Span(n, hd.vHeadDim)
    ensures AllowedHeads(f, o, hd, q, keys, vals, i, allowed, n)[Span(h, hd.vHeadDim) + d] == Entry(f, o, hd, q, keys, vals, i, allowed, h, d)
  {
    hide Roomy, Entry;
    SpanApart(h, n, hd.vHeadDim);
    if h < n - 1 { HeadsEntry(f, o, hd, q, keys, vals, i, allowed, n - 1, h, d); }
  }

  /** Every number of an output row is the average over the keys that causality and the sliding window leave. */
  lemma RowAverages(f: Fns, o: Opts, hd: Heads, q: Row, keys: Lane, vals: Lane, i: nat, h: nat, d: nat)
    requires Exponential(f.exp) && Roomy(hd, q, keys, vals) && i < |keys| && h < hd.heads && d < hd.vHeadDim
    ensures Span(h, hd.vHeadDim) + d < Span(hd.heads, hd.vHeadDim)
    ensures IsAverage(f.exp, RowScore(f, o, hd, q, keys, h), RowValue(hd, vals, h, d), From(o, i), Upto(o, i, |keys|),
                      OutRow(f, o, hd, q, keys, vals, i)[Span(h, hd.vHeadDim) + d])
  {
    hide AllowedHeads, Attend, IsAverage, Exponential, Entry, RowScore, RowValue, Roomy, HeadScores, HeadColumn;
    HeadsEntry(f, o, hd, q, keys, vals, i, Everything(), hd.heads, h, d);
    EntryAverages(f, o, hd, q, keys, vals, i, h, d);
  }

  lemma EntryAverages(f: Fns, o: Opts, hd: Heads, q: Row, keys: Lane, vals: Lane, i: nat, h: nat, d: nat)
    requires Exponential(f.exp) && Roomy(hd, q, keys, vals) && i < |keys| && h < hd.heads && d < hd.vHeadDim
    ensures IsAverage(f.exp, RowScore(f, o, hd, q, keys, h), RowValue(hd, vals, h, d), From(o, i), Upto(o, i, |keys|),
                      Entry(f, o, hd, q, keys, vals, i, Everything(), h, d))
  {
    hide Attend, IsAverage, Exponential, RowScore, Logit, AllowedScores, Span, KvHead;
    EverythingScores(f, o, hd, q, keys, vals, i, h);
    var sc, col := HeadScores(f, o, hd, q, keys, vals, i, h), HeadColumn(hd, q, keys, vals, h, d);
    var s, v := RowScore(f, o, hd, q, keys, h), RowValue(hd, vals, h, d);
    var lo, hi := From(o, i), Upto(o, i, |keys|);
    forall j: nat | j < hi - lo ensures sc[lo..hi][j] == Val(s(lo + j)) && col[lo..hi][j] == v(lo + j) {
      LogitIsStrength(f, o, hd, q, keys, vals, h, lo + j);
    }
    AttendAverages(f.exp, sc, col, s, v, lo, hi);
  }
}
