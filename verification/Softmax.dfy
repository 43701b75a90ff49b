/**
 Masked, max-shifted softmax followed by a weighted sum: the arithmetic of one attention output
 number. A masked position has weight exactly 0, so masked positions can be added or removed
 anywhere without changing the result.
 */
module Softmax {
  import opened Layout

  /** A raw attention score; masked positions take no part. */
  datatype Score = Masked | Val(x: real)

  /** Running maximum of the unmasked scores; None stands for minus infinity. */
  function MaxScore(s: seq<Score>): Option<real> {
    if s == [] then None
    else Larger(MaxScore(s[..|s| - 1]), s[|s| - 1])
  }

  function Larger(m: Option<real>, s: Score): Option<real> {
    match s
    case Masked => m
    case Val(x) => if m.None? || m.value < x then Some(x) else m
  }

  function Weight(exp: real -> real, s: Score, m: Option<real>): real {
    if s.Masked? || m.None? then 0.0 else exp(s.x - m.value)
  }

  function Weights(exp: real -> real, s: seq<Score>, m: Option<real>): (w: seq<real>)
    ensures |w| == |s|
  {
    seq(|s|, j requires 0 <= j < |s| => Weight(exp, s[j], m))
  }

  function Sum(w: seq<real>): real {
    if w == [] then 0.0 else Sum(w[..|w| - 1]) + w[|w| - 1]
  }

  function Inverse(sum: real): real { if sum > 0.0 then 1.0 / sum else 0.0 }

  function Scaled(w: seq<real>, c: real): (r: seq<real>)
    ensures |r| == |w| && forall j :: 0 <= j < |w| ==> r[j] == w[j] * c
  {
    seq(|w|, j requires 0 <= j < |w| => w[j] * c)
  }

  /** The normalised weights of a row of scores. */
  function Probs(exp: real -> real, s: seq<Score>): (p: seq<real>)
    ensures |p| == |s|
  {
    var w := Weights(exp, s, MaxScore(s));
    Scaled(w, Inverse(Sum(w)))
  }

  /** Weighted sum of one column of values. */
  function Mix(p: seq<real>, col: seq<real>): real
    requires |p| == |col|
  {
    if p == [] then 0.0 else Mix(p[..|p| - 1], col[..|p| - 1]) + p[|p| - 1] * col[|p| - 1]
  }

  lemma ScaledConcat(a: seq<real>, b: seq<real>, c: real)
    ensures Scaled(a + b, c) == Scaled(a, c) + Scaled(b, c)
  {
    forall j | 0 <= j < |a| + |b| ensures Scaled(a + b, c)[j] == (Scaled(a, c) + Scaled(b, c))[j] {
      if j < |a| { assert (a + b)[j] == a[j]; } else { assert (a + b)[j] == b[j - |a|]; }
    }
  }

  // ----- masked positions do not matter -----

  predicate AllMasked(s: seq<Score>) { forall j :: 0 <= j < |s| ==> s[j].Masked? }

  function Best(a: Option<real>, b: Option<real>): Option<real> {
    if b.None? then a else Larger(a, Val(b.value))
  }

  lemma {:induction false} MaxOfConcat(a: seq<Score>, b: seq<Score>)
    ensures MaxScore(a + b) == Best(MaxScore(a), MaxScore(b))
  {
    if b == [] {
      assert a + b == a;
    } else {
      assert (a + b)[..|a + b| - 1] == a + b[..|b| - 1];
      MaxOfConcat(a, b[..|b| - 1]);
    }
  }

  lemma {:induction false} MaxOfMasked(m: seq<Score>)
    requires AllMasked(m)
    ensures MaxScore(m) == None
  {
    if m != [] { MaxOfMasked(m[..|m| - 1]); }
  }

  lemma {:induction false} SumOfConcat(a: seq<real>, b: seq<real>)
    ensures Sum(a + b) == Sum(a) + Sum(b)
  {
    if b == [] {
      assert a + b == a;
    } else {
      assert (a + b)[..|a + b| - 1] == a + b[..|b| - 1];
      SumOfConcat(a, b[..|b| - 1]);
    }
  }

  lemma {:induction false} SumOfZeros(z: seq<real>)
    requires forall j :: 0 <= j < |z| ==> z[j] == 0.0
    ensures Sum(z) == 0.0
  {
    if z != [] { SumOfZeros(z[..|z| - 1]); }
  }

  lemma {:induction false} MixOfConcat(p: seq<real>, q: seq<real>, c: seq<real>, d: seq<real>)
    requires |p| == |c| && |q| == |d|
    ensures Mix(p + q, c + d) == Mix(p, c) + Mix(q, d)
  {
    if q == [] {
      assert p + q == p && c + d == c;
    } else {
      assert (p + q)[..|p + q| - 1] == p + q[..|q| - 1];
      assert (c + d)[..|p + q| - 1] == c + d[..|q| - 1];
      MixOfConcat(p, q[..|q| - 1], c, d[..|q| - 1]);
    }
  }

  lemma {:induction false} MixOfZeros(z: seq<real>, c: seq<real>)
    requires |z| == |c| && forall j :: 0 <= j < |z| ==> z[j] == 0.0
    ensures Mix(z, c) == 0.0
  {
    if z != [] { MixOfZeros(z[..|z| - 1], c[..|z| - 1]); }
  }

  /** One attention output number: the softmax of the scores applied to a column of values. */
  function Attend(exp: real -> real, s: seq<Score>, col: seq<real>): real
    requires |s| == |col|
  {
    Mix(Probs(exp, s), col)
  }

  lemma WeightsConcat(exp: real -> real, a: seq<Score>, b: seq<Score>, m: Option<real>)
    ensures Weights(exp, a + b, m) == Weights(exp, a, m) + Weights(exp, b, m)
  {}

  lemma CutMaskedWeights(exp: real -> real, a: seq<Score>, m: seq<Score>, b: seq<Score>)
    requires AllMasked(m)
    ensures MaxScore(a + m + b) == MaxScore(a + b)
    ensures var top := MaxScore(a + b);
      && Weights(exp, a + m + b, top) == Weights(exp, a, top) + Weights(exp, m, top) + Weights(exp, b, top)
      && Weights(exp, a + b, top) == Weights(exp, a, top) + Weights(exp, b, top)
      && Sum(Weights(exp, a + m + b, top)) == Sum(Weights(exp, a + b, top))
      && forall j :: 0 <= j < |m| ==> Weights(exp, m, top)[j] == 0.0
  {
    MaxOfConcat(a + m, b);
    MaxOfConcat(a, m);
    MaxOfMasked(m);
    MaxOfConcat(a, b);
    var top := MaxScore(a + b);
    var wa, wm, wb := Weights(exp, a, top), Weights(exp, m, top), Weights(exp, b, top);
    WeightsConcat(exp, a + m, b, top);
    WeightsConcat(exp, a, m, top);
    WeightsConcat(exp, a, b, top);
    SumOfConcat(wa + wm, wb);
    SumOfConcat(wa, wm);
    SumOfZeros(wm);
    SumOfConcat(wa, wb);
  }

  lemma CutZeros(wa: seq<real>, wm: seq<real>, wb: seq<real>, inv: real, ca: seq<real>, cm: seq<real>, cb: seq<real>)
    requires |wa| == |ca| && |wm| == |cm| && |wb| == |cb|
    requires forall j :: 0 <= j < |wm| ==> wm[j] == 0.0
    ensures Mix(Scaled(wa + wm + wb, inv), ca + cm + cb) == Mix(Scaled(wa + wb, inv), ca + cb)
  {
    var pa, pm, pb := Scaled(wa, inv), Scaled(wm, inv), Scaled(wb, inv);
    ScaledConcat(wa + wm, wb, inv);
    ScaledConcat(wa, wm, inv);
    ScaledConcat(wa, wb, inv);
    forall j | 0 <= j < |pm| ensures pm[j] == 0.0 { assert wm[j] == 0.0; }
    MixOfConcat(pa + pm, pb, ca + cm, cb);
    MixOfConcat(pa, pm, ca, cm);
    MixOfZeros(pm, cm);
    MixOfConcat(pa, pb, ca, cb);
  }

  /** A block of masked positions, whatever values it carries, can be cut out. */
  lemma CutMasked(exp: real -> real, a: seq<Score>, m: seq<Score>, b: seq<Score>, ca: seq<real>, cm: seq<real>, cb: seq<real>)
    requires |a| == |ca| && |m| == |cm| && |b| == |cb| && AllMasked(m)
    ensures Attend(exp, a + m + b, ca + cm + cb) == Attend(exp, a + b, ca + cb)
  {
    CutMaskedWeights(exp, a, m, b);
    var top := MaxScore(a + b);
    var wa, wm, wb := Weights(exp, a, top), Weights(exp, m, top), Weights(exp, b, top);
    CutZeros(wa, wm, wb, Inverse(Sum(wa + wb)), ca, cm, cb);
  }

  // ----- what the weights are -----

  lemma {:induction false} MaxIsSomeUnlessMasked(s: seq<Score>)
    ensures MaxScore(s).None? <==> AllMasked(s)
    ensures MaxScore(s).Some? ==> Val(MaxScore(s).value) in s
    ensures forall j :: 0 <= j < |s| && s[j].Val? ==> MaxScore(s).Some? && s[j].x <= MaxScore(s).value
  {
    if s != [] {
      var t := s[..|s| - 1];
      MaxIsSomeUnlessMasked(t);
      forall j | 0 <= j < |s| && s[j].Val? ensures MaxScore(s).Some? && s[j].x <= MaxScore(s).value {
        if j < |t| { assert t[j] == s[j]; }
      }
      if AllMasked(s) {
        forall j | 0 <= j < |t| ensures t[j].Masked? { assert t[j] == s[j]; }
      }
    }
  }

  lemma {:induction false} SumNonNegative(w: seq<real>)
    requires forall j :: 0 <= j < |w| ==> w[j] >= 0.0
    ensures Sum(w) >= 0.0
    ensures forall j :: 0 <= j < |w| ==> Sum(w) >= w[j]
  {
    if w != [] { SumNonNegative(w[..|w| - 1]); }
  }

  lemma {:induction false} SumOfScaled(w: seq<real>, c: real)
    ensures Sum(Scaled(w, c)) == Sum(w) * c
  {
    if w != [] {
      var t, x := w[..|w| - 1], w[|w| - 1];
      SumOfScaled(t, c);
      assert w == t + [x];
      ScaledConcat(t, [x], c);
      assert Scaled(w, c)[..|t|] == Scaled(t, c);
      Distribute(Sum(t), x, c);
    }
  }

  /** With at least one visible position the weights are a probability distribution. */
  lemma ProbsAreDistribution(exp: real -> real, s: seq<Score>)
    requires forall x: real :: exp(x) > 0.0
    requires !AllMasked(s)
    ensures Sum(Probs(exp, s)) == 1.0
    ensures forall j :: 0 <= j < |s| ==> Probs(exp, s)[j] >= 0.0 && (s[j].Masked? <==> Probs(exp, s)[j] == 0.0)
  {
    MaxIsSomeUnlessMasked(s);
    var w := Weights(exp, s, MaxScore(s));
    forall j | 0 <= j < |s| ensures w[j] >= 0.0 && (s[j].Masked? <==> w[j] == 0.0) {}
    var j0 :| 0 <= j0 < |s| && s[j0].Val?;
    SumNonNegative(w);
    assert Sum(w) > 0.0;
    Normalised(w, Sum(w));
  }

  lemma Normalised(w: seq<real>, total: real)
    requires total == Sum(w) && total > 0.0 && forall j :: 0 <= j < |w| ==> w[j] >= 0.0
    ensures var p := Scaled(w, Inverse(total));
      Sum(p) == 1.0 && forall j :: 0 <= j < |w| ==> p[j] >= 0.0 && (p[j] == 0.0 <==> w[j] == 0.0)
  {
    hide Inverse, Sum;
    var inv := Inverse(total);
    SumOfScaled(w, inv);
    InverseCancels(total);
    var p := Scaled(w, inv);
    forall j | 0 <= j < |w| ensures p[j] >= 0.0 && (p[j] == 0.0 <==> w[j] == 0.0) {
      ProductSign(w[j], inv, p[j]);
    }
  }

  lemma InverseCancels(total: real)
    requires total > 0.0
    ensures total * Inverse(total) == 1.0 && Inverse(total) > 0.0
  {}

  lemma Distribute(x: real, y: real, c: real)
    ensures (x + y) * c == x * c + y * c
  {}

  lemma ProductSign(x: real, y: real, p: real)
    requires x >= 0.0 && y > 0.0 && p == x * y
    ensures p >= 0.0 && (p == 0.0 <==> x == 0.0)
  {}
}
