/**
 Mixture-of-experts layers: each row picks its top experts by probability, renormalises their
 weights and mixes their gated outputs. The experts come packed in one bank or as a list in which
 only the selected ones need to be present; with the same choice both give the same rows.
 */
module Moe {
  import opened Layout
  import opened KvModel
  import opened Sums
  import opened Topology
  import A = AttentionSpec
  import V = Averages

  datatype MoeError = BadRank | BadShape | UnknownWidth | BadExpert | NotPagedIn(expert: nat)

  // ----- choosing experts -----

  /** The `k` most probable experts in descending order; ties may fall either way. */
  predicate IsTopK(probs: seq<real>, k: nat, chosen: seq<nat>) {
    && |chosen| == k && Distinct(chosen)
    && (forall t :: 0 <= t < k ==> chosen[t] < |probs|)
    && (forall t, u :: 0 <= t < u < k ==> probs[chosen[t]] >= probs[chosen[u]])
    && (forall t, e :: 0 <= t < k && 0 <= e < |probs| && e !in chosen ==> probs[chosen[t]] >= probs[e])
  }

  /** The first choice is a maximum; of three given probabilities the two largest are chosen, the larger one first. */
  lemma TopKMeans(probs: seq<real>, k: nat, chosen: seq<nat>)
    requires IsTopK(probs, k, chosen)
    ensures k > 0 ==> chosen[0] < |probs| && forall e :: 0 <= e < |probs| ==> probs[e] <= probs[chosen[0]]
    ensures probs == [0.2, 0.7, 0.1] && k == 2 ==> chosen == [1, 0]
  {
    if k > 0 {
      forall e | 0 <= e < |probs| ensures probs[e] <= probs[chosen[0]] {
        if e in chosen {
          var t :| 0 <= t < k && chosen[t] == e;
          assert t == 0 || probs[chosen[0]] >= probs[chosen[t]];
        } else {
          assert probs[chosen[0]] >= probs[e];
        }
      }
    }
    if probs == [0.2, 0.7, 0.1] && k == 2 {
      assert chosen[0] == 1 by { assert probs[1] <= probs[chosen[0]]; }
      NextIsLargest(probs, k, chosen, 0);
    }
  }

  /** The second choice is a maximum of the rest. */
  lemma NextIsLargest(probs: seq<real>, k: nat, chosen: seq<nat>, e: nat)
    requires IsTopK(probs, k, chosen) && k > 1 && e < |probs| && e != chosen[0]
    ensures probs[chosen[1]] >= probs[e]
  {
    if e in chosen {
      var t :| 0 <= t < k && chosen[t] == e;
      assert t == 1 || probs[chosen[1]] >= probs[chosen[t]];
    }
  }

  /** Selects a most probable unchosen expert. */
  method NextBest(probs: seq<real>, chosen: seq<nat>) returns (best: nat)
    requires |chosen| < |probs| && Distinct(chosen) && forall t :: 0 <= t < |chosen| ==> chosen[t] < |probs|
    ensures best < |probs| && best !in chosen && forall e :: 0 <= e < |probs| && e !in chosen ==> probs[best] >= probs[e]
  {
    Unchosen(chosen, |probs|);
    best :| 0 <= best < |probs| && best !in chosen;
    for e := 0 to |probs|
      invariant best < |probs| && best !in chosen && forall d :: 0 <= d < e && d !in chosen ==> probs[best] >= probs[d]
    {
      var tie: bool := *;
      if e !in chosen && (probs[e] > probs[best] || (tie && probs[e] == probs[best])) { best := e; }
    }
  }

  function Range(n: nat): (r: set<nat>)
    ensures |r| == n && forall e: nat :: e in r <==> e < n
  {
    if n == 0 then {} else Range(n - 1) + {n - 1}
  }

  lemma Unchosen(chosen: seq<nat>, n: nat)
    requires |chosen| < n && Distinct(chosen) && forall t :: 0 <= t < |chosen| ==> chosen[t] < n
    ensures exists e: nat :: e < n && e !in chosen
  {
    DistinctMembers(chosen);
    if forall e: nat :: e < n ==> e in chosen { SubsetSize(Range(n), Members(chosen)); }
  }

  method TopK(probs: seq<real>, k: nat) returns (chosen: seq<nat>)
    requires k <= |probs|
    ensures IsTopK(probs, k, chosen)
  {
    chosen := [];
    for t := 0 to k
      invariant IsTopK(probs, t, chosen)
    {
      var best := NextBest(probs, chosen);
      chosen := chosen + [best];
    }
  }

  // ----- weights -----

  function Mass(probs: seq<real>, chosen: seq<nat>, t: nat): real
    requires t <= |chosen| && forall u :: 0 <= u < |chosen| ==> chosen[u] < |probs|
  {
    if t == 0 then 0.0 else Mass(probs, chosen, t - 1) + probs[chosen[t - 1]]
  }

  /** The divisor: the selected mass, or 1 when it is not positive. */
  function Divisor(probs: seq<real>, chosen: seq<nat>): (r: real)
    requires forall u :: 0 <= u < |chosen| ==> chosen[u] < |probs|
    ensures r > 0.0
  {
    var m := Mass(probs, chosen, |chosen|);
    if m > 0.0 then m else 1.0
  }

  function Weight(probs: seq<real>, chosen: seq<nat>, t: nat): real
    requires t < |chosen| && forall u :: 0 <= u < |chosen| ==> chosen[u] < |probs|
  {
    probs[chosen[t]] / Divisor(probs, chosen)
  }

  function WeightSum(probs: seq<real>, chosen: seq<nat>, t: nat): real
    requires t <= |chosen| && forall u :: 0 <= u < |chosen| ==> chosen[u] < |probs|
  {
    if t == 0 then 0.0 else WeightSum(probs, chosen, t - 1) + Weight(probs, chosen, t - 1)
  }

  lemma Quotient(p: real, d: real)
    requires d > 0.0
    ensures p / d * d == p
  {}

  lemma Scatter(a: real, b: real, d: real)
    ensures (a + b) * d == a * d + b * d
  {}

  lemma {:induction false} WeightSumIsQuotient(probs: seq<real>, chosen: seq<nat>, t: nat, d: real)
    requires t <= |chosen| && (forall u :: 0 <= u < |chosen| ==> chosen[u] < |probs|) && d == Divisor(probs, chosen)
    ensures WeightSum(probs, chosen, t) * d == Mass(probs, chosen, t)
  {
    if t > 0 {
      WeightSumIsQuotient(probs, chosen, t - 1, d);
      Quotient(probs[chosen[t - 1]], d);
      Scatter(WeightSum(probs, chosen, t - 1), Weight(probs, chosen, t - 1), d);
    }
  }

  /** The selected weights sum to 1 exactly when the selected mass is positive. */
  lemma WeightsSumToOne(probs: seq<real>, chosen: seq<nat>)
    requires forall u :: 0 <= u < |chosen| ==> chosen[u] < |probs|
    ensures WeightSum(probs, chosen, |chosen|) == 1.0 <==> Mass(probs, chosen, |chosen|) > 0.0
  {
    var d := Divisor(probs, chosen);
    WeightSumIsQuotient(probs, chosen, |chosen|, d);
    if Mass(probs, chosen, |chosen|) > 0.0 { Cancel(WeightSum(probs, chosen, |chosen|), d, Mass(probs, chosen, |chosen|)); }
  }

  lemma Cancel(s: real, d: real, m: real)
    requires d > 0.0 && s * d == m && m == d
    ensures s == 1.0
  {
    assert (s - 1.0) * d == 0.0;
  }

  // ----- one expert -----

  type Exp = real -> real

  ghost predicate Positive(exp: Exp) { forall x :: exp(x) > 0.0 }

  /** One expert's matrices: gate and up are `width` rows of `dim`, down is `dim` rows of `width`. */
  datatype Expert = Expert(gate: seq<real>, up: seq<real>, down: seq<real>) {
    predicate Sized(dim: nat, width: nat) { |gate| == |up| == Span(width, dim) && |down| == Span(dim, width) }
  }

  function Silu(exp: Exp, g: real): real
    requires Positive(exp)
  {
    g * (1.0 / (1.0 + exp(-g)))
  }

  /** The gated hidden vector. */
  ghost function Hidden(exp: Exp, x: Row, e: Expert, width: nat): (h: Row)
    requires Positive(exp) && e.Sized(|x|, width)
    ensures |h| == width
    ensures forall i :: 0 <= i < width ==> Span(i, |x|) + |x| <= |e.gate| && h[i] == HiddenAt(exp, x, e, width, i)
  {
    assert forall i: nat :: i < width ==> Span(i, |x|) + |x| <= Span(width, |x|) by {
      forall i: nat | i < width ensures Span(i, |x|) + |x| <= Span(width, |x|) { SpanApart(i, width, |x|); }
    }
    seq(width, i requires 0 <= i < width && Positive(exp) => HiddenAt(exp, x, e, width, i))
  }

  function HiddenAt(exp: Exp, x: Row, e: Expert, width: nat, i: nat): real
    requires Positive(exp) && e.Sized(|x|, width) && i < width
  {
    SpanApart(i, width, |x|);
    Silu(exp, A.DotAt(x, 0, e.gate, Span(i, |x|), |x|)) * A.DotAt(x, 0, e.up, Span(i, |x|), |x|)
  }

  /** The gate's dot product g and the other one u, as g * u / (1 + exp(-g)). */
  function Gated(exp: Exp, x: seq<real>, xo: int, gate: seq<real>, up: seq<real>, at: int, dim: nat): real
    requires Positive(exp)
  {
    var g := SumTo(dim, Products(x, xo, gate, at));
    g * SumTo(dim, Products(x, xo, up, at)) / (1.0 + exp(-g))
  }

  lemma SiluTimes(exp: Exp, g: real, u: real)
    requires Positive(exp)
    ensures Silu(exp, g) * u == g * u / (1.0 + exp(-g)) && Silu(exp, g) * u * (1.0 + exp(-g)) == g * u
  {
    var z := 1.0 + exp(-g);
    assert z > 1.0;
    Quotients(g, u, z);
  }

  lemma Quotients(g: real, u: real, z: real)
    requires z > 0.0
    ensures g * (1.0 / z) * u == g * u / z && g * (1.0 / z) * u * z == g * u
  {
    var i := 1.0 / z;
    assert i * z == 1.0;
    assert g * i * u == (g * u) * i;
    assert (g * u) * i * z == (g * u) * (i * z);
  }

  /** `h`, times 1 + exp(-g), is g * u: the dot products of the row with row `i` of the gate matrix and of the other one. */
  predicate IsGated(exp: Exp, x: Row, e: Expert, i: nat, h: real) {
    var g, u := SumTo(|x|, Products(x, 0, e.gate, Span(i, |x|))), SumTo(|x|, Products(x, 0, e.up, Span(i, |x|)));
    h * (1.0 + exp(-g)) == g * u
  }

  lemma HiddenIsGated(exp: Exp, x: Row, e: Expert, width: nat, i: nat)
    requires Positive(exp) && e.Sized(|x|, width) && i < width
    ensures HiddenAt(exp, x, e, width, i) == Gated(exp, x, 0, e.gate, e.up, Span(i, |x|), |x|)
    ensures IsGated(exp, x, e, i, HiddenAt(exp, x, e, width, i))
  {
    hide A.DotAt, SumTo, Silu, Span, Products;
    SpanApart(i, width, |x|);
    V.DotIsSum(x, 0, e.gate, Span(i, |x|), |x|);
    V.DotIsSum(x, 0, e.up, Span(i, |x|), |x|);
    SiluTimes(exp, SumTo(|x|, Products(x, 0, e.gate, Span(i, |x|))), SumTo(|x|, Products(x, 0, e.up, Span(i, |x|))));
  }

  lemma AllGated(exp: Exp, x: Row, e: Expert, width: nat, h: Row)
    requires Positive(exp) && e.Sized(|x|, width) && |h| == width && forall i: nat :: i < width ==> h[i] == HiddenAt(exp, x, e, width, i)
    ensures forall i: nat :: i < width ==> IsGated(exp, x, e, i, h[i])
  {
    hide HiddenAt, IsGated, Gated, Span;
    forall i: nat | i < width ensures IsGated(exp, x, e, i, h[i]) { HiddenIsGated(exp, x, e, width, i); }
  }

  /** What one expert makes of a row. */
  ghost function ExpertRow(exp: Exp, x: Row, e: Expert, width: nat): (r: Row)
    requires Positive(exp) && e.Sized(|x|, width)
    ensures |r| == |x|
    ensures forall o :: 0 <= o < |x| ==> Span(o, width) + width <= |e.down| && r[o] == ExpertAt(exp, x, e, width, o)
  {
    assert forall o: nat :: o < |x| ==> Span(o, width) + width <= Span(|x|, width) by {
      forall o: nat | o < |x| ensures Span(o, width) + width <= Span(|x|, width) { SpanApart(o, |x|, width); }
    }
    seq(|x|, o requires 0 <= o < |x| && Positive(exp) => ExpertAt(exp, x, e, width, o))
  }

  ghost function ExpertAt(exp: Exp, x: Row, e: Expert, width: nat, o: nat): real
    requires Positive(exp) && e.Sized(|x|, width) && o < |x|
  {
    SpanApart(o, |x|, width);
    A.DotAt(Hidden(exp, x, e, width), 0, e.down, Span(o, width), width)
  }

  function AddScaled(a: Row, w: real, b: Row): (r: Row)
    requires |a| == |b|
    ensures |r| == |a| && forall o :: 0 <= o < |a| ==> r[o] == a[o] + w * b[o]
  {
    seq(|a|, o requires 0 <= o < |a| => a[o] + w * b[o])
  }

  function Zeros(n: nat): (r: Row)
    ensures |r| == n && forall i :: 0 <= i < n ==> r[i] == 0.0
  {
    seq(n, _ => 0.0)
  }

  /** The mixture of the first `t` chosen experts. */
  ghost function Mixed(exp: Exp, x: Row, probs: seq<real>, chosen: seq<nat>, experts: seq<Expert>, width: nat, t: nat): (r: Row)
    requires Positive(exp) && |experts| == |chosen| && t <= |chosen|
    requires forall u :: 0 <= u < |chosen| ==> chosen[u] < |probs| && (u < t ==> experts[u].Sized(|x|, width))
    ensures |r| == |x|
  {
    if t == 0 then Zeros(|x|)
    else
      AddScaled(Mixed(exp, x, probs, chosen, experts, width, t - 1), Weight(probs, chosen, t - 1), ExpertRow(exp, x, experts[t - 1], width))
  }

  // ----- the loops over one expert -----

  method Sum(a: Row, b: seq<real>, bo: nat, n: nat) returns (sum: real)
    requires n <= |a| && bo + n <= |b|
    ensures sum == A.DotAt(a, 0, b, bo, n)
  {
    sum := 0.0;
    for d := 0 to n
      invariant sum == A.DotAt(a, 0, b, bo, d)
    {
      sum := sum + a[d] * b[bo + d];
    }
  }

  method HiddenPass(exp: Exp, x: Row, e: Expert, width: nat, hid: array<real>)
    requires Positive(exp) && e.Sized(|x|, width) && hid.Length == width
    modifies hid
    ensures hid[..] == Hidden(exp, x, e, width)
    ensures forall i :: 0 <= i < width ==> IsGated(exp, x, e, i, hid[i])
  {
    hide IsGated, Gated, Hidden;
    for i := 0 to width
      invariant forall j :: 0 <= j < i ==> hid[j] == HiddenAt(exp, x, e, width, j)
    {
      SpanApart(i, width, |x|);
      var g := Sum(x, e.gate, Span(i, |x|), |x|);
      var u := Sum(x, e.up, Span(i, |x|), |x|);
      var sig := 1.0 / (1.0 + exp(-g));
      hid[i] := g * sig * u;
    }
    AllGated(exp, x, e, width, hid[..]);
  }

  /** `piece` replaces the cells from `at` on; all others are kept. */
  function Patch(before: seq<real>, at: nat, piece: Row): (r: seq<real>)
    requires at + |piece| <= |before|
    ensures |r| == |before|
    ensures forall i :: 0 <= i < |r| ==> r[i] == if at <= i < at + |piece| then piece[i - at] else before[i]
  {
    before[..at] + piece + before[at + |piece|..]
  }

  /** One chosen expert: its hidden vector, then its weighted output added to the row in place. */
  method ExpertPass(exp: Exp, x: Row, e: Expert, width: nat, w: real, hid: array<real>, y: array<real>, at: nat)
    requires Positive(exp) && e.Sized(|x|, width) && hid.Length == width && at + |x| <= y.Length && hid != y
    modifies hid, y
    ensures y[..] == Patch(old(y[..]), at, AddScaled(old(y[..])[at..at + |x|], w, ExpertRow(exp, x, e, width)))
  {
    hide Patch, AddScaled, ExpertRow, Hidden;
    ghost var before := y[..];
    HiddenPass(exp, x, e, width, hid);
    assert y[..] == before;
    OutPass(exp, x, e, width, w, hid[..], y, at, before);
  }

  /** Accumulating the weighted output is done for the cells before `o`. */
  ghost predicate Added(before: seq<real>, now: seq<real>, at: nat, w: real, row: Row, o: nat)
    requires o <= |row| && at + |row| <= |before|
  {
    && |now| == |before|
    && forall i :: 0 <= i < |now| ==> now[i] == if at <= i < at + o then before[i] + w * row[i - at] else before[i]
  }

  lemma AddedStep(before: seq<real>, now: seq<real>, at: nat, w: real, row: Row, o: nat, sum: real, next: seq<real>)
    requires o < |row| && at + |row| <= |before| && Added(before, now, at, w, row, o) && sum == row[o]
    requires |now| == |before| && next == now[at + o := now[at + o] + w * sum]
    ensures Added(before, next, at, w, row, o + 1)
  {}

  lemma AddedAll(before: seq<real>, now: seq<real>, at: nat, w: real, row: Row)
    requires at + |row| <= |before| && Added(before, now, at, w, row, |row|)
    ensures now == Patch(before, at, AddScaled(before[at..at + |row|], w, row))
  {
    var part := before[at..at + |row|];
    forall i | 0 <= i < |before| ensures now[i] == if at <= i < at + |row| then AddScaled(part, w, row)[i - at] else before[i] {
      if at <= i < at + |row| { assert part[i - at] == before[i]; }
    }
  }

  method OutAt(exp: Exp, x: Row, e: Expert, width: nat, hid: Row, o: nat) returns (sum: real)
    requires Positive(exp) && e.Sized(|x|, width) && hid == Hidden(exp, x, e, width) && o < |x|
    ensures sum == ExpertRow(exp, x, e, width)[o]
  {
    hide Hidden;
    SpanApart(o, |x|, width);
    sum := Sum(hid, e.down, Span(o, width), width);
    assert sum == ExpertAt(exp, x, e, width, o);
  }

  method OutPass(exp: Exp, x: Row, e: Expert, width: nat, w: real, hid: Row, y: array<real>, at: nat, ghost before: seq<real>)
    requires Positive(exp) && e.Sized(|x|, width) && at + |x| <= y.Length && hid == Hidden(exp, x, e, width) && before == y[..]
    modifies y
    ensures y[..] == Patch(before, at, AddScaled(before[at..at + |x|], w, ExpertRow(exp, x, e, width)))
  {
    hide Patch, AddScaled, Hidden, ExpertRow;
    ghost var row := ExpertRow(exp, x, e, width);
    assert Added(before, y[..], at, w, row, 0);
    hide Added;
    for o := 0 to |x|
      invariant Added(before, y[..], at, w, row, o)
    {
      var sum := OutAt(exp, x, e, width, hid, o);
      ghost var now := y[..];
      y[at + o] := y[at + o] + w * sum;
      AddedStep(before, now, at, w, row, o, sum, y[..]);
    }
    AddedAll(before, y[..], at, w, row);
  }
}
