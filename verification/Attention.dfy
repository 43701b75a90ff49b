/**
 The attention kernel as the program runs it: shape checks, then nested loops that fill a score
 buffer and write the output array in place. Proved to write exactly the rows of AttentionSpec.
 */
module Attention {
  import opened Layout
  import opened Softmax
  import opened AttentionSpec
  import opened Averages
  import opened KvModel
  import opened Sums

  datatype AttnError =
    | BadOperand | TooFewBytes | ShapesDiffer | BadHeads | KeyWidth | Grouping | ValueWidth | OutWidth
    | PastIncomplete | PastShape

  /** The operands of a call that passed every check, with the head layout they imply. */
  datatype Call = Call(batch: nat, qSeq: nat, past: nat, qDim: nat, kDim: nat, vDim: nat, kvHeads: nat, hd: Heads, outDim: nat,
                       q: seq<real>, k: seq<real>, v: seq<real>, pk: seq<real>, pv: seq<real>)
  {
    predicate Valid() {
      && Span(Span(batch, qSeq), qDim) <= |q| && Span(Span(batch, qSeq), kDim) <= |k| && Span(Span(batch, qSeq), vDim) <= |v|
      && Span(Span(batch, past), kDim) <= |pk| && Span(Span(batch, past), vDim) <= |pv|
      && hd.headsPerKv > 0
      && Span(hd.heads, hd.headDim) == qDim && Span(hd.heads, hd.vHeadDim) == outDim
      && Span(kvHeads, hd.headDim) == kDim && Span(kvHeads, hd.vHeadDim) == vDim
      && forall h :: 0 <= h < hd.heads ==> KvHead(h, hd.headsPerKv) < kvHeads
    }

    function KvSeq(): nat { past + qSeq }

    /** Resident keys, then the new ones. */
    function Keys(b: nat): (r: Lane)
      requires Valid() && b < batch
      ensures |r| == KvSeq() && forall j :: 0 <= j < |r| ==> |r[j]| == kDim
    {
      Lanes(pk, batch, past, kDim)[b] + Lanes(k, batch, qSeq, kDim)[b]
    }

    function Vals(b: nat): (r: Lane)
      requires Valid() && b < batch
      ensures |r| == KvSeq() && forall j :: 0 <= j < |r| ==> |r[j]| == vDim
    {
      Lanes(pv, batch, past, vDim)[b] + Lanes(v, batch, qSeq, vDim)[b]
    }

    function Queries(b: nat): (r: Lane)
      requires Valid() && b < batch
      ensures |r| == qSeq && forall i :: 0 <= i < |r| ==> |r[i]| == qDim
    {
      Lanes(q, batch, qSeq, qDim)[b]
    }

    lemma IsRoomy(b: nat)
      requires Valid() && b < batch
      ensures RoomyLane(hd, Queries(b), Keys(b), Vals(b))
    {
      forall h | 0 <= h < hd.heads
        ensures Span(KvHead(h, hd.headsPerKv), hd.headDim) + hd.headDim <= kDim
        ensures Span(KvHead(h, hd.headsPerKv), hd.vHeadDim) + hd.vHeadDim <= vDim
      {
        SpanApart(KvHead(h, hd.headsPerKv), kvHeads, hd.headDim);
        SpanApart(KvHead(h, hd.headsPerKv), kvHeads, hd.vHeadDim);
      }
    }

    /** The output of lane `b`. */
    ghost function Expected(f: Fns, o: Opts, b: nat): (r: Lane)
      requires Valid() && b < batch
      ensures |r| == qSeq
    {
      IsRoomy(b);
      LaneOut(f, o, hd, Queries(b), Keys(b), Vals(b), past)
    }

    /** The weights behind every output row are a probability distribution over the positions the query may read. */
    lemma {:induction false} WeightsAreDistribution(f: Fns, o: Opts, b: nat, i: nat, h: nat)
      requires Valid() && b < batch && i < qSeq && h < hd.heads && forall x: real :: f.exp(x) > 0.0
      ensures var q, keys, vals := Queries(b)[i], Keys(b), Vals(b);
        Roomy(hd, q, keys, vals) && Distributes(Probs(f.exp, HeadScores(f, o, hd, q, keys, vals, past + i, h)), o, past + i)
    {
      IsRoomy(b);
      assert past + i < |Keys(b)|;
      hide *;
      LaneWeights(f, o, hd, Queries(b), Keys(b), Vals(b), past, i, h);
    }
  }

  // ----- the checks, in the program's order -----

  function Numbers(s: KvShape): nat
    requires s.Proper()
  {
    Span(Span(s.batch, s.len), s.dim)
  }

  /** A negative dimension makes the element count 0, which is refused like an empty operand. */
  predicate Backed(v: View, s: KvShape) {
    v.data.Some? && s.Proper() && Numbers(s) != 0 && Numbers(s) <= |v.data.value|
  }

  function HeadLayout(o: Opts, qDim: nat, kDim: nat, vDim: nat, outDim: nat): Result<(nat, Heads), AttnError> {
    if o.numHeads <= 0 || qDim % o.numHeads != 0 then Failure(BadHeads)
    else
      var headDim := qDim / o.numHeads;
      if headDim == 0 || kDim % headDim != 0 then Failure(KeyWidth)
      else
        var kvHeads := kDim / headDim;
        if kvHeads <= 0 || o.numHeads % kvHeads != 0 then Failure(Grouping)
        else if vDim % kvHeads != 0 then Failure(ValueWidth)
        else
          var vHeadDim := vDim / kvHeads;
          if outDim != Span(o.numHeads, vHeadDim) then Failure(OutWidth)
          else Success((kvHeads, Heads(o.numHeads, headDim, o.numHeads / kvHeads, vHeadDim)))
  }

  function PastOperands(pastK: Option<View>, pastV: Option<View>, batch: nat, kDim: nat, vDim: nat)
    : Result<(nat, seq<real>, seq<real>), AttnError>
  {
    if pastK.None? && pastV.None? then Success((0, [], []))
    else if pastK.None? || pastV.None? || pastK.value.data.None? || pastV.value.data.None? then Failure(PastIncomplete)
    else
      var ks, vs := ParseShape(pastK.value), ParseShape(pastV.value);
      if ks.Failure? || vs.Failure? then Failure(BadOperand)
      else if ks.value.batch != batch || vs.value.batch != batch || ks.value.dim != kDim || vs.value.dim != vDim
              || ks.value.len != vs.value.len then Failure(PastShape)
      else if !Backed(pastK.value, ks.value) || !Backed(pastV.value, vs.value) then Failure(TooFewBytes)
      else Success((ks.value.len, pastK.value.data.value, pastV.value.data.value))
  }

  function CheckCall(q: View, k: View, v: View, out: View, o: Opts, pastK: Option<View>, pastV: Option<View>)
    : Result<Call, AttnError>
  {
    var qs, ks, vs, os := ParseShape(q), ParseShape(k), ParseShape(v), ParseShape(out);
    if qs.Failure? || ks.Failure? || vs.Failure? || os.Failure? then Failure(BadOperand)
    else if !Backed(q, qs.value) || !Backed(k, ks.value) || !Backed(v, vs.value) || !Backed(out, os.value) then Failure(TooFewBytes)
    else
      var batch, n := qs.value.batch, qs.value.len;
      if batch != ks.value.batch || batch != vs.value.batch || batch != os.value.batch || n != os.value.len
         || ks.value.len != vs.value.len || n != ks.value.len then Failure(ShapesDiffer)
      else
        var layout := HeadLayout(o, qs.value.dim, ks.value.dim, vs.value.dim, os.value.dim);
        if layout.Failure? then Failure(layout.error)
        else
          var past := PastOperands(pastK, pastV, batch, ks.value.dim, vs.value.dim);
          if past.Failure? then Failure(past.error)
          else Success(Call(batch, n, past.value.0, qs.value.dim, ks.value.dim, vs.value.dim, layout.value.0, layout.value.1,
                            os.value.dim, q.data.value, k.data.value, v.data.value, past.value.1, past.value.2))
  }

  lemma DivisionSpan(a: nat, b: nat)
    requires b > 0 && a % b == 0
    ensures Span(b, a / b) == a
  {
    SpanIsProduct(b, a / b);
  }

  lemma {:induction false} KvHeadBelow(h: nat, g: nat, n: nat)
    requires g > 0 && h < Span(n, g)
    ensures KvHead(h, g) < n
  {
    if h >= g { KvHeadBelow(h - g, g, n - 1); }
  }

  lemma GroupBelow(h: nat, heads: nat, kvHeads: nat)
    requires h < heads && kvHeads > 0 && heads % kvHeads == 0
    ensures heads / kvHeads > 0 && KvHead(h, heads / kvHeads) < kvHeads
  {
    var g := heads / kvHeads;
    assert heads == g * kvHeads;
    SpanIsProduct(kvHeads, g);
    KvHeadBelow(h, g, kvHeads);
  }

  lemma CheckedCallIsValid(q: View, k: View, v: View, out: View, o: Opts, pastK: Option<View>, pastV: Option<View>)
    requires CheckCall(q, k, v, out, o, pastK, pastV).Success?
    ensures var c := CheckCall(q, k, v, out, o, pastK, pastV).value;
      c.Valid() && Span(Span(c.batch, c.qSeq), c.outDim) <= |out.data.value| && c.qSeq > 0 && c.batch > 0
  {
    var c := CheckCall(q, k, v, out, o, pastK, pastV).value;
    DivisionSpan(c.qDim, o.numHeads);
    SpanSwap(c.kDim, c.hd.headDim);
    DivisionSpan(c.vDim, c.kvHeads);
    forall h | 0 <= h < c.hd.heads ensures KvHead(h, c.hd.headsPerKv) < c.kvHeads {
      GroupBelow(h, o.numHeads, c.kvHeads);
    }
    GroupBelow(0, o.numHeads, c.kvHeads);
    if c.qSeq == 0 { SpanIsProduct(c.batch, 0); }
    NoPastRows(c.batch, c.kDim);
    NoPastRows(c.batch, c.vDim);
  }

  lemma SpanSwap(a: nat, b: nat)
    requires b > 0 && a % b == 0
    ensures Span(a / b, b) == a
  {
    SpanIsProduct(a / b, b);
  }

  lemma NoPastRows(batch: nat, dim: nat)
    ensures Span(Span(batch, 0), dim) == 0
  {
    SpanIsProduct(batch, 0);
  }

  // ----- one row of scores -----

  method Dot(q: Row, qo: nat, k: Row, ko: nat, n: nat) returns (dot: real)
    requires qo + n <= |q| && ko + n <= |k|
    ensures dot == DotAt(q, qo, k, ko, n)
  {
    dot := 0.0;
    for d := 0 to n
      invariant dot == DotAt(q, qo, k, ko, d)
    {
      dot := dot + q[qo + d] * k[ko + d];
    }
  }

  /** Scaled, softcapped dot product. */
  method LogitOf(f: Fns, o: Opts, headDim: nat, q: Row, qo: nat, k: Row, ko: nat) returns (x: real)
    requires qo + headDim <= |q| && ko + headDim <= |k|
    ensures x == Logit(f, o, headDim, q, qo, k, ko)
  {
    var dot := Dot(q, qo, k, ko, headDim);
    x := ScaleAndCap(f, o, headDim, dot);
  }

  /** The score of key row `j` for query head `h`: masked by causality, by the sliding window, or computed. */
  method OneScore(f: Fns, o: Opts, hd: Heads, q: Row, keys: Lane, ghost vals: Lane, absI: nat, h: nat, j: nat) returns (score: Score)
    requires Roomy(hd, q, keys, vals) && h < hd.heads && j < |keys|
    ensures score == HeadScores(f, o, hd, q, keys, vals, absI, h)[j]
  {
    HeadInQuery(hd, h);
    if o.causal && j > absI {
      return Masked;
    }
    if o.window > 0 && j + o.window <= absI {
      return Masked;
    }
    var x := LogitOf(f, o, hd.headDim, q, Span(h, hd.headDim), keys[j], Span(KvHead(h, hd.headsPerKv), hd.headDim));
    return Val(x);
  }

  /** `before` with `vals` written at `base`. */
  function Splice(before: seq<Score>, base: nat, vals: seq<Score>): (r: seq<Score>)
    requires base + |vals| <= |before|
    ensures |r| == |before|
    ensures forall p :: 0 <= p < |before| ==> r[p] == if base <= p < base + |vals| then vals[p - base] else before[p]
  {
    seq(|before|, p requires 0 <= p < |before| => if base <= p < base + |vals| then vals[p - base] else before[p])
  }

  lemma SpliceOne(before: seq<Score>, base: nat, vals: seq<Score>, j: nat, x: Score)
    requires base + |vals| <= |before| && j < |vals|
    ensures Splice(before, base, vals)[base + j := x] == Splice(before, base, vals[j := x])
  {}

  lemma SpliceTwice(before: seq<Score>, base: nat, a: seq<Score>, b: seq<Score>)
    requires |a| == |b| && base + |a| <= |before|
    ensures Splice(Splice(before, base, a), base, b) == Splice(before, base, b)
  {}

  lemma SpliceSlice(before: seq<Score>, base: nat, vals: seq<Score>)
    requires base + |vals| <= |before|
    ensures Splice(before, base, vals)[base..base + |vals|] == vals
  {}

  function Vals(w: seq<real>): (s: seq<Score>)
    ensures |s| == |w| && forall j :: 0 <= j < |w| ==> s[j] == Val(w[j])
  {
    seq(|w|, j requires 0 <= j < |w| => Val(w[j]))
  }

  /** Fill one row of the score buffer with normalised weights, in three passes over it. */
  method FillRow(f: Fns, o: Opts, hd: Heads, q: Row, keys: Lane, ghost vals: Lane, absI: nat, h: nat, scores: array<Score>, base: nat)
    requires Roomy(hd, q, keys, vals) && h < hd.heads && base + |keys| <= scores.Length
    modifies scores
    ensures scores[..] == Splice(old(scores[..]), base, Vals(Probs(f.exp, HeadScores(f, o, hd, q, keys, vals, absI, h))))
  {
    ghost var before, s := scores[..], HeadScores(f, o, hd, q, keys, vals, absI, h);
    var top := RawScores(f, o, hd, q, keys, vals, absI, h, scores, base);
    SpliceSlice(before, base, s);
    SoftmaxInPlace(f, scores, base, |keys|, s, top);
    SpliceTwice(before, base, s, Vals(Probs(f.exp, s)));
  }

  method SoftmaxInPlace(f: Fns, scores: array<Score>, base: nat, n: nat, ghost s: seq<Score>, top: Option<real>)
    requires base + n <= scores.Length && |s| == n && scores[base..base + n] == s && top == MaxScore(s)
    modifies scores
    ensures scores[..] == Splice(old(scores[..]), base, Vals(Probs(f.exp, s)))
  {
    ghost var before, w := scores[..], Weights(f.exp, s, top);
    var sum := Exponentials(f, scores, base, n, s, top);
    SpliceSlice(before, base, Vals(w));
    Normalise(scores, base, n, w, sum);
    SpliceTwice(before, base, Vals(w), Vals(Probs(f.exp, s)));
  }

  method RawScores(f: Fns, o: Opts, hd: Heads, q: Row, keys: Lane, ghost vals: Lane, absI: nat, h: nat, scores: array<Score>, base: nat)
    returns (top: Option<real>)
    requires Roomy(hd, q, keys, vals) && h < hd.heads && base + |keys| <= scores.Length
    modifies scores
    ensures scores[..] == Splice(old(scores[..]), base, HeadScores(f, o, hd, q, keys, vals, absI, h))
    ensures top == MaxScore(HeadScores(f, o, hd, q, keys, vals, absI, h))
  {
    var n := |keys|;
    ghost var before, s := scores[..], HeadScores(f, o, hd, q, keys, vals, absI, h);
    ghost var now := before[base..base + n];
    top := None;
    for j := 0 to n
      invariant |now| == n && scores[..] == Splice(before, base, now) && now[..j] == s[..j]
      invariant top == MaxScore(s[..j])
    {
      assert s[..j + 1][..j] == s[..j];
      var score := OneScore(f, o, hd, q, keys, vals, absI, h, j);
      scores[base + j] := score;
      if score.Val? {
        top := if top.None? || top.value < score.x then Some(score.x) else top;
      }
      SpliceOne(before, base, now, j, s[j]);
      now := now[j := s[j]];
      assert now[..j + 1] == s[..j] + [s[j]] == s[..j + 1];
    }
    assert s[..n] == s && now == s;
  }

  method Exponentials(f: Fns, scores: array<Score>, base: nat, n: nat, ghost s: seq<Score>, top: Option<real>) returns (sum: real)
    requires base + n <= scores.Length && |s| == n
    requires scores[base..base + n] == s
    modifies scores
    ensures scores[..] == Splice(old(scores[..]), base, Vals(Weights(f.exp, s, top)))
    ensures sum == Sum(Weights(f.exp, s, top))
  {
    ghost var before, w := scores[..], Weights(f.exp, s, top);
    ghost var now := s;
    sum := 0.0;
    for j := 0 to n
      invariant |now| == n && scores[..] == Splice(before, base, now) && now[j..] == s[j..] && now[..j] == Vals(w)[..j]
      invariant sum == Sum(w[..j])
    {
      assert w[..j + 1][..j] == w[..j];
      assert scores[..][base + j] == now[j] && now[j] == now[j..][0] == s[j];
      var e := Weight(f.exp, scores[base + j], top);
      scores[base + j] := Val(e);
      sum := sum + e;
      SpliceOne(before, base, now, j, Val(e));
      now := now[j := Val(e)];
    }
    assert w[..n] == w && now == Vals(w);
  }

  method Normalise(scores: array<Score>, base: nat, n: nat, ghost w: seq<real>, sum: real)
    requires base + n <= scores.Length && |w| == n && scores[base..base + n] == Vals(w)
    modifies scores
    ensures scores[..] == Splice(old(scores[..]), base, Vals(Scaled(w, Inverse(sum))))
  {
    ghost var before, p := scores[..], Scaled(w, Inverse(sum));
    ghost var now := Vals(w);
    var inv := if sum > 0.0 then 1.0 / sum else 0.0;
    for j := 0 to n
      invariant |now| == n && scores[..] == Splice(before, base, now) && now[j..] == Vals(w)[j..] && now[..j] == Vals(p)[..j]
    {
      assert scores[..][base + j] == now[j] && now[j] == now[j..][0] == Val(w[j]);
      var x := scores[base + j].x * inv;
      assert x == p[j];
      scores[base + j] := Val(x);
      SpliceOne(before, base, now, j, Val(p[j]));
      now := now[j := Val(p[j])];
      assert now[..j + 1] == Vals(p)[..j] + [Val(p[j])] == Vals(p)[..j + 1];
    }
    assert now == Vals(p);
  }

  // ----- one head of the output -----

  /** Weighted sum of column `col` of the values, with the weights of one score row. */
  method MixColumn(vals: Lane, scores: array<Score>, base: nat, ghost p: seq<real>, col: nat) returns (acc: real)
    requires forall j :: 0 <= j < |vals| ==> col < |vals[j]|
    requires base + |vals| <= scores.Length && |p| == |vals|
    requires scores[base..base + |vals|] == Vals(p)
    ensures acc == Mix(p, Column(vals, col))
  {
    ghost var values := Column(vals, col);
    acc := 0.0;
    for j := 0 to |vals|
      invariant acc == Mix(p[..j], values[..j])
    {
      assert p[..j + 1][..j] == p[..j] && values[..j + 1][..j] == values[..j];
      assert scores[base..base + |vals|][j] == Val(p[j]);
      acc := acc + scores[base + j].x * vals[j][col];
    }
    assert p[..|vals|] == p && values[..|vals|] == values;
  }

  /** `row` with `vals` written from column `at` on. */
  function Put(row: Row, at: nat, vals: Row): (r: Row)
    requires at + |vals| <= |row|
    ensures |r| == |row|
    ensures forall c :: 0 <= c < |row| ==> r[c] == if at <= c < at + |vals| then vals[c - at] else row[c]
  {
    seq(|row|, c requires 0 <= c < |row| => if at <= c < at + |vals| then vals[c - at] else row[c])
  }

  method WriteNumber(out: array<real>, dim: nat, ghost total: nat, r: nat, col: nat, x: real, ghost rows: seq<Row>)
    requires r < total && col < dim && Span(total, dim) <= out.Length && rows == RowsOf(out[..], dim, total)
    modifies out
    ensures RowsOf(out[..], dim, total) == rows[r := rows[r][col := x]]
    ensures out[Span(total, dim)..] == old(out[Span(total, dim)..])
  {
    ghost var flat := out[..];
    SpanApart(r, total, dim);
    out[Span(r, dim) + col] := x;
    ghost var flat' := out[..];
    forall r' | 0 <= r' < total ensures RowsOf(flat', dim, total)[r'] == rows[r := rows[r][col := x]][r'] {
      SpanApart(r', total, dim);
      if r' < r { SpanApart(r', r, dim); } else if r < r' { SpanApart(r, r', dim); }
      assert RowAt(flat', dim, r') == if r' == r then RowAt(flat, dim, r)[col := x] else RowAt(flat, dim, r');
    }
  }

  /** The values of one head for one query: its weights applied to each of its value columns. */
  function MixHead(p: seq<real>, vals: Lane, voff: nat, width: nat): (r: Row)
    requires |p| == |vals| && forall j :: 0 <= j < |vals| ==> voff + width <= |vals[j]|
    ensures |r| == width
  {
    seq(width, d requires 0 <= d < width => Mix(p, Column(vals, voff + d)))
  }

  method WriteHead(vals: Lane, voff: nat, width: nat, scores: array<Score>, base: nat, ghost p: seq<real>,
                   out: array<real>, dim: nat, ghost total: nat, r: nat, at: nat, ghost rows: seq<Row>)
    requires forall j :: 0 <= j < |vals| ==> voff + width <= |vals[j]|
    requires base + |vals| <= scores.Length && |p| == |vals| && scores[base..base + |vals|] == Vals(p)
    requires r < total && at + width <= dim && Span(total, dim) <= out.Length && rows == RowsOf(out[..], dim, total)
    modifies out
    ensures RowsOf(out[..], dim, total) == rows[r := Put(rows[r], at, MixHead(p, vals, voff, width))]
    ensures out[Span(total, dim)..] == old(out[Span(total, dim)..])
  {
    ghost var want := MixHead(p, vals, voff, width);
    ghost var row := rows[r];
    assert row == Put(rows[r], at, want[..0]);
    for d := 0 to width
      invariant |row| == dim && row == Put(rows[r], at, want[..d])
      invariant RowsOf(out[..], dim, total) == rows[r := row]
      invariant out[Span(total, dim)..] == old(out[Span(total, dim)..])
    {
      var acc := MixColumn(vals, scores, base, p, voff + d);
      WriteNumber(out, dim, total, r, at + d, acc, rows[r := row]);
      assert acc == want[d] && want[..d + 1] == want[..d] + [acc];
      row := row[at + d := acc];
      assert row == Put(rows[r], at, want[..d + 1]);
    }
    assert want[..width] == want;
  }

  // ----- one lane -----

  /** Rows [0, upto) of the score buffer, each `n` wide, hold the given weights. */
  ghost predicate BufferHolds(scores: seq<Score>, n: nat, probs: seq<seq<real>>, upto: nat) {
    && upto <= |probs|
    && forall i {:trigger probs[i]} :: 0 <= i < upto ==>
      |probs[i]| == n && Span(i, n) + n <= |scores| && scores[Span(i, n)..Span(i, n) + n] == Vals(probs[i])
  }

  lemma SpliceKeepsRow(before: seq<Score>, base: nat, vals: seq<Score>, at: nat, n: nat)
    requires base + |vals| <= |before| && at + n <= base
    ensures Splice(before, base, vals)[at..at + n] == before[at..at + n]
  {}

  /** Filling row `i` leaves the earlier rows as they were. */
  lemma {:induction false} BufferStep(before: seq<Score>, n: nat, probs: seq<seq<real>>, i: nat)
    requires BufferHolds(before, n, probs, i) && i < |probs| && |probs[i]| == n && Span(i, n) + n <= |before|
    ensures BufferHolds(Splice(before, Span(i, n), Vals(probs[i])), n, probs, i + 1)
  {
    var after := Splice(before, Span(i, n), Vals(probs[i]));
    SpliceSlice(before, Span(i, n), Vals(probs[i]));
    forall i' | 0 <= i' < i
      ensures |probs[i']| == n && Span(i', n) + n <= |before| && after[Span(i', n)..Span(i', n) + n] == before[Span(i', n)..Span(i', n) + n]
    {
      SpanApart(i', i, n);
      SpliceKeepsRow(before, Span(i, n), Vals(probs[i]), Span(i', n), n);
    }
  }

  /** The weights of head `h`, query by query. */
  ghost function LaneProbs(f: Fns, o: Opts, hd: Heads, qs: Lane, keys: Lane, vals: Lane, past: nat, h: nat): (r: seq<seq<real>>)
    requires RoomyLane(hd, qs, keys, vals) && h < hd.heads
    ensures |r| == |qs| && forall i :: 0 <= i < |qs| ==> |r[i]| == |keys|
  {
    seq(|qs|, i requires 0 <= i < |qs| && RoomyLane(hd, qs, keys, vals) =>
      Probs(f.exp, HeadScores(f, o, hd, qs[i], keys, vals, past + i, h)))
  }

  method ScoreHead(f: Fns, o: Opts, hd: Heads, qs: Lane, keys: Lane, ghost vals: Lane, past: nat, h: nat, scores: array<Score>)
    requires RoomyLane(hd, qs, keys, vals) && h < hd.heads && scores.Length == Span(|qs|, |keys|)
    modifies scores
    ensures BufferHolds(scores[..], |keys|, LaneProbs(f, o, hd, qs, keys, vals, past, h), |qs|)
  {
    ghost var probs := LaneProbs(f, o, hd, qs, keys, vals, past, h);
    for i := 0 to |qs|
      invariant BufferHolds(scores[..], |keys|, probs, i)
    {
      FillQuery(f, o, hd, qs[i], keys, vals, past + i, h, scores, |qs|, i, probs);
    }
  }

  method FillQuery(f: Fns, o: Opts, hd: Heads, q: Row, keys: Lane, ghost vals: Lane, absI: nat, h: nat, scores: array<Score>,
                   ghost count: nat, i: nat, ghost probs: seq<seq<real>>)
    requires Roomy(hd, q, keys, vals) && h < hd.heads && i < count == |probs| && scores.Length == Span(count, |keys|)
    requires probs[i] == Probs(f.exp, HeadScores(f, o, hd, q, keys, vals, absI, h))
    requires BufferHolds(scores[..], |keys|, probs, i)
    modifies scores
    ensures BufferHolds(scores[..], |keys|, probs, i + 1)
  {
    SpanApart(i, count, |keys|);
    ghost var before := scores[..];
    FillRow(f, o, hd, q, keys, vals, absI, h, scores, Span(i, |keys|));
    BufferStep(before, |keys|, probs, i);
  }

  /** The values of one head for every query of the lane. */
  ghost function MixAll(probs: seq<seq<real>>, vals: Lane, voff: nat, width: nat): (r: Lane)
    requires forall i :: 0 <= i < |probs| ==> |probs[i]| == |vals|
    requires forall j :: 0 <= j < |vals| ==> voff + width <= |vals[j]|
    ensures |r| == |probs| && forall i :: 0 <= i < |probs| ==> |r[i]| == width
  {
    seq(|probs|, i requires 0 <= i < |probs| && |probs[i]| == |vals| && (forall j :: 0 <= j < |vals| ==> voff + width <= |vals[j]|) =>
      MixHead(probs[i], vals, voff, width))
  }

  /** The first `n` of the rows from `at` on have had their vector written at column `col`. */
  ghost predicate Emitted(rows: seq<Row>, rows': seq<Row>, at: nat, col: nat, vecs: seq<Row>, n: nat) {
    && |rows'| == |rows| && n <= |vecs|
    && (forall r :: 0 <= r < |rows| && at <= r < at + n ==> col + |vecs[r - at]| <= |rows[r]| && rows'[r] == Put(rows[r], col, vecs[r - at]))
    && (forall r :: 0 <= r < |rows| && !(at <= r < at + n) ==> rows'[r] == rows[r])
  }

  lemma EmitOne(rows: seq<Row>, rows': seq<Row>, at: nat, col: nat, vecs: seq<Row>, n: nat)
    requires Emitted(rows, rows', at, col, vecs, n) && n < |vecs| && at + n < |rows| && col + |vecs[n]| <= |rows[at + n]|
    ensures Emitted(rows, rows'[at + n := Put(rows'[at + n], col, vecs[n])], at, col, vecs, n + 1)
  {}

  /** Writes one head of every query of the lane, whose weights are in the score buffer. */
  method EmitHead(vals: Lane, voff: nat, width: nat, scores: array<Score>, ghost probs: seq<seq<real>>, count: nat,
                  out: array<real>, dim: nat, ghost total: nat, at: nat, col: nat, ghost rows: seq<Row>)
    returns (ghost rows': seq<Row>)
    requires |probs| == count && (forall i :: 0 <= i < count ==> |probs[i]| == |vals|)
    requires forall j :: 0 <= j < |vals| ==> voff + width <= |vals[j]|
    requires BufferHolds(scores[..], |vals|, probs, count)
    requires at + count <= total && col + width <= dim
    requires Span(total, dim) <= out.Length && rows == RowsOf(out[..], dim, total)
    modifies out
    ensures rows' == RowsOf(out[..], dim, total)
    ensures Emitted(rows, rows', at, col, MixAll(probs, vals, voff, width), count)
    ensures out[Span(total, dim)..] == old(out[Span(total, dim)..])
  {
    ghost var weights, vecs := scores[..], MixAll(probs, vals, voff, width);
    rows' := rows;
    for i := 0 to count
      invariant rows' == RowsOf(out[..], dim, total)
      invariant scores[..] == weights
      invariant Emitted(rows, rows', at, col, vecs, i)
      invariant out[Span(total, dim)..] == old(out[Span(total, dim)..])
    {
      ghost var before := rows';
      assert |probs[i]| == |vals|;
      WriteHead(vals, voff, width, scores, Span(i, |vals|), probs[i], out, dim, total, at + i, col, rows');
      rows' := RowsOf(out[..], dim, total);
      EmitOne(rows, before, at, col, vecs, i);
    }
  }

  // ----- heads accumulate into rows -----

  ghost predicate Prefixed(rows: seq<Row>, at: nat, acc: Lane, w: nat) {
    && at + |acc| <= |rows|
    && forall i {:trigger acc[i]} :: 0 <= i < |acc| ==> w <= |rows[at + i]| && rows[at + i][..w] == acc[i]
  }

  ghost function ZipAppend(a: Lane, b: Lane): (r: Lane)
    requires |a| == |b|
    ensures |r| == |a| && forall i :: 0 <= i < |a| ==> r[i] == a[i] + b[i]
  {
    seq(|a|, i requires 0 <= i < |a| == |b| => a[i] + b[i])
  }

  lemma PrefixStep(rows: seq<Row>, rows': seq<Row>, at: nat, acc: Lane, vecs: Lane, col: nat, width: nat)
    requires Prefixed(rows, at, acc, col) && |vecs| == |acc|
    requires forall i :: 0 <= i < |vecs| ==> |vecs[i]| == width
    requires Emitted(rows, rows', at, col, vecs, |acc|)
    ensures Prefixed(rows', at, ZipAppend(acc, vecs), col + width)
  {
    forall i | 0 <= i < |acc| ensures col + width <= |rows'[at + i]| && rows'[at + i][..col + width] == acc[i] + vecs[i] {
      var r := at + i;
      assert rows'[r] == Put(rows[r], col, vecs[r - at]) && vecs[r - at] == vecs[i];
      assert Put(rows[r], col, vecs[i])[..col + width] == rows[r][..col] + vecs[i];
    }
  }

  /** The first `n` heads of every row of the lane. */
  ghost function LaneHeads(f: Fns, o: Opts, hd: Heads, qs: Lane, keys: Lane, vals: Lane, past: nat, n: nat): (r: Lane)
    requires RoomyLane(hd, qs, keys, vals) && n <= hd.heads
    ensures |r| == |qs|
  {
    seq(|qs|, i requires 0 <= i < |qs| && RoomyLane(hd, qs, keys, vals) => AllowedHeads(f, o, hd, qs[i], keys, vals, past + i, Everything(), n))
  }

  lemma OutHeadsStep(f: Fns, o: Opts, hd: Heads, q: Row, keys: Lane, vals: Lane, i: nat, h: nat)
    requires Roomy(hd, q, keys, vals) && h < hd.heads
    requires forall j :: 0 <= j < |vals| ==> Span(KvHead(h, hd.headsPerKv), hd.vHeadDim) + hd.vHeadDim <= |vals[j]|
    ensures AllowedHeads(f, o, hd, q, keys, vals, i, Everything(), h + 1)
         == AllowedHeads(f, o, hd, q, keys, vals, i, Everything(), h)
          + MixHead(Probs(f.exp, HeadScores(f, o, hd, q, keys, vals, i, h)), vals, Span(KvHead(h, hd.headsPerKv), hd.vHeadDim), hd.vHeadDim)
  {
    var mixed := MixHead(Probs(f.exp, HeadScores(f, o, hd, q, keys, vals, i, h)), vals, Span(KvHead(h, hd.headsPerKv), hd.vHeadDim), hd.vHeadDim);
    var tail := seq(hd.vHeadDim, d requires 0 <= d < hd.vHeadDim && Roomy(hd, q, keys, vals) => Entry(f, o, hd, q, keys, vals, i, Everything(), h, d));
    EverythingScores(f, o, hd, q, keys, vals, i, h);
    forall d | 0 <= d < hd.vHeadDim ensures mixed[d] == tail[d] {
      assert HeadColumn(hd, q, keys, vals, h, d) == Column(vals, Span(KvHead(h, hd.headsPerKv), hd.vHeadDim) + d);
    }
    assert mixed == tail;
  }

  lemma LaneHeadsStep(f: Fns, o: Opts, hd: Heads, qs: Lane, keys: Lane, vals: Lane, past: nat, h: nat)
    requires RoomyLane(hd, qs, keys, vals) && h < hd.heads && |vals| == |keys| && hd.headsPerKv > 0
    requires forall j :: 0 <= j < |vals| ==> Span(KvHead(h, hd.headsPerKv), hd.vHeadDim) + hd.vHeadDim <= |vals[j]|
    ensures LaneHeads(f, o, hd, qs, keys, vals, past, h + 1)
         == ZipAppend(LaneHeads(f, o, hd, qs, keys, vals, past, h),
                      MixAll(LaneProbs(f, o, hd, qs, keys, vals, past, h), vals, Span(KvHead(h, hd.headsPerKv), hd.vHeadDim), hd.vHeadDim))
  {
    forall i | 0 <= i < |qs|
      ensures AllowedHeads(f, o, hd, qs[i], keys, vals, past + i, Everything(), h + 1)
           == AllowedHeads(f, o, hd, qs[i], keys, vals, past + i, Everything(), h)
            + MixHead(Probs(f.exp, HeadScores(f, o, hd, qs[i], keys, vals, past + i, h)), vals, Span(KvHead(h, hd.headsPerKv), hd.vHeadDim), hd.vHeadDim)
    {
      OutHeadsStep(f, o, hd, qs[i], keys, vals, past + i, h);
    }
  }

  lemma LaneFinished(f: Fns, o: Opts, hd: Heads, qs: Lane, keys: Lane, vals: Lane, past: nat, rows: seq<Row>, at: nat)
    requires RoomyLane(hd, qs, keys, vals)
    requires Prefixed(rows, at, LaneHeads(f, o, hd, qs, keys, vals, past, hd.heads), Span(hd.heads, hd.vHeadDim))
    requires forall r :: 0 <= r < |rows| ==> |rows[r]| == Span(hd.heads, hd.vHeadDim)
    ensures rows[at..at + |qs|] == LaneOut(f, o, hd, qs, keys, vals, past)
  {
    var acc := LaneHeads(f, o, hd, qs, keys, vals, past, hd.heads);
    forall i | 0 <= i < |qs| ensures rows[at..at + |qs|][i] == LaneOut(f, o, hd, qs, keys, vals, past)[i] {
      assert rows[at + i][..Span(hd.heads, hd.vHeadDim)] == rows[at + i];
      assert rows[at + i] == acc[i];
    }
  }

  /** One head of one lane: weights into the score buffer, then the head's columns of the output rows. */
  method AttendHead(f: Fns, o: Opts, hd: Heads, qs: Lane, keys: Lane, vals: Lane, past: nat, h: nat, scores: array<Score>,
                    out: array<real>, dim: nat, ghost total: nat, at: nat, ghost rows: seq<Row>)
    returns (ghost rows': seq<Row>)
    requires RoomyLane(hd, qs, keys, vals) && |qs| > 0 && h < hd.heads && scores.Length == Span(|qs|, |keys|)
    requires at + |qs| <= total && Span(h, hd.vHeadDim) + hd.vHeadDim <= dim
    requires Span(total, dim) <= out.Length && rows == RowsOf(out[..], dim, total)
    requires Prefixed(rows, at, LaneHeads(f, o, hd, qs, keys, vals, past, h), Span(h, hd.vHeadDim))
    modifies scores, out
    ensures rows' == RowsOf(out[..], dim, total)
    ensures Prefixed(rows', at, LaneHeads(f, o, hd, qs, keys, vals, past, h + 1), Span(h + 1, hd.vHeadDim))
    ensures forall r :: 0 <= r < total && !(at <= r < at + |qs|) ==> rows'[r] == rows[r]
    ensures out[Span(total, dim)..] == old(out[Span(total, dim)..])
  {
    assert Roomy(hd, qs[0], keys, vals);
    ghost var probs := LaneProbs(f, o, hd, qs, keys, vals, past, h);
    ghost var acc := LaneHeads(f, o, hd, qs, keys, vals, past, h);
    ScoreHead(f, o, hd, qs, keys, vals, past, h, scores);
    var voff := Span(KvHead(h, hd.headsPerKv), hd.vHeadDim);
    rows' := EmitHead(vals, voff, hd.vHeadDim, scores, probs, |qs|, out, dim, total, at, Span(h, hd.vHeadDim), rows);
    PrefixStep(rows, rows', at, acc, MixAll(probs, vals, voff, hd.vHeadDim), Span(h, hd.vHeadDim), hd.vHeadDim);
    LaneHeadsStep(f, o, hd, qs, keys, vals, past, h);
  }

  /** Attention of one lane, written to output rows [at, at + |qs|). */
  method AttendLane(f: Fns, o: Opts, hd: Heads, qs: Lane, keys: Lane, vals: Lane, past: nat, scores: array<Score>,
                    out: array<real>, dim: nat, ghost total: nat, at: nat, ghost rows: seq<Row>)
    returns (ghost rows': seq<Row>)
    requires RoomyLane(hd, qs, keys, vals) && |qs| > 0 && scores.Length == Span(|qs|, |keys|)
    requires at + |qs| <= total && dim == Span(hd.heads, hd.vHeadDim)
    requires Span(total, dim) <= out.Length && rows == RowsOf(out[..], dim, total)
    modifies scores, out
    ensures rows' == RowsOf(out[..], dim, total)
    ensures rows'[at..at + |qs|] == LaneOut(f, o, hd, qs, keys, vals, past)
    ensures forall r :: 0 <= r < total && !(at <= r < at + |qs|) ==> rows'[r] == rows[r]
    ensures out[Span(total, dim)..] == old(out[Span(total, dim)..])
  {
    rows' := rows;
    assert Prefixed(rows', at, LaneHeads(f, o, hd, qs, keys, vals, past, 0), Span(0, hd.vHeadDim));
    for h := 0 to hd.heads
      invariant rows' == RowsOf(out[..], dim, total)
      invariant forall r :: 0 <= r < total && !(at <= r < at + |qs|) ==> rows'[r] == rows[r]
      invariant Prefixed(rows', at, LaneHeads(f, o, hd, qs, keys, vals, past, h), Span(h, hd.vHeadDim))
      invariant out[Span(total, dim)..] == old(out[Span(total, dim)..])
    {
      SpanApart(h, hd.heads, hd.vHeadDim);
      hide *;
      rows' := AttendHead(f, o, hd, qs, keys, vals, past, h, scores, out, dim, total, at, rows');
    }
    LaneFinished(f, o, hd, qs, keys, vals, past, rows', at);
  }

  // ----- what the output numbers are -----

  /** The dimensions of a rank-2 or rank-3 operand: lanes, rows, numbers a row. */
  function Dims3(v: View): (nat, nat, nat) {
    if |v.shape| == 2 then (Pos(v.shape[0]), 1, Pos(v.shape[1]))
    else if |v.shape| == 3 then (Pos(v.shape[0]), Pos(v.shape[1]), Pos(v.shape[2]))
    else (0, 0, 0)
  }

  /** A float operand of rank 2 or 3 with positive dimensions that its data covers. */
  predicate Usable(v: View) {
    && v.isF32 && v.data.Some? && 2 <= |v.shape| <= 3 && (forall i :: 0 <= i < |v.shape| ==> v.shape[i] > 0)
    && Dims3(v).0 * Dims3(v).1 * Dims3(v).2 <= |v.data.value|
  }

  /** Head counts and widths that divide: query heads, key heads of the same width, value heads in the same number. */
  predicate HeadsDivide(heads: int, q: nat, k: nat, v: nat, out: nat) {
    && heads > 0 && q > 0 && q % heads == 0 && k > 0 && k % (q / heads) == 0 && k / (q / heads) > 0
    && heads % (k / (q / heads)) == 0 && v % (k / (q / heads)) == 0 && out == heads * (v / (k / (q / heads)))
  }

  /** Which calls are accepted. */
  predicate Acceptable(q: View, k: View, v: View, out: View, o: Opts, pastK: Option<View>, pastV: Option<View>) {
    && Usable(q) && Usable(k) && Usable(v) && Usable(out)
    && Dims3(q).0 == Dims3(k).0 == Dims3(v).0 == Dims3(out).0 && Dims3(q).1 == Dims3(k).1 == Dims3(v).1 == Dims3(out).1
    && HeadsDivide(o.numHeads, Dims3(q).2, Dims3(k).2, Dims3(v).2, Dims3(out).2)
    && (pastK.Some? <==> pastV.Some?)
    && (pastK.Some? ==>
          && Usable(pastK.value) && Usable(pastV.value) && Dims3(pastK.value).1 == Dims3(pastV.value).1
          && Dims3(pastK.value).0 == Dims3(pastV.value).0 == Dims3(q).0 && Dims3(pastK.value).2 == Dims3(k).2 && Dims3(pastV.value).2 == Dims3(v).2)
  }

  lemma UsableIsBacked(v: View)
    ensures Usable(v) <==> ParseShape(v).Success? && Backed(v, ParseShape(v).value)
    ensures Usable(v) ==> ParseShape(v).value == KvShape(Dims3(v).0, Dims3(v).1, Dims3(v).2) && Dims3(v).0 > 0 && Dims3(v).1 > 0 && Dims3(v).2 > 0
  {
    if ParseShape(v).Success? && ParseShape(v).value.Proper() { NumbersAre(ParseShape(v).value); }
  }

  lemma NumbersAre(s: KvShape)
    requires s.Proper()
    ensures Numbers(s) == s.batch * s.len * s.dim && (Numbers(s) != 0 <==> s.batch > 0 && s.len > 0 && s.dim > 0)
  {
    SpanIsProduct(s.batch, s.len);
    SpanIsProduct(Span(s.batch, s.len), s.dim);
    if s.batch > 0 && s.len > 0 && s.dim > 0 {
      NonZero(s.batch, s.len);
      NonZero(s.batch * s.len, s.dim);
    }
  }

  lemma NonZero(a: nat, b: nat)
    requires a > 0 && b > 0
    ensures a * b > 0
  {}

  lemma LayoutDivides(o: Opts, q: nat, k: nat, v: nat, out: nat)
    requires q > 0 && k > 0
    ensures HeadLayout(o, q, k, v, out).Success? <==> HeadsDivide(o.numHeads, q, k, v, out)
  {
    if o.numHeads > 0 && q % o.numHeads == 0 {
      var w := q / o.numHeads;
      assert w > 0 by { assert q == o.numHeads * w; }
      if k % w == 0 {
        var g := k / w;
        assert g > 0 by { assert k == w * g; }
        if o.numHeads % g == 0 && v % g == 0 { SpanIsProduct(o.numHeads, v / g); }
      }
    }
  }

  /** The checks accept exactly the acceptable calls. */
  lemma {:induction false} AcceptsIff(q: View, k: View, v: View, out: View, o: Opts, pastK: Option<View>, pastV: Option<View>)
    ensures CheckCall(q, k, v, out, o, pastK, pastV).Success? <==> Acceptable(q, k, v, out, o, pastK, pastV)
  {
    hide Usable, Backed, ParseShape, HeadLayout, HeadsDivide, Dims3;
    UsableIsBacked(q);
    UsableIsBacked(k);
    UsableIsBacked(v);
    UsableIsBacked(out);
    if pastK.Some? { UsableIsBacked(pastK.value); }
    if pastV.Some? { UsableIsBacked(pastV.value); }
    if pastK.Some? && pastV.Some? {
      HasData(pastK.value);
      HasData(pastV.value);
    }
    if Usable(q) && Usable(k) && Usable(v) && Usable(out) { LayoutDivides(o, Dims3(q).2, Dims3(k).2, Dims3(v).2, Dims3(out).2); }
  }

  lemma HasData(v: View)
    ensures Usable(v) ==> v.data.Some?
  {}

  /** A call on flat buffers: `p` resident rows a lane before the `n` new ones; head counts and widths. */
  datatype Flat = Flat(q: seq<real>, k: seq<real>, v: seq<real>, pk: seq<real>, pv: seq<real>, batch: nat, n: nat, p: nat,
                       heads: nat, per: nat, width: nat, vWidth: nat, kDim: nat, vDim: nat)
  {
    /** The row of position `j` of lane `b` in its buffer: the resident one below `p`, then the new one. */
    function RowOf(b: nat, j: nat): nat { if j < p then Span(b, p) + j else Span(b, n) + (j - p) }
  }

  /** The score of key `j` for head `h` of query `i` of lane `b`. */
  function FlatScore(f: Fns, o: Opts, c: Flat, b: nat, i: nat, h: nat): nat -> real
    requires c.per > 0
  {
    (j: nat) => Strength(f, o, c.width, SumTo(c.width, Products(
      c.q, Span(Span(b, c.n) + i, Span(c.heads, c.width)) + Span(h, c.width),
      if j < c.p then c.pk else c.k, Span(c.RowOf(b, j), c.kDim) + Span(KvHead(h, c.per), c.width))))
  }

  /** Number `d` of the value that head `h` reads at position `j` of lane `b`. */
  function FlatValue(c: Flat, b: nat, h: nat, d: nat): nat -> real
    requires c.per > 0
  {
    (j: nat) => At(if j < c.p then c.pv else c.v, Span(c.RowOf(b, j), c.vDim) + Span(KvHead(h, c.per), c.vWidth) + d)
  }

  /** Number `d` of head `h` of output row `i` of lane `b` is the average over the keys that the query may read. */
  ghost predicate NumberAttends(f: Fns, o: Opts, c: Flat, out: seq<real>, b: nat, i: nat, h: nat, d: nat)
    requires c.per > 0
  {
    var at := Span(Span(b, c.n) + i, Span(c.heads, c.vWidth)) + Span(h, c.vWidth) + d;
    at < |out| && IsAverage(f.exp, FlatScore(f, o, c, b, i, h), FlatValue(c, b, h, d), From(o, c.p + i), Upto(o, c.p + i, c.p + c.n), out[at])
  }

  ghost predicate NumbersAttend(f: Fns, o: Opts, c: Flat, out: seq<real>) {
    c.per > 0 && forall b: nat, i: nat, h: nat, d: nat :: b < c.batch && i < c.n && h < c.heads && d < c.vWidth ==> NumberAttends(f, o, c, out, b, i, h, d)
  }

  /** The flat call that four operands and two optional resident ones make: query heads in equal groups over key/value heads. */
  ghost predicate IsFlatCall(c: Flat, o: Opts, q: View, k: View, v: View, pastK: Option<View>, pastV: Option<View>) {
    && q.data == Some(c.q) && k.data == Some(c.k) && v.data == Some(c.v) && Dims3(q) == (c.batch, c.n, Span(c.heads, c.width))
    && c.heads == o.numHeads > 0 && c.per > 0 && c.width > 0 && c.kDim == Dims3(k).2 && c.vDim == Dims3(v).2
    && (exists groups: nat :: c.heads == Span(groups, c.per) && c.kDim == Span(groups, c.width) && c.vDim == Span(groups, c.vWidth))
    && (if pastK.Some? && pastV.Some? then pastK.value.data == Some(c.pk) && pastV.value.data == Some(c.pv) && Dims3(pastK.value).1 == c.p else c.p == 0)
  }

  /** The same for a checked call. */
  function FlatOf(c: Call): Flat {
    Flat(c.q, c.k, c.v, c.pk, c.pv, c.batch, c.qSeq, c.past, c.hd.heads, c.hd.headsPerKv, c.hd.headDim, c.hd.vHeadDim, c.kDim, c.vDim)
  }

  lemma FlatOfChecked(q: View, k: View, v: View, out: View, o: Opts, pastK: Option<View>, pastV: Option<View>)
    requires CheckCall(q, k, v, out, o, pastK, pastV).Success?
    ensures IsFlatCall(FlatOf(CheckCall(q, k, v, out, o, pastK, pastV).value), o, q, k, v, pastK, pastV)
  {
    var c := CheckCall(q, k, v, out, o, pastK, pastV).value;
    CheckedCallIsValid(q, k, v, out, o, pastK, pastV);
    GroupBelow(0, o.numHeads, c.kvHeads);
    DivisionSpan(o.numHeads, c.kvHeads);
    assert c.hd.heads == Span(c.kvHeads, c.hd.headsPerKv) && c.kDim == Span(c.kvHeads, c.hd.headDim) && c.vDim == Span(c.kvHeads, c.hd.vHeadDim);
  }

  /** Number `e` of key or value row `j`: from the resident block, then from the new one. */
  lemma RowNumber(first: seq<real>, second: seq<real>, batch: nat, p: nat, n: nat, dim: nat, b: nat, j: nat, e: nat)
    requires Span(Span(batch, p), dim) <= |first| && Span(Span(batch, n), dim) <= |second| && b < batch && j < p + n && e < dim
    ensures var rows := Lanes(first, batch, p, dim)[b] + Lanes(second, batch, n, dim)[b];
      At(rows[j], e) == if j < p then At(first, Span(Span(b, p) + j, dim) + e) else At(second, Span(Span(b, n) + (j - p), dim) + e)
  {
    hide Span, Lanes;
    if j < p { LanesAt(first, batch, p, dim, b, j, e); } else { LanesAt(second, batch, n, dim, b, j - p, e); }
  }

  lemma ScoresAgree(f: Fns, o: Opts, c: Call, b: nat, i: nat, h: nat, j: nat)
    requires c.Valid() && b < c.batch && i < c.qSeq && h < c.hd.heads && j < c.KvSeq()
    ensures RowScore(f, o, c.hd, c.Queries(b)[i], c.Keys(b), h)(j) == FlatScore(f, o, FlatOf(c), b, i, h)(j)
  {
    hide Lanes, Strength, SumTo, Span, KvHead;
    var x := FlatOf(c);
    var rowed := Products(c.Queries(b)[i], Span(h, c.hd.headDim), Nth(c.Keys(b), j), Span(KvHead(h, c.hd.headsPerKv), c.hd.headDim));
    var flat := Products(x.q, Span(Span(b, x.n) + i, Span(x.heads, x.width)) + Span(h, x.width), if j < x.p then x.pk else x.k,
                         Span(x.RowOf(b, j), x.kDim) + Span(KvHead(h, x.per), x.width));
    forall e: nat | e < c.hd.headDim ensures rowed(e) == flat(e) { FactorsAgree(c, b, i, h, j, e); }
    SumSame(c.hd.headDim, rowed, flat);
  }

  lemma FactorsAgree(c: Call, b: nat, i: nat, h: nat, j: nat, e: nat)
    requires c.Valid() && b < c.batch && i < c.qSeq && h < c.hd.heads && j < c.KvSeq() && e < c.hd.headDim
    ensures At(c.Queries(b)[i], Span(h, c.hd.headDim) + e) == At(c.q, Span(Span(b, c.qSeq) + i, c.qDim) + Span(h, c.hd.headDim) + e)
    ensures At(c.Keys(b)[j], Span(KvHead(h, c.hd.headsPerKv), c.hd.headDim) + e)
         == At(if j < c.past then c.pk else c.k, Span(FlatOf(c).RowOf(b, j), c.kDim) + Span(KvHead(h, c.hd.headsPerKv), c.hd.headDim) + e)
  {
    hide Lanes, Span, KvHead;
    SpanApart(h, c.hd.heads, c.hd.headDim);
    LanesAt(c.q, c.batch, c.qSeq, c.qDim, b, i, Span(h, c.hd.headDim) + e);
    SpanApart(KvHead(h, c.hd.headsPerKv), c.kvHeads, c.hd.headDim);
    RowNumber(c.pk, c.k, c.batch, c.past, c.qSeq, c.kDim, b, j, Span(KvHead(h, c.hd.headsPerKv), c.hd.headDim) + e);
  }

  lemma ValuesAgree(c: Call, b: nat, i: nat, h: nat, d: nat, j: nat)
    requires c.Valid() && b < c.batch && i < c.qSeq && h < c.hd.heads && d < c.hd.vHeadDim && j < c.KvSeq()
    ensures RowValue(c.hd, c.Vals(b), h, d)(j) == FlatValue(FlatOf(c), b, h, d)(j)
  {
    hide Lanes, Span, KvHead;
    SpanApart(KvHead(h, c.hd.headsPerKv), c.kvHeads, c.hd.vHeadDim);
    RowNumber(c.pv, c.v, c.batch, c.past, c.qSeq, c.vDim, b, j, Span(KvHead(h, c.hd.headsPerKv), c.hd.vHeadDim) + d);
  }

  /** Every number that the kernel leaves is the average of the values that its query may read. */
  lemma KernelNumbers(f: Fns, o: Opts, c: Call, out: seq<real>)
    requires Exponential(f.exp) && c.Valid() && Span(Span(c.batch, c.qSeq), c.outDim) <= |out|
    requires forall b :: 0 <= b < c.batch ==> Lanes(out, c.batch, c.qSeq, c.outDim)[b] == c.Expected(f, o, b)
    ensures NumbersAttend(f, o, FlatOf(c), out)
  {
    hide NumberAttends, Lanes, Call.Valid, Call.Expected;
    assert c.hd.headsPerKv > 0 by { Positive(c); }
    forall b: nat, i: nat, h: nat, d: nat | b < c.batch && i < c.qSeq && h < c.hd.heads && d < c.hd.vHeadDim
      ensures NumberAttends(f, o, FlatOf(c), out, b, i, h, d)
    {
      KernelNumber(f, o, c, out, b, i, h, d);
    }
  }

  lemma Positive(c: Call)
    requires c.Valid()
    ensures c.hd.headsPerKv > 0
  {}

  lemma KernelNumber(f: Fns, o: Opts, c: Call, out: seq<real>, b: nat, i: nat, h: nat, d: nat)
    requires Exponential(f.exp) && c.Valid() && Span(Span(c.batch, c.qSeq), c.outDim) <= |out|
    requires b < c.batch && i < c.qSeq && h < c.hd.heads && d < c.hd.vHeadDim
    requires Lanes(out, c.batch, c.qSeq, c.outDim)[b] == c.Expected(f, o, b)
    ensures NumberAttends(f, o, FlatOf(c), out, b, i, h, d)
  {
    hide Lanes, IsAverage, Exponential, RowScore, RowValue, FlatScore, FlatValue, OutRow, Roomy, Span, KvHead, From;
    c.IsRoomy(b);
    SpanApart(h, c.hd.heads, c.hd.vHeadDim);
    LanesAt(out, c.batch, c.qSeq, c.outDim, b, i, Span(h, c.hd.vHeadDim) + d);
    var q, keys, vals := c.Queries(b)[i], c.Keys(b), c.Vals(b);
    RowAverages(f, o, c.hd, q, keys, vals, c.past + i, h, d);
    var at := Span(h, c.hd.vHeadDim) + d;
    var x := OutRow(f, o, c.hd, q, keys, vals, c.past + i)[at];
    forall j: nat | j < c.KvSeq() ensures RowScore(f, o, c.hd, q, keys, h)(j) == FlatScore(f, o, FlatOf(c), b, i, h)(j) { ScoresAgree(f, o, c, b, i, h, j); }
    forall j: nat | j < c.KvSeq() ensures RowValue(c.hd, vals, h, d)(j) == FlatValue(FlatOf(c), b, h, d)(j) { ValuesAgree(c, b, i, h, d, j); }
    SameAverage(f.exp, RowScore(f, o, c.hd, q, keys, h), RowValue(c.hd, vals, h, d), FlatScore(f, o, FlatOf(c), b, i, h), FlatValue(FlatOf(c), b, h, d),
                From(o, c.past + i), Upto(o, c.past + i, c.KvSeq()), c.KvSeq(), x);
  }

  // ----- the whole call -----

  /**
   `attention_kv_f32`: on success the output holds, lane by lane, the attention of the new queries
   over the resident and new keys, and so every number of it is the stated average; on failure it is untouched.
   */
  method AttentionKv(f: Fns, q: View, k: View, v: View, out: array<real>, outShape: seq<int>, o: Opts, pastK: Option<View>, pastV: Option<View>)
    returns (error: Option<AttnError>)
    modifies out
    ensures var checked := old(CheckCall(q, k, v, View(true, outShape, Some(out[..])), o, pastK, pastV));
      if checked.Failure? then error == Some(checked.error) && out[..] == old(out[..])
      else
        var c := checked.value;
        && error.None? && c.Valid()
        && Span(Span(c.batch, c.qSeq), c.outDim) <= out.Length
        && (forall b :: 0 <= b < c.batch ==> Lanes(out[..], c.batch, c.qSeq, c.outDim)[b] == c.Expected(f, o, b))
        && out[Span(Span(c.batch, c.qSeq), c.outDim)..] == old(out[Span(Span(c.batch, c.qSeq), c.outDim)..])
    ensures error.None? && Exponential(f.exp) ==> exists c :: IsFlatCall(c, o, q, k, v, pastK, pastV) && NumbersAttend(f, o, c, out[..])
  {
    var outView := View(true, outShape, Some(out[..]));
    var checked := CheckCall(q, k, v, outView, o, pastK, pastV);
    if checked.Failure? { return Some(checked.error); }
    var c := checked.value;
    CheckedCallIsValid(q, k, v, outView, o, pastK, pastV);
    RunCall(f, o, c, out);
    if Exponential(f.exp) {
      FlatOfChecked(q, k, v, outView, o, pastK, pastV);
      KernelNumbers(f, o, c, out[..]);
    }
    return None;
  }

  method RunCall(f: Fns, o: Opts, c: Call, out: array<real>)
    requires c.Valid() && c.qSeq > 0 && Span(Span(c.batch, c.qSeq), c.outDim) <= out.Length
    modifies out
    ensures forall b :: 0 <= b < c.batch ==> Lanes(out[..], c.batch, c.qSeq, c.outDim)[b] == c.Expected(f, o, b)
    ensures out[Span(Span(c.batch, c.qSeq), c.outDim)..] == old(out[Span(Span(c.batch, c.qSeq), c.outDim)..])
  {
    var scores := new Score[Span(c.qSeq, c.KvSeq())](_ => Masked);
    ghost var total := Span(c.batch, c.qSeq);
    ghost var rows := RowsOf(out[..], c.outDim, total);
    for b := 0 to c.batch
      invariant rows == RowsOf(out[..], c.outDim, total)
      invariant forall b' :: 0 <= b' < b ==> LanesOf(rows, c.batch, c.qSeq)[b'] == c.Expected(f, o, b')
      invariant out[Span(total, c.outDim)..] == old(out[Span(total, c.outDim)..])
    {
      c.IsRoomy(b);
      SpanApart(b, c.batch, c.qSeq);
      ghost var before := rows;
      rows := AttendLane(f, o, c.hd, c.Queries(b), c.Keys(b), c.Vals(b), c.past, scores, out, c.outDim, total, Span(b, c.qSeq), rows);
      LaneWritten(before, rows, c.batch, c.qSeq, b);
    }
  }

  /** Rewriting the rows of lane `b` leaves the other lanes as they were. */
  lemma LaneWritten(rows: seq<Row>, rows': seq<Row>, batch: nat, n: nat, b: nat)
    requires b < batch && Span(batch, n) == |rows| == |rows'| && Span(b, n) + n <= |rows|
    requires forall r :: 0 <= r < |rows| && !(Span(b, n) <= r < Span(b, n) + n) ==> rows'[r] == rows[r]
    ensures LanesOf(rows', batch, n)[b] == rows'[Span(b, n)..Span(b, n) + n]
    ensures forall b' :: 0 <= b' < batch && b' != b ==> LanesOf(rows', batch, n)[b'] == LanesOf(rows, batch, n)[b']
  {
    forall b' | 0 <= b' < batch && b' != b ensures LanesOf(rows', batch, n)[b'] == LanesOf(rows, batch, n)[b'] {
      if b' < b { SpanApart(b', b, n); } else { SpanApart(b, b', n); }
    }
  }
}
