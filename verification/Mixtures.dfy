/**
 What the expert kernels compute, in arithmetic on flat buffers: gated hidden numbers, their dot
 products with the rows of the last matrix, and the average of the chosen experts by probability.
 */
module Mixtures {
  import opened Layout
  import opened Moe
  import opened Sums
  import A = AttentionSpec
  import V = Averages

  /** An expert's matrices in their buffers: where its gate and up matrices start, and where its last one does. */
  datatype Place = Place(gate: seq<real>, up: seq<real>, down: seq<real>, at: nat, downAt: nat)

  /** The experts by number. */
  type Places = nat -> Place

  /** Expert after expert in three buffers: gate and up have `width` rows of `dim` numbers each, the last one `dim` rows of `width`. */
  function InBank(gate: seq<real>, up: seq<real>, down: seq<real>, width: nat, dim: nat): Places {
    (e: nat) => Place(gate, up, down, Span(e, Span(width, dim)), Span(e, Span(dim, width)))
  }

  /** Hidden number `i` times its factor in row `o` of the last matrix. */
  ghost function Terms(exp: Exp, x: seq<real>, xo: int, e: Place, dim: nat, width: nat, o: nat): nat -> real
    requires Positive(exp)
  {
    (i: nat) => if Positive(exp) then Gated(exp, x, xo, e.gate, e.up, e.at + Span(i, dim), dim) * At(e.down, e.downAt + Span(o, width) + i) else 0.0
  }

  /** Number `o` of an expert's output for the input row at `xo`. */
  ghost function Gives(exp: Exp, x: seq<real>, xo: int, e: Place, dim: nat, width: nat, o: nat): real
    requires Positive(exp)
  {
    SumTo(width, Terms(exp, x, xo, e, dim, width, o))
  }

  function Times(p: nat -> real, g: nat -> real): nat -> real { (t: nat) => p(t) * g(t) }

  /** `x` is the average of `g` by the weights `p`, divided by their sum if that is positive and not at all otherwise. */
  predicate IsMixture(p: nat -> real, g: nat -> real, k: nat, x: real) {
    x * (if SumTo(k, p) > 0.0 then SumTo(k, p) else 1.0) == SumTo(k, Times(p, g))
  }

  /** The probabilities of a choice, in the stretch of `ps` at `po`. */
  function Picked(ps: seq<real>, po: nat, chosen: seq<nat>): nat -> real { (t: nat) => if t < |chosen| then At(ps, po + chosen[t]) else 0.0 }

  /** What the experts of a choice give for number `o`. */
  ghost function Given(exp: Exp, xs: seq<real>, xo: nat, places: Places, chosen: seq<nat>, dim: nat, width: nat, o: nat): nat -> real
    requires Positive(exp)
  {
    (t: nat) => if t < |chosen| && Positive(exp) then Gives(exp, xs, xo, places(chosen[t]), dim, width, o) else 0.0
  }

  /**
   Row `b` of the output: `chosen` are its most probable experts, as many as asked for, one at least and all at most;
   and each of its numbers is the average of what these experts give, by their probabilities.
   */
  ghost predicate RowGiven(exp: Exp, xs: seq<real>, ps: seq<real>, topK: int, n: nat, dim: nat, width: nat, places: Places,
                           chosen: seq<nat>, b: nat, out: seq<real>)
    requires Positive(exp)
  {
    && |chosen| == (if topK <= 0 then if n == 0 then 0 else 1 else if topK <= n then topK else n)
    && Span(b, n) + n <= |ps| && Span(b, dim) + dim <= |out| && IsTopK(ps[Span(b, n)..Span(b, n) + n], |chosen|, chosen)
    && forall o: nat :: o < dim ==> IsMixture(Picked(ps, Span(b, n), chosen), Given(exp, xs, Span(b, dim), places, chosen, dim, width, o), |chosen|, At(out, Span(b, dim) + o))
  }

  // ----- one expert -----

  /** The buffers at a place hold an expert and its input row. */
  predicate Holds(e: Expert, x: Row, place: Place, data: seq<real>, xo: nat) {
    xo + |x| <= |data| && x == data[xo..xo + |x|] && Stands(e, place)
  }

  predicate Stands(e: Expert, place: Place) {
    && place.at + |e.gate| <= |place.gate| && e.gate == place.gate[place.at..place.at + |e.gate|]
    && place.at + |e.up| <= |place.up| && e.up == place.up[place.at..place.at + |e.up|]
    && place.downAt + |e.down| <= |place.down| && e.down == place.down[place.downAt..place.downAt + |e.down|]
  }

  lemma SlicedProducts(x: Row, data: seq<real>, xo: nat, w: seq<real>, buf: seq<real>, at: nat, from: nat, n: nat)
    requires xo + |x| <= |data| && x == data[xo..xo + |x|] && at + |w| <= |buf| && w == buf[at..at + |w|] && n <= |x| && from + n <= |w|
    ensures SumTo(n, Products(x, 0, w, from)) == SumTo(n, Products(data, xo, buf, at + from))
  {
    hide SumTo;
    forall e: nat | e < n ensures Products(x, 0, w, from)(e) == Products(data, xo, buf, at + from)(e) { SlicedFactors(x, data, xo, w, buf, at, from, e); }
    SumSame(n, Products(x, 0, w, from), Products(data, xo, buf, at + from));
  }

  lemma SlicedFactors(x: Row, data: seq<real>, xo: nat, w: seq<real>, buf: seq<real>, at: nat, from: nat, e: nat)
    requires xo + |x| <= |data| && x == data[xo..xo + |x|] && at + |w| <= |buf| && w == buf[at..at + |w|] && e < |x| && from + e < |w|
    ensures Products(x, 0, w, from)(e) == Products(data, xo, buf, at + from)(e)
  {
    assert At(x, 0 + e) == At(data, xo + e) && At(w, from + e) == At(buf, at + from + e);
  }

  lemma GatedAt(exp: Exp, x: Row, e: Expert, place: Place, data: seq<real>, xo: nat, width: nat, i: nat)
    requires Positive(exp) && e.Sized(|x|, width) && Holds(e, x, place, data, xo) && i < width
    ensures HiddenAt(exp, x, e, width, i) == Gated(exp, data, xo, place.gate, place.up, place.at + Span(i, |x|), |x|)
  {
    hide HiddenAt, SumTo, Products, Span;
    HiddenIsGated(exp, x, e, width, i);
    SpanApart(i, width, |x|);
    SlicedProducts(x, data, xo, e.gate, place.gate, place.at, Span(i, |x|), |x|);
    SlicedProducts(x, data, xo, e.up, place.up, place.at, Span(i, |x|), |x|);
  }

  /** An expert's output number is what its place gives. */
  lemma ExpertGives(exp: Exp, x: Row, e: Expert, place: Place, data: seq<real>, xo: nat, width: nat, o: nat)
    requires Positive(exp) && e.Sized(|x|, width) && Holds(e, x, place, data, xo) && o < |x|
    ensures ExpertRow(exp, x, e, width)[o] == Gives(exp, data, xo, place, |x|, width, o)
  {
    hide HiddenAt, SumTo, A.DotAt, Gated, Positive, Span;
    SpanApart(o, |x|, width);
    var hid := Hidden(exp, x, e, width);
    V.DotIsSum(hid, 0, e.down, Span(o, width), width);
    forall i: nat | i < width ensures Products(hid, 0, e.down, Span(o, width))(i) == Terms(exp, data, xo, place, |x|, width, o)(i) {
      GatedAt(exp, x, e, place, data, xo, width, i);
      assert At(hid, 0 + i) == HiddenAt(exp, x, e, width, i);
      assert At(e.down, Span(o, width) + i) == At(place.down, place.downAt + Span(o, width) + i);
    }
    SumSame(width, Products(hid, 0, e.down, Span(o, width)), Terms(exp, data, xo, place, |x|, width, o));
  }

  // ----- one row -----

  lemma {:induction false} MassIsSum(probs: seq<real>, chosen: seq<nat>, t: nat, p: nat -> real)
    requires t <= |chosen| && (forall u :: 0 <= u < |chosen| ==> chosen[u] < |probs|) && forall u: nat :: u < t ==> p(u) == probs[chosen[u]]
    ensures Mass(probs, chosen, t) == SumTo(t, p)
  {
    if t > 0 { MassIsSum(probs, chosen, t - 1, p); }
  }

  lemma {:induction false} MixedSum(exp: Exp, x: Row, probs: seq<real>, chosen: seq<nat>, experts: seq<Expert>, width: nat, t: nat, o: nat,
                                    p: nat -> real, g: nat -> real)
    requires Positive(exp) && |experts| == |chosen| && t <= |chosen| && o < |x|
    requires forall u :: 0 <= u < |chosen| ==> chosen[u] < |probs| && (u < t ==> experts[u].Sized(|x|, width))
    requires forall u: nat :: u < t ==> p(u) == probs[chosen[u]] && g(u) == ExpertRow(exp, x, experts[u], width)[o]
    ensures Mixed(exp, x, probs, chosen, experts, width, t)[o] * Divisor(probs, chosen) == SumTo(t, Times(p, g))
  {
    hide *;
    if t == 0 {
      MixedNothing(exp, x, probs, chosen, experts, width, o, p, g);
    } else {
      MixedSum(exp, x, probs, chosen, experts, width, t - 1, o, p, g);
      var front, z := Mixed(exp, x, probs, chosen, experts, width, t - 1)[o], Divisor(probs, chosen);
      MixedStep(exp, x, probs, chosen, experts, width, t, o);
      OneShare(front, probs[chosen[t - 1]], z, ExpertRow(exp, x, experts[t - 1], width)[o]);
      LastTime(t, p, g);
    }
  }

  lemma MixedNothing(exp: Exp, x: Row, probs: seq<real>, chosen: seq<nat>, experts: seq<Expert>, width: nat, o: nat, p: nat -> real, g: nat -> real)
    requires Positive(exp) && |experts| == |chosen| && o < |x| && forall u :: 0 <= u < |chosen| ==> chosen[u] < |probs|
    ensures Mixed(exp, x, probs, chosen, experts, width, 0)[o] * Divisor(probs, chosen) == SumTo(0, Times(p, g))
  {
    hide Divisor;
    assert Mixed(exp, x, probs, chosen, experts, width, 0)[o] == 0.0;
  }

  lemma LastTime(t: nat, p: nat -> real, g: nat -> real)
    requires t > 0
    ensures SumTo(t, Times(p, g)) == SumTo(t - 1, Times(p, g)) + p(t - 1) * g(t - 1)
  {}

  lemma MixedStep(exp: Exp, x: Row, probs: seq<real>, chosen: seq<nat>, experts: seq<Expert>, width: nat, t: nat, o: nat)
    requires Positive(exp) && |experts| == |chosen| && 0 < t <= |chosen| && o < |x|
    requires forall u :: 0 <= u < |chosen| ==> chosen[u] < |probs| && (u < t ==> experts[u].Sized(|x|, width))
    ensures Mixed(exp, x, probs, chosen, experts, width, t)[o]
         == Mixed(exp, x, probs, chosen, experts, width, t - 1)[o] + probs[chosen[t - 1]] / Divisor(probs, chosen) * ExpertRow(exp, x, experts[t - 1], width)[o]
  {
    hide Mixed, ExpertRow, Divisor, HiddenAt, Span, Positive, Mass;
    OneMixed(exp, x, probs, chosen, experts, width, t);
  }

  lemma OneMixed(exp: Exp, x: Row, probs: seq<real>, chosen: seq<nat>, experts: seq<Expert>, width: nat, t: nat)
    requires Positive(exp) && |experts| == |chosen| && 0 < t <= |chosen|
    requires forall u :: 0 <= u < |chosen| ==> chosen[u] < |probs| && (u < t ==> experts[u].Sized(|x|, width))
    ensures Mixed(exp, x, probs, chosen, experts, width, t)
         == AddScaled(Mixed(exp, x, probs, chosen, experts, width, t - 1), Weight(probs, chosen, t - 1), ExpertRow(exp, x, experts[t - 1], width))
  {
    hide ExpertRow, Divisor, AddScaled, Weight, Zeros, Span, Positive, Mass;
  }

  lemma OneShare(front: real, p: real, z: real, row: real)
    requires z > 0.0
    ensures (front + p / z * row) * z == front * z + p * row
  {
    var w := p / z;
    assert w * z == p;
    assert (front + w * row) * z == front * z + w * row * z;
    assert w * row * z == w * z * row;
  }

  /** A mixed row is the average of what its experts give. */
  lemma MixedIsMixture(exp: Exp, x: Row, probs: seq<real>, chosen: seq<nat>, experts: seq<Expert>, width: nat, o: nat, p: nat -> real, g: nat -> real)
    requires Positive(exp) && |experts| == |chosen| && o < |x|
    requires forall u :: 0 <= u < |chosen| ==> chosen[u] < |probs| && experts[u].Sized(|x|, width)
    requires forall u: nat :: u < |chosen| ==> p(u) == probs[chosen[u]] && g(u) == ExpertRow(exp, x, experts[u], width)[o]
    ensures IsMixture(p, g, |chosen|, Mixed(exp, x, probs, chosen, experts, width, |chosen|)[o])
  {
    hide Mixed, ExpertRow, SumTo, Times;
    MassIsSum(probs, chosen, |chosen|, p);
    MixedSum(exp, x, probs, chosen, experts, width, |chosen|, o, p, g);
  }

  lemma GivenAt(exp: Exp, x: Row, e: Expert, width: nat, o: nat, xs: seq<real>, xo: nat, places: Places, chosen: seq<nat>, u: nat)
    requires Positive(exp) && o < |x| && u < |chosen| && e.Sized(|x|, width) && Holds(e, x, places(chosen[u]), xs, xo)
    ensures Given(exp, xs, xo, places, chosen, |x|, width, o)(u) == ExpertRow(exp, x, e, width)[o]
  {
    hide ExpertRow, Gives, Holds, Expert.Sized;
    ExpertGives(exp, x, e, places(chosen[u]), xs, xo, width, o);
  }

  lemma PickedAt(probs: Row, ps: seq<real>, po: nat, chosen: seq<nat>, u: nat)
    requires po + |probs| <= |ps| && probs == ps[po..po + |probs|] && u < |chosen| && chosen[u] < |probs|
    ensures Picked(ps, po, chosen)(u) == probs[chosen[u]]
  {}

  lemma NumberIsGiven(exp: Exp, x: Row, probs: Row, chosen: seq<nat>, experts: seq<Expert>, width: nat, o: nat,
                      xs: seq<real>, xo: nat, ps: seq<real>, po: nat, places: Places)
    requires Positive(exp) && |experts| == |chosen| && o < |x|
    requires forall u :: 0 <= u < |chosen| ==>
               chosen[u] < |probs| && experts[u].Sized(|x|, width) && Holds(experts[u], x, places(chosen[u]), xs, xo)
    requires po + |probs| <= |ps| && probs == ps[po..po + |probs|]
    ensures IsMixture(Picked(ps, po, chosen), Given(exp, xs, xo, places, chosen, |x|, width, o), |chosen|,
                      Mixed(exp, x, probs, chosen, experts, width, |chosen|)[o])
  {
    hide *;
    var p, g := Picked(ps, po, chosen), Given(exp, xs, xo, places, chosen, |x|, width, o);
    forall u: nat | u < |chosen| ensures p(u) == probs[chosen[u]] && g(u) == ExpertRow(exp, x, experts[u], width)[o] {
      PickedAt(probs, ps, po, chosen, u);
      GivenAt(exp, x, experts[u], width, o, xs, xo, places, chosen, u);
    }
    MixedIsMixture(exp, x, probs, chosen, experts, width, o, p, g);
  }

  // ----- what the gate is for -----

  /** The matrix of an expert with every number multiplied. */
  function Grown(c: real, w: seq<real>): (r: seq<real>)
    ensures |r| == |w| && forall i :: 0 <= i < |w| ==> r[i] == c * w[i]
  {
    seq(|w|, i requires 0 <= i < |w| => c * w[i])
  }

  lemma {:induction false} DotGrown(a: Row, ao: nat, b: Row, bo: nat, n: nat, c: real)
    requires ao + n <= |a| && bo + n <= |b|
    ensures A.DotAt(a, ao, Grown(c, b), bo, n) == c * A.DotAt(a, ao, b, bo, n)
  {
    if n > 0 {
      DotGrown(a, ao, b, bo, n - 1, c);
      var x, y := a[ao + n - 1], b[bo + n - 1];
      assert x * (c * y) == c * (x * y);
      assert c * (A.DotAt(a, ao, b, bo, n - 1) + x * y) == c * A.DotAt(a, ao, b, bo, n - 1) + c * (x * y);
    }
  }

  /** Scaling an expert's up matrix scales its contribution to the row by the same factor. */
  lemma UpScales(exp: Exp, x: Row, e: Expert, width: nat, c: real, o: nat)
    requires Positive(exp) && e.Sized(|x|, width) && o < |x|
    ensures e.(up := Grown(c, e.up)).Sized(|x|, width)
    ensures ExpertRow(exp, x, e.(up := Grown(c, e.up)), width)[o] == c * ExpertRow(exp, x, e, width)[o]
  {
    hide A.DotAt, Silu, Span, Positive;
    var e' := e.(up := Grown(c, e.up));
    var hid, hid' := Hidden(exp, x, e, width), Hidden(exp, x, e', width);
    forall i | 0 <= i < width ensures hid'[i] == Grown(c, hid)[i] { HiddenGrows(exp, x, e, width, c, i); }
    assert hid' == Grown(c, hid);
    SpanApart(o, |x|, width);
    DotSwaps(hid', 0, e.down, Span(o, width), width);
    DotGrown(e.down, Span(o, width), hid, 0, width, c);
    DotSwaps(hid, 0, e.down, Span(o, width), width);
  }

  lemma {:induction false} DotSwaps(a: Row, ao: nat, b: Row, bo: nat, n: nat)
    requires ao + n <= |a| && bo + n <= |b|
    ensures A.DotAt(a, ao, b, bo, n) == A.DotAt(b, bo, a, ao, n)
  {
    if n > 0 { DotSwaps(a, ao, b, bo, n - 1); }
  }

  lemma HiddenGrows(exp: Exp, x: Row, e: Expert, width: nat, c: real, i: nat)
    requires Positive(exp) && e.Sized(|x|, width) && i < width
    ensures HiddenAt(exp, x, e.(up := Grown(c, e.up)), width, i) == c * HiddenAt(exp, x, e, width, i)
  {
    hide A.DotAt, Silu, Span, Positive;
    SpanApart(i, width, |x|);
    DotGrown(x, 0, e.up, Span(i, |x|), |x|, c);
    var g, u := Silu(exp, A.DotAt(x, 0, e.gate, Span(i, |x|), |x|)), A.DotAt(x, 0, e.up, Span(i, |x|), |x|);
    assert g * (c * u) == c * (g * u);
  }

  /**
   Scaling the gate does not: for the expert of single ones, twice the gate gives twice the output exactly when the
   exponentials of -1 and -2 agree.
   */
  lemma GateDoesNotScale(exp: Exp)
    requires Positive(exp)
    ensures var e := Expert([1.0], [1.0], [1.0]);
      && Expert([2.0], [1.0], [1.0]) == e.(gate := Grown(2.0, e.gate)) && e.Sized(1, 1)
      && (ExpertRow(exp, [1.0], Expert([2.0], [1.0], [1.0]), 1)[0] == 2.0 * ExpertRow(exp, [1.0], e, 1)[0] <==> exp(-2.0) == exp(-1.0))
  {
    OneOne();
    Ones(exp, 1.0);
    Ones(exp, 2.0);
    var a, b := 1.0 + exp(-1.0), 1.0 + exp(-2.0);
    Halved(a, b);
    assert Grown(2.0, [1.0]) == [2.0];
  }

  lemma OneOne()
    ensures Span(1, 1) == 1
  {}

  lemma Halved(a: real, b: real)
    requires a > 0.0 && b > 0.0
    ensures 2.0 / b == 2.0 * (1.0 / a) <==> b == a
  {
    assert 2.0 / b * b == 2.0 && 1.0 / a * a == 1.0;
    if 2.0 / b == 2.0 * (1.0 / a) { assert 2.0 * (1.0 / a) * b == 2.0; }
  }

  lemma Ones(exp: Exp, g: real)
    requires Positive(exp)
    ensures Expert([g], [1.0], [1.0]).Sized(1, 1)
    ensures ExpertRow(exp, [1.0], Expert([g], [1.0], [1.0]), 1)[0] == g / (1.0 + exp(-g))
  {
    OneOne();
    var e := Expert([g], [1.0], [1.0]);
    OneDot(1.0, g);
    OneDot(1.0, 1.0);
    assert HiddenAt(exp, [1.0], e, 1, 0) == Silu(exp, g) * 1.0;
    var hid := Hidden(exp, [1.0], e, 1);
    assert hid == [hid[0]];
    OneDot(hid[0], 1.0);
  }

  lemma OneDot(a: real, b: real)
    ensures A.DotAt([a], 0, [b], 0, 1) == a * b
  {
    assert A.DotAt([a], 0, [b], 0, 0) == 0.0;
  }
}
