/**
 The two expert kernels as the program runs them, over a packed bank and over a list of views, and
 their agreement: with the same choice, a list whose selected entries are the bank's slices gives
 the bank's rows, whatever the other entries hold.
 */
module MoeKernels {
  import opened Layout
  import opened KvModel
  import opened Moe
  import opened Sums
  import M = Mixtures

  /** The effective number of chosen experts. */
  function TakeCount(topK: int, n: nat): (k: nat)
    ensures k <= n
  {
    Min(if topK > 0 then topK else 1, n)
  }

  /** Length of dimension `i`: a loop over a negative one does not run. */
  function Len(v: View, i: nat): nat
    requires i < |v.shape|
  {
    Pos(v.shape[i])
  }

  predicate Full2(v: View) { |v.shape| == 2 && v.data.Some? && Span(Len(v, 0), Len(v, 1)) <= |v.data.value| }

  predicate Full3(v: View) { |v.shape| == 3 && v.data.Some? && Span(Len(v, 0), Span(Len(v, 1), Len(v, 2))) <= |v.data.value| }

  /** Row `b` of a matrix. */
  function MatrixRow(v: View, b: nat): (r: Row)
    requires Full2(v) && b < Len(v, 0)
    ensures |r| == Len(v, 1)
  {
    SpanApart(b, Len(v, 0), Len(v, 1));
    RowAt(v.data.value, Len(v, 1), b)
  }

  // ----- the output -----

  type Source = nat -> Option<Expert>

  /** The experts of a choice; an empty one stands for an absent one. */
  function Chosen(source: Source, chosen: seq<nat>): (r: seq<Expert>)
    ensures |r| == |chosen|
    ensures forall t :: 0 <= t < |chosen| && source(chosen[t]).Some? ==> r[t] == source(chosen[t]).value
  {
    seq(|chosen|, t requires 0 <= t < |chosen| => if source(chosen[t]).Some? then source(chosen[t]).value else Expert([], [], []))
  }

  /** The first `t` experts of a choice are all there. */
  predicate Present(source: Source, chosen: seq<nat>, t: nat)
    requires t <= |chosen|
  {
    forall u :: 0 <= u < t ==> source(chosen[u]).Some?
  }

  predicate Fits(source: Source, n: nat, dim: nat, width: nat) {
    forall e: nat :: e < n && source(e).Some? ==> source(e).value.Sized(dim, width)
  }

  /** The row at `at` is the mixture of the chosen experts, all of them there. */
  ghost predicate RowMixed(exp: Exp, x: Row, probs: Row, k: nat, width: nat, source: Source, chosen: seq<nat>, out: seq<real>, at: nat)
    requires Positive(exp) && Fits(source, |probs|, |x|, width)
  {
    && IsTopK(probs, k, chosen) && Present(source, chosen, k) && at + |x| <= |out|
    && out[at..at + |x|] == Mixed(exp, x, probs, chosen, Chosen(source, chosen), width, k)
  }

  /** Everything a kernel call works on. */
  datatype Call = Call(x: View, probs: View, k: nat, width: nat, n: nat, source: Source) {
    predicate Sound() {
      Full2(x) && Full2(probs) && probs.shape == [x.shape[0], n] && k <= n && Fits(source, n, Len(x, 1), width)
    }

    function Batch(): nat requires Sound() { Len(x, 0) }

    function Dim(): nat requires Sound() { Len(x, 1) }

    function Input(b: nat): (r: Row)
      requires Sound() && b < Batch()
      ensures |r| == Dim()
    {
      MatrixRow(x, b)
    }

    function Probs(b: nat): (r: Row)
      requires Sound() && b < Batch()
      ensures |r| == n
    {
      MatrixRow(probs, b)
    }
  }

  ghost predicate RowDone(exp: Exp, c: Call, choices: seq<seq<nat>>, out: seq<real>, b: nat)
    requires Positive(exp) && c.Sound() && b < c.Batch() && b < |choices|
  {
    RowMixed(exp, c.Input(b), c.Probs(b), c.k, c.width, c.source, choices[b], out, Span(b, c.Dim()))
  }

  /** The first `n` output rows hold the mixtures of the recorded choices. */
  ghost predicate RowsDone(exp: Exp, c: Call, choices: seq<seq<nat>>, out: seq<real>, n: nat)
    requires Positive(exp) && c.Sound() && n <= c.Batch()
  {
    n <= |choices| && forall b :: 0 <= b < n ==> RowDone(exp, c, choices, out, b)
  }

  predicate SameOutside(before: seq<real>, now: seq<real>, from: nat, to: nat) {
    |now| == |before| && forall i :: 0 <= i < |now| && !(from <= i < to) ==> now[i] == before[i]
  }

  // ----- one row -----

  lemma PatchTwice(s: seq<real>, at: nat, p: Row, q: Row)
    requires at + |p| <= |s| && |p| == |q|
    ensures Patch(s, at, p)[at..at + |p|] == p
    ensures Patch(Patch(s, at, p), at, q) == Patch(s, at, q)
  {
    assert Patch(s, at, p)[at..at + |p|] == p;
    assert Patch(Patch(s, at, p), at, q) == Patch(s, at, q);
  }

  lemma PatchOutside(s: seq<real>, at: nat, p: Row)
    requires at + |p| <= |s|
    ensures SameOutside(s, Patch(s, at, p), at, at + |p|)
  {}

  method SelectedMass(probs: Row, chosen: seq<nat>) returns (mass: real)
    requires forall u :: 0 <= u < |chosen| ==> chosen[u] < |probs|
    ensures mass == Divisor(probs, chosen)
  {
    mass := 0.0;
    for t := 0 to |chosen|
      invariant mass == Mass(probs, chosen, t)
    {
      mass := mass + probs[chosen[t]];
    }
    if !(mass > 0.0) { mass := 1.0; }
  }

  method ZeroRow(y: array<real>, at: nat, dim: nat)
    requires at + dim <= y.Length
    modifies y
    ensures y[..] == Patch(old(y[..]), at, Zeros(dim))
  {
    for o := 0 to dim
      invariant forall i :: 0 <= i < y.Length ==> y[i] == if at <= i < at + o then 0.0 else old(y[i])
    {
      y[at + o] := 0.0;
    }
  }

  /** Mixes in expert number `t` of the choice. */
  method MixOne(exp: Exp, x: Row, probs: Row, chosen: seq<nat>, experts: seq<Expert>, width: nat, t: nat, w: real,
                hid: array<real>, y: array<real>, at: nat, ghost before: seq<real>)
    requires Positive(exp) && |experts| == |chosen| && t < |chosen|
    requires forall u :: 0 <= u < |chosen| ==> chosen[u] < |probs| && (u < t + 1 ==> experts[u].Sized(|x|, width))
    requires w == Weight(probs, chosen, t) && hid.Length == width && hid != y && at + |x| <= |before| == y.Length
    requires y[..] == Patch(before, at, Mixed(exp, x, probs, chosen, experts, width, t))
    modifies hid, y
    ensures y[..] == Patch(before, at, Mixed(exp, x, probs, chosen, experts, width, t + 1))
  {
    ghost var now := Mixed(exp, x, probs, chosen, experts, width, t);
    ghost var next := AddScaled(now, w, ExpertRow(exp, x, experts[t], width));
    assert Mixed(exp, x, probs, chosen, experts, width, t + 1) == next;
    hide Patch, Mixed, Weight, ExpertRow, AddScaled;
    PatchTwice(before, at, now, next);
    ExpertPass(exp, x, experts[t], width, w, hid, y, at);
  }

  /** The mixing loop over a choice; stops at the first absent expert. */
  method MixChosen(exp: Exp, x: Row, probs: Row, chosen: seq<nat>, width: nat, source: Source, mass: real,
                   hid: array<real>, y: array<real>, at: nat, ghost before: seq<real>) returns (absent: Option<nat>)
    requires Positive(exp) && Fits(source, |probs|, |x|, width) && forall u :: 0 <= u < |chosen| ==> chosen[u] < |probs|
    requires mass == Divisor(probs, chosen) && hid.Length == width && hid != y && at + |x| <= |before| == y.Length
    requires y[..] == Patch(before, at, Zeros(|x|))
    modifies hid, y
    ensures SameOutside(before, y[..], at, at + |x|)
    ensures absent.None? ==> Present(source, chosen, |chosen|)
    ensures absent.None? ==>
              y[..] == Patch(before, at, Mixed(exp, x, probs, chosen, Chosen(source, chosen), width, |chosen|))
    ensures absent.Some? ==> absent.value in chosen && absent.value < |probs| && source(absent.value).None?
  {
    absent := None;
    var experts := Chosen(source, chosen);
    ghost var row := Mixed(exp, x, probs, chosen, experts, width, 0);
    assert row == Zeros(|x|);
    hide Mixed, ExpertRow, AddScaled, Divisor, Mass, Zeros, Patch, SameOutside;
    for t := 0 to |chosen|
      invariant Present(source, chosen, t)
      invariant |row| == |x| && y[..] == Patch(before, at, row)
      invariant row == Mixed(exp, x, probs, chosen, experts, width, t)
    {
      var e := chosen[t];
      if source(e).None? {
        PatchOutside(before, at, row);
        absent := Some(e);
        return;
      }
      MixOne(exp, x, probs, chosen, experts, width, t, probs[e] / mass, hid, y, at, before);
      row := Mixed(exp, x, probs, chosen, experts, width, t + 1);
    }
    PatchOutside(before, at, row);
  }

  /** Picks the experts of one row and mixes them into the output. */
  method MixRow(exp: Exp, x: Row, probs: Row, k: nat, width: nat, source: Source, hid: array<real>, y: array<real>, at: nat)
    returns (chosen: seq<nat>, absent: Option<nat>)
    requires Positive(exp) && Fits(source, |probs|, |x|, width) && k <= |probs|
    requires hid.Length == width && hid != y && at + |x| <= y.Length
    modifies hid, y
    ensures IsTopK(probs, k, chosen)
    ensures absent.None? ==> RowMixed(exp, x, probs, k, width, source, chosen, y[..], at)
    ensures absent.Some? ==> absent.value in chosen && absent.value < |probs| && source(absent.value).None?
    ensures SameOutside(old(y[..]), y[..], at, at + |x|)
  {
    ghost var before := y[..];
    chosen := TopK(probs, k);
    var mass := SelectedMass(probs, chosen);
    ZeroRow(y, at, |x|);
    hide Mixed, Divisor, Mass, Zeros, Patch, SameOutside;
    absent := MixChosen(exp, x, probs, chosen, width, source, mass, hid, y, at, before);
    if absent.None? {
      ghost var row := Mixed(exp, x, probs, chosen, Chosen(source, chosen), width, k);
      PatchTwice(before, at, row, row);
    }
  }

  // ----- all rows -----

  lemma RowsKept(exp: Exp, c: Call, choices: seq<seq<nat>>, more: seq<seq<nat>>, out: seq<real>, now: seq<real>, b: nat)
    requires Positive(exp) && c.Sound() && b < c.Batch() && RowsDone(exp, c, choices, out, b) && choices <= more
    requires SameOutside(out, now, Span(b, c.Dim()), Span(b, c.Dim()) + c.Dim())
    ensures RowsDone(exp, c, more, now, b)
  {
    forall a | 0 <= a < b ensures RowDone(exp, c, more, now, a) {
      assert RowDone(exp, c, choices, out, a);
      SpanApart(a, b, c.Dim());
      var at := Span(a, c.Dim());
      assert now[at..at + c.Dim()] == out[at..at + c.Dim()];
    }
  }

  /** The call stopped because row number `b` picked an expert that is not there. */
  predicate StoppedAt(c: Call, b: nat, failed: seq<nat>, absent: nat)
    requires c.Sound()
  {
    b < c.Batch() && IsTopK(c.Probs(b), c.k, failed) && absent in failed && absent < c.n && c.source(absent).None?
  }

  lemma WithinAll(before: seq<real>, mid: seq<real>, now: seq<real>, from: nat, to: nat, total: nat)
    requires SameOutside(before, mid, 0, total) && SameOutside(mid, now, from, to) && to <= total
    ensures SameOutside(before, now, 0, total)
  {}

  /** The row loop that both kernels run; `choices` are those of the finished rows. */
  method MixRows(exp: Exp, c: Call, y: array<real>) returns (absent: Option<nat>, choices: seq<seq<nat>>, failed: seq<nat>)
    requires Positive(exp) && c.Sound() && Span(c.Batch(), c.Dim()) <= y.Length
    modifies y
    ensures |choices| <= c.Batch() && RowsDone(exp, c, choices, y[..], |choices|)
    ensures absent.None? ==> |choices| == c.Batch()
    ensures absent.Some? ==> StoppedAt(c, |choices|, failed, absent.value)
    ensures SameOutside(old(y[..]), y[..], 0, Span(c.Batch(), c.Dim()))
  {
    var hid := new real[c.width];
    choices, failed, absent := [], [], None;
    ghost var before := y[..];
    var total := Span(c.Batch(), c.Dim());
    for b := 0 to c.Batch()
      invariant |choices| == b && absent.None?
      invariant RowsDone(exp, c, choices, y[..], b)
      invariant SameOutside(before, y[..], 0, total)
    {
      hide IsTopK, RowMixed, SameOutside;
      SpanApart(b, c.Batch(), c.Dim());
      ghost var now := y[..];
      var chosen;
      chosen, absent := MixRow(exp, c.Input(b), c.Probs(b), c.k, c.width, c.source, hid, y, Span(b, c.Dim()));
      RowsKept(exp, c, choices, choices + [chosen], now, y[..], b);
      WithinAll(before, now, y[..], Span(b, c.Dim()), Span(b, c.Dim()) + c.Dim(), total);
      if absent.Some? {
        RowsKept(exp, c, choices, choices, now, y[..], b);
        failed := chosen;
        return;
      }
      choices := choices + [chosen];
      assert RowDone(exp, c, choices, y[..], b);
    }
  }

  /** The choices determine the rows. */
  lemma {:induction false} RowsAreMixtures(exp: Exp, c: Call, choices: seq<seq<nat>>, one: seq<real>, two: seq<real>, n: nat)
    requires Positive(exp) && c.Sound() && n <= c.Batch() && RowsDone(exp, c, choices, one, n) && RowsDone(exp, c, choices, two, n)
    requires Span(n, c.Dim()) <= |one| && Span(n, c.Dim()) <= |two|
    ensures one[..Span(n, c.Dim())] == two[..Span(n, c.Dim())]
  {
    if n > 0 {
      var at := Span(n - 1, c.Dim());
      RowsAreMixtures(exp, c, choices, one, two, n - 1);
      hide Mixed, IsTopK;
      assert RowDone(exp, c, choices, one, n - 1) && RowDone(exp, c, choices, two, n - 1);
      assert one[..at + c.Dim()] == one[..at] + one[at..at + c.Dim()];
      assert two[..at + c.Dim()] == two[..at] + two[at..at + c.Dim()];
    }
  }

  // ----- the rows, number by number -----

  function NumbersOf(v: View): seq<real> { if v.data.Some? then v.data.value else [] }

  /** The buffers hold every expert that is there at its place. */
  predicate Placed(source: Source, n: nat, places: M.Places) {
    forall e: nat :: e < n && source(e).Some? ==> M.Stands(source(e).value, places(e))
  }

  /** Every recorded choice is right and its row holds the average of its experts. */
  ghost predicate RowsGiven(exp: Exp, xs: seq<real>, ps: seq<real>, topK: int, n: nat, dim: nat, width: nat, places: M.Places,
                            choices: seq<seq<nat>>, out: seq<real>)
    requires Positive(exp)
  {
    forall b: nat :: b < |choices| ==> M.RowGiven(exp, xs, ps, topK, n, dim, width, places, choices[b], b, out)
  }

  /** The row and the probabilities of row `b`, in their buffers. */
  lemma RowStretches(c: Call, b: nat)
    requires c.Sound() && b < c.Batch()
    ensures Span(b, c.Dim()) + c.Dim() <= |c.x.data.value| && c.Input(b) == c.x.data.value[Span(b, c.Dim())..Span(b, c.Dim()) + c.Dim()]
    ensures Span(b, c.n) + c.n <= |c.probs.data.value| && c.Probs(b) == c.probs.data.value[Span(b, c.n)..Span(b, c.n) + c.n]
  {
    SpanApart(b, c.Batch(), c.Dim());
    SpanApart(b, c.Batch(), c.n);
  }

  /** The experts of a choice stand at their places. */
  lemma ChosenHeld(c: Call, b: nat, chosen: seq<nat>, places: M.Places)
    requires c.Sound() && b < c.Batch() && Placed(c.source, c.n, places) && Present(c.source, chosen, |chosen|)
    requires forall t :: 0 <= t < |chosen| ==> chosen[t] < c.n
    ensures forall t :: 0 <= t < |chosen| ==>
              var e := Chosen(c.source, chosen)[t];
              e.Sized(c.Dim(), c.width) && M.Holds(e, c.Input(b), places(chosen[t]), c.x.data.value, Span(b, c.Dim()))
  {
    hide M.Stands, Expert.Sized, Span, MatrixRow;
    RowStretches(c, b);
    forall t | 0 <= t < |chosen|
      ensures var e := Chosen(c.source, chosen)[t];
        e.Sized(c.Dim(), c.width) && M.Holds(e, c.Input(b), places(chosen[t]), c.x.data.value, Span(b, c.Dim()))
    {
      assert c.source(chosen[t]).Some?;
    }
  }

  lemma RowIsGiven(exp: Exp, c: Call, choices: seq<seq<nat>>, out: seq<real>, b: nat, topK: int, places: M.Places)
    requires Positive(exp) && c.Sound() && b < c.Batch() && b < |choices| && RowDone(exp, c, choices, out, b)
    requires Placed(c.source, c.n, places) && c.k == TakeCount(topK, c.n)
    ensures M.RowGiven(exp, c.x.data.value, c.probs.data.value, topK, c.n, c.Dim(), c.width, places, choices[b], b, out)
  {
    hide Mixed, M.IsMixture, M.Given, M.Picked, M.Stands, Positive, Span, IsTopK, M.Holds, Expert.Sized, MatrixRow;
    var chosen, x, probs := choices[b], c.Input(b), c.Probs(b);
    var xs, ps, at := c.x.data.value, c.probs.data.value, Span(b, c.Dim());
    TopKIn(probs, c.k, chosen);
    RowStretches(c, b);
    ChosenHeld(c, b, chosen, places);
    var row := Mixed(exp, x, probs, chosen, Chosen(c.source, chosen), c.width, c.k);
    assert row == out[at..at + c.Dim()];
    forall o: nat | o < c.Dim()
      ensures M.IsMixture(M.Picked(ps, Span(b, c.n), chosen), M.Given(exp, xs, at, places, chosen, c.Dim(), c.width, o), |chosen|, At(out, at + o))
    {
      M.NumberIsGiven(exp, x, probs, chosen, Chosen(c.source, chosen), c.width, o, xs, at, ps, Span(b, c.n), places);
      assert row[o] == out[at + o];
    }
  }

  lemma TopKIn(probs: seq<real>, k: nat, chosen: seq<nat>)
    requires IsTopK(probs, k, chosen)
    ensures |chosen| == k && forall t :: 0 <= t < k ==> chosen[t] < |probs|
  {}

  lemma RowsAreGiven(exp: Exp, c: Call, choices: seq<seq<nat>>, out: seq<real>, topK: int, places: M.Places)
    requires Positive(exp) && c.Sound() && |choices| <= c.Batch() && RowsDone(exp, c, choices, out, |choices|)
    requires Placed(c.source, c.n, places) && c.k == TakeCount(topK, c.n)
    ensures RowsGiven(exp, c.x.data.value, c.probs.data.value, topK, c.n, c.Dim(), c.width, places, choices, out)
  {
    hide M.RowGiven, RowMixed, Placed, Positive;
    forall b: nat | b < |choices|
      ensures M.RowGiven(exp, c.x.data.value, c.probs.data.value, topK, c.n, c.Dim(), c.width, places, choices[b], b, out)
    {
      assert RowDone(exp, c, choices, out, b);
      RowIsGiven(exp, c, choices, out, b, topK, places);
    }
  }

  // ----- packed banks -----

  datatype Bank = Bank(gate: View, up: View, down: View) {
    predicate Sound() {
      && Full3(gate) && Full3(up) && Full3(down) && up.shape == gate.shape
      && down.shape == [gate.shape[0], gate.shape[2], gate.shape[1]]
    }
  }

  function PackedCheck(x: View, bank: Bank, probs: View, outShape: seq<int>, numExperts: int): Option<MoeError> {
    var g, u, d := bank.gate.shape, bank.up.shape, bank.down.shape;
    if |x.shape| != 2 || |outShape| != 2 || |g| != 3 || |u| != 3 || |d| != 3 || |probs.shape| != 2 then Some(BadRank)
    else if g[0] != numExperts || u != [g[0], g[1], x.shape[1]] || d != [g[0], x.shape[1], g[1]]
            || probs.shape != [x.shape[0], g[0]] || outShape != x.shape || g[2] != x.shape[1] then Some(BadShape)
    else None
  }

  /** Expert `e` of a bank: the pointer arithmetic of the packed kernel. */
  function BankExpert(bank: Bank, e: nat): (r: Expert)
    requires bank.Sound() && e < Len(bank.gate, 0)
    ensures r.Sized(Len(bank.gate, 2), Len(bank.gate, 1))
  {
    var n, w, d := Len(bank.gate, 0), Len(bank.gate, 1), Len(bank.gate, 2);
    SpanApart(e, n, Span(w, d));
    SpanApart(e, n, Span(d, w));
    Expert(bank.gate.data.value[Span(e, Span(w, d))..Span(e, Span(w, d)) + Span(w, d)],
           bank.up.data.value[Span(e, Span(w, d))..Span(e, Span(w, d)) + Span(w, d)],
           bank.down.data.value[Span(e, Span(d, w))..Span(e, Span(d, w)) + Span(d, w)])
  }

  function BankSource(bank: Bank): Source
    requires bank.Sound()
  {
    (e: nat) => if e < Len(bank.gate, 0) && bank.Sound() then Some(BankExpert(bank, e)) else None
  }

  /** The buffers cover their shapes. */
  predicate PackedBacked(x: View, bank: Bank, probs: View) { Full2(x) && Full2(probs) && Full3(bank.gate) && Full3(bank.up) && Full3(bank.down) }

  function PackedCall(x: View, bank: Bank, probs: View, topK: int): (c: Call)
    requires PackedBacked(x, bank, probs) && exists n: nat, s :: PackedCheck(x, bank, probs, s, n) == None
    ensures c.Sound() && c.x == x && c.probs == probs
    ensures forall e: nat :: e < c.n ==> c.source(e).Some?
  {
    Call(x, probs, TakeCount(topK, Len(bank.gate, 0)), Len(bank.gate, 1), Len(bank.gate, 0), BankSource(bank))
  }

  /** The buffers of a packed call whose shapes pass: no negative count or width, every buffer as long as its shape says. */
  predicate PackedFits(x: View, bank: Bank, probs: View, outShape: seq<int>, numExperts: int, size: nat) {
    PackedCheck(x, bank, probs, outShape, numExperts) == None ==>
      0 <= numExperts && 0 <= bank.gate.shape[1] && PackedBacked(x, bank, probs) && Span(Len(x, 0), Len(x, 1)) <= size
  }

  /** What the packed kernel leaves: refused on shapes, or every row mixed. */
  ghost predicate PackedLeaves(exp: Exp, x: View, bank: Bank, probs: View, outShape: seq<int>, numExperts: int, topK: int,
                               before: seq<real>, now: seq<real>, err: Option<MoeError>, choices: seq<seq<nat>>)
    requires Positive(exp) && PackedFits(x, bank, probs, outShape, numExperts, |before|)
  {
    && err == PackedCheck(x, bank, probs, outShape, numExperts)
    && if err.Some? then now == before
       else RowsDone(exp, PackedCall(x, bank, probs, topK), choices, now, Len(x, 0)) && SameOutside(before, now, 0, Span(Len(x, 0), Len(x, 1)))
  }

  /** A packed call whose shapes fit together: `b` rows of `d` numbers, `n` experts of width `i`. */
  predicate PackedLegal(x: View, bank: Bank, probs: View, outShape: seq<int>, n: int, b: int, i: int, d: int) {
    && x.shape == [b, d] && probs.shape == [b, n] && outShape == [b, d]
    && bank.gate.shape == [n, i, d] && bank.up.shape == [n, i, d] && bank.down.shape == [n, d, i]
  }

  /** The checks pass exactly when the shapes fit together. */
  lemma PackedAccepts(x: View, bank: Bank, probs: View, outShape: seq<int>, n: int)
    ensures PackedCheck(x, bank, probs, outShape, n) == None <==> exists b, i, d :: PackedLegal(x, bank, probs, outShape, n, b, i, d)
  {
    if PackedCheck(x, bank, probs, outShape, n) == None {
      PackedIsLegal(x, bank, probs, outShape, n);
    }
  }

  lemma PackedIsLegal(x: View, bank: Bank, probs: View, outShape: seq<int>, n: int)
    requires PackedCheck(x, bank, probs, outShape, n) == None
    ensures PackedLegal(x, bank, probs, outShape, n, x.shape[0], bank.gate.shape[1], x.shape[1])
  {}

  lemma BankPlaced(bank: Bank)
    requires bank.Sound()
    ensures Placed(BankSource(bank), Len(bank.gate, 0),
                   M.InBank(bank.gate.data.value, bank.up.data.value, bank.down.data.value, Len(bank.gate, 1), Len(bank.gate, 2)))
  {
    hide Span;
    var places := M.InBank(bank.gate.data.value, bank.up.data.value, bank.down.data.value, Len(bank.gate, 1), Len(bank.gate, 2));
    forall e: nat | e < Len(bank.gate, 0) ensures M.Stands(BankExpert(bank, e), places(e)) { BankStands(bank, e); }
  }

  lemma BankStands(bank: Bank, e: nat)
    requires bank.Sound() && e < Len(bank.gate, 0)
    ensures M.Stands(BankExpert(bank, e), M.InBank(bank.gate.data.value, bank.up.data.value, bank.down.data.value, Len(bank.gate, 1), Len(bank.gate, 2))(e))
  {
    hide Span;
    SpanApart(e, Len(bank.gate, 0), Span(Len(bank.gate, 1), Len(bank.gate, 2)));
    SpanApart(e, Len(bank.gate, 0), Span(Len(bank.gate, 2), Len(bank.gate, 1)));
  }

  /** Every row of a packed call holds the average of its experts. */
  ghost predicate PackedRows(exp: Exp, x: View, bank: Bank, probs: View, n: nat, width: nat, dim: nat, topK: int, choices: seq<seq<nat>>, now: seq<real>)
    requires Positive(exp)
  {
    RowsGiven(exp, NumbersOf(x), NumbersOf(probs), topK, n, dim, width,
              M.InBank(NumbersOf(bank.gate), NumbersOf(bank.up), NumbersOf(bank.down), width, dim), choices, now)
  }

  lemma PackedAreGiven(exp: Exp, x: View, bank: Bank, probs: View, outShape: seq<int>, n: nat, topK: int, choices: seq<seq<nat>>, now: seq<real>)
    requires Positive(exp) && PackedFits(x, bank, probs, outShape, n, |now|) && PackedCheck(x, bank, probs, outShape, n) == None
    requires |choices| == Len(x, 0) && RowsDone(exp, PackedCall(x, bank, probs, topK), choices, now, Len(x, 0)) && 0 <= x.shape[1]
    ensures PackedRows(exp, x, bank, probs, n, bank.gate.shape[1], x.shape[1], topK, choices, now)
  {
    hide RowsDone, RowsGiven, Placed, Positive, Span, BankExpert, BankSource;
    BankPlaced(bank);
    RowsAreGiven(exp, PackedCall(x, bank, probs, topK), choices, now, topK,
                 M.InBank(bank.gate.data.value, bank.up.data.value, bank.down.data.value, Len(bank.gate, 1), Len(bank.gate, 2)));
  }

  /** The packed kernel: fails only on shapes; otherwise every row is the average of its top experts. */
  method PackedSwiglu(exp: Exp, x: View, bank: Bank, probs: View, outShape: seq<int>, numExperts: int, topK: int, y: array<real>)
    returns (err: Option<MoeError>, choices: seq<seq<nat>>)
    requires Positive(exp) && PackedFits(x, bank, probs, outShape, numExperts, y.Length)
    modifies y
    ensures PackedLeaves(exp, x, bank, probs, outShape, numExperts, topK, old(y[..]), y[..], err, choices)
    ensures err == PackedCheck(x, bank, probs, outShape, numExperts)
    ensures err.None? ==> |choices| == Pos(x.shape[0])
    ensures err.None? && 0 <= x.shape[1] ==> PackedRows(exp, x, bank, probs, numExperts, bank.gate.shape[1], x.shape[1], topK, choices, y[..])
  {
    hide RowsDone, PackedRows, Positive, SameOutside, Span;
    choices := [];
    err := PackedCheck(x, bank, probs, outShape, numExperts);
    if err.Some? { return; }
    var c := PackedCall(x, bank, probs, topK);
    var absent, failed;
    absent, choices, failed := MixRows(exp, c, y);
    assert absent.None?;
    if 0 <= x.shape[1] { PackedAreGiven(exp, x, bank, probs, outShape, numExperts, topK, choices, y[..]); }
  }

  // ----- listed experts -----

  datatype Triple = Triple(gate: View, up: View, down: View) {
    predicate Missing() { gate.data.None? && up.data.None? && down.data.None? }

    predicate Shaped(width: int, dim: int) {
      && gate.data.Some? && up.data.Some? && down.data.Some?
      && gate.shape == [width, dim] && up.shape == [width, dim] && down.shape == [dim, width]
    }

    predicate Backed() {
      && (gate.data.Some? && |gate.shape| == 2 ==> Full2(gate))
      && (up.data.Some? && |up.shape| == 2 ==> Full2(up))
      && (down.data.Some? && |down.shape| == 2 ==> Full2(down))
    }
  }

  /** The width search: the first listed gate matrix with data. */
  function WidthFrom(triples: seq<Triple>, e: nat): int
    decreases |triples| - e
  {
    if e >= |triples| then 0
    else if triples[e].gate.data.Some? && |triples[e].gate.shape| == 2 then triples[e].gate.shape[0]
    else WidthFrom(triples, e + 1)
  }

  /** The width a list of experts is taken to have; not positive when there is none. */
  function Width(triples: seq<Triple>): int {
    var w := WidthFrom(triples, 0);
    if w <= 0 && |triples| > 0 && |triples[0].gate.shape| == 2 then triples[0].gate.shape[0] else w
  }

  method FindWidth(triples: seq<Triple>) returns (width: int)
    requires |triples| > 0
    ensures width == Width(triples)
  {
    width := 0;
    var e := 0;
    while e < |triples|
      invariant e <= |triples| && width == 0 && WidthFrom(triples, 0) == WidthFrom(triples, e)
    {
      if triples[e].gate.data.Some? && |triples[e].gate.shape| == 2 {
        width := triples[e].gate.shape[0];
        break;
      }
      e := e + 1;
    }
    if width <= 0 && |triples[0].gate.shape| == 2 { width := triples[0].gate.shape[0]; }
  }

  predicate AllShaped(triples: seq<Triple>, width: int, dim: int) {
    forall e :: 0 <= e < |triples| ==> triples[e].Missing() || triples[e].Shaped(width, dim)
  }

  method CheckTriples(triples: seq<Triple>, width: int, dim: int) returns (ok: bool)
    ensures ok <==> AllShaped(triples, width, dim)
  {
    for e := 0 to |triples|
      invariant AllShaped(triples[..e], width, dim)
    {
      assert triples[..e + 1] == triples[..e] + [triples[e]];
      if !triples[e].Missing() && !triples[e].Shaped(width, dim) { return false; }
    }
    assert triples[..|triples|] == triples;
    ok := true;
  }

  function ListedCheck(x: View, probs: View, triples: seq<Triple>, outShape: seq<int>, numExperts: int): Option<MoeError> {
    if |x.shape| != 2 || |outShape| != 2 || |probs.shape| != 2 || numExperts <= 0 then Some(BadRank)
    else if probs.shape != [x.shape[0], numExperts] || outShape != x.shape then Some(BadShape)
    else if Width(triples) <= 0 then Some(UnknownWidth)
    else if !AllShaped(triples, Width(triples), x.shape[1]) then Some(BadExpert)
    else None
  }

  /** What entry `e` of the list supplies, if it is paged in. */
  function ListSource(triples: seq<Triple>): Source {
    (e: nat) =>
      if e < |triples| && Full2(triples[e].gate) && Full2(triples[e].up) && Full2(triples[e].down)
      then Some(Expert(Front(triples[e].gate), Front(triples[e].up), Front(triples[e].down)))
      else None
  }

  function Front(v: View): seq<real>
    requires Full2(v)
  {
    v.data.value[..Span(Len(v, 0), Len(v, 1))]
  }

  function ListedCall(x: View, probs: View, triples: seq<Triple>, topK: int): (c: Call)
    requires Full2(x) && Full2(probs) && probs.shape == [x.shape[0], |triples|] && AllShaped(triples, Width(triples), x.shape[1])
    ensures c.Sound() && c.x == x && c.probs == probs
  {
    Call(x, probs, TakeCount(topK, |triples|), Pos(Width(triples)), |triples|, ListSource(triples))
  }

  /** The buffers of a listed call whose shapes pass are as long as their shapes say. */
  predicate ListedFits(x: View, probs: View, triples: seq<Triple>, outShape: seq<int>, numExperts: int, size: nat) {
    && (numExperts > 0 ==> |triples| == numExperts)
    && (ListedCheck(x, probs, triples, outShape, numExperts) == None ==>
          Full2(x) && Full2(probs) && Span(Len(x, 0), Len(x, 1)) <= size && forall e :: 0 <= e < |triples| ==> triples[e].Backed())
  }

  /** What the listed kernel leaves: refused by its checks, stopped at an absent expert, or every row mixed. */
  ghost predicate ListedLeaves(exp: Exp, x: View, probs: View, triples: seq<Triple>, outShape: seq<int>, numExperts: int, topK: int,
                               before: seq<real>, now: seq<real>, err: Option<MoeError>, choices: seq<seq<nat>>, failed: seq<nat>)
    requires Positive(exp) && ListedFits(x, probs, triples, outShape, numExperts, |before|)
  {
    var check := ListedCheck(x, probs, triples, outShape, numExperts);
    if check.Some? then err == check && now == before
    else
      var c := ListedCall(x, probs, triples, topK);
      && |choices| <= Len(x, 0) && RowsDone(exp, c, choices, now, |choices|)
      && SameOutside(before, now, 0, Span(Len(x, 0), Len(x, 1)))
      && (err.None? ==> |choices| == Len(x, 0))
      && (err.Some? ==> err.value.NotPagedIn? && StoppedAt(c, |choices|, failed, err.value.expert))
  }

  /** A listed call whose shapes fit together; `i` is the width of its experts, or that of the first gate matrix when none is there. */
  predicate ListedLegal(x: View, probs: View, triples: seq<Triple>, outShape: seq<int>, n: int, b: int, i: int, d: int) {
    && n > 0 && i > 0 && x.shape == [b, d] && probs.shape == [b, n] && outShape == [b, d] && AllShaped(triples, i, d)
    && ((forall e :: 0 <= e < |triples| ==> triples[e].Missing()) ==> |triples| > 0 && |triples[0].gate.shape| == 2 && triples[0].gate.shape[0] == i)
  }

  lemma {:induction false} WidthOfShaped(triples: seq<Triple>, i: int, d: int, e: nat)
    requires AllShaped(triples, i, d) && e <= |triples|
    ensures WidthFrom(triples, e) == if forall t :: e <= t < |triples| ==> triples[t].Missing() then 0 else i
    decreases |triples| - e
  {
    if e < |triples| && triples[e].Missing() { WidthOfShaped(triples, i, d, e + 1); }
  }

  /** The checks pass exactly when the shapes fit together. */
  lemma ListedAccepts(x: View, probs: View, triples: seq<Triple>, outShape: seq<int>, n: int)
    ensures ListedCheck(x, probs, triples, outShape, n) == None <==> exists b, i, d :: ListedLegal(x, probs, triples, outShape, n, b, i, d)
    ensures ListedCheck(x, probs, triples, outShape, n) == None ==> ListedLegal(x, probs, triples, outShape, n, x.shape[0], Width(triples), x.shape[1])
  {
    hide AllShaped;
    if ListedCheck(x, probs, triples, outShape, n) == None {
      WidthOfShaped(triples, Width(triples), x.shape[1], 0);
      assert ListedLegal(x, probs, triples, outShape, n, x.shape[0], Width(triples), x.shape[1]);
    }
    if b, i, d :| ListedLegal(x, probs, triples, outShape, n, b, i, d) { WidthOfShaped(triples, i, d, 0); }
  }

  /** The experts of a list: each in its own buffers, from their starts. */
  function InList(triples: seq<Triple>): M.Places {
    (e: nat) => if e < |triples| then M.Place(NumbersOf(triples[e].gate), NumbersOf(triples[e].up), NumbersOf(triples[e].down), 0, 0)
                else M.Place([], [], [], 0, 0)
  }

  lemma ListPlaced(triples: seq<Triple>)
    ensures Placed(ListSource(triples), |triples|, InList(triples))
  {
    hide Span;
  }

  /** The finished rows of a listed call hold the averages of their experts. */
  ghost predicate ListedRows(exp: Exp, x: View, probs: View, triples: seq<Triple>, width: nat, dim: nat, topK: int, choices: seq<seq<nat>>, now: seq<real>)
    requires Positive(exp)
  {
    RowsGiven(exp, NumbersOf(x), NumbersOf(probs), topK, |triples|, dim, width, InList(triples), choices, now)
  }

  lemma ListedAreGiven(exp: Exp, x: View, probs: View, triples: seq<Triple>, topK: int, choices: seq<seq<nat>>, now: seq<real>)
    requires Positive(exp) && Full2(x) && Full2(probs) && probs.shape == [x.shape[0], |triples|] && AllShaped(triples, Width(triples), x.shape[1])
    requires |choices| <= Len(x, 0) && RowsDone(exp, ListedCall(x, probs, triples, topK), choices, now, |choices|) && 0 <= x.shape[1] && 0 < Width(triples)
    ensures ListedRows(exp, x, probs, triples, Width(triples), x.shape[1], topK, choices, now)
  {
    hide RowsDone, RowsGiven, Placed, Positive, Span, ListSource, InList, AllShaped, WidthFrom, Width;
    ListPlaced(triples);
    RowsAreGiven(exp, ListedCall(x, probs, triples, topK), choices, now, topK, InList(triples));
  }

  /** The next row picks an expert that is not paged in. */
  predicate PicksMissing(probs: View, triples: seq<Triple>, topK: int, b: nat, failed: seq<nat>, e: nat) {
    var n, ps := |triples|, NumbersOf(probs);
    && Span(b, n) + n <= |ps| && IsTopK(ps[Span(b, n)..Span(b, n) + n], |failed|, failed) && e in failed && e < n && triples[e].Missing()
    && |failed| == (if topK <= 0 then if n == 0 then 0 else 1 else if topK <= n then topK else n)
  }

  lemma StopsAtMissing(x: View, probs: View, triples: seq<Triple>, topK: int, b: nat, failed: seq<nat>, e: nat)
    requires Full2(x) && Full2(probs) && probs.shape == [x.shape[0], |triples|] && AllShaped(triples, Width(triples), x.shape[1])
    requires StoppedAt(ListedCall(x, probs, triples, topK), b, failed, e) && forall t :: 0 <= t < |triples| ==> triples[t].Backed()
    ensures PicksMissing(probs, triples, topK, b, failed, e)
  {
    hide Span, IsTopK, Width;
    var c := ListedCall(x, probs, triples, topK);
    RowStretches(c, b);
    TopKIn(c.Probs(b), c.k, failed);
    AbsentIsMissing(triples, Width(triples), x.shape[1], e);
  }

  lemma AbsentIsMissing(triples: seq<Triple>, width: int, dim: int, e: nat)
    requires AllShaped(triples, width, dim) && e < |triples| && triples[e].Backed() && ListSource(triples)(e).None?
    ensures triples[e].Missing()
  {}

  /** How a listed call ends: the rows before the end hold their averages, and the next one picks an expert that is not paged in. */
  ghost predicate ListedEnds(exp: Exp, x: View, probs: View, triples: seq<Triple>, outShape: seq<int>, n: int, topK: int,
                             now: seq<real>, err: Option<MoeError>, choices: seq<seq<nat>>, failed: seq<nat>)
    requires Positive(exp)
  {
    exists b, i: nat, d ::
      && ListedLegal(x, probs, triples, outShape, n, b, i, d)
      && (0 <= d ==> ListedRows(exp, x, probs, triples, i, d, topK, choices, now))
      && match err
         case None => |choices| == Pos(b)
         case Some(e) => e.NotPagedIn? && |choices| < b && PicksMissing(probs, triples, topK, |choices|, failed, e.expert)
  }

  lemma ListedDoesEnd(exp: Exp, x: View, probs: View, triples: seq<Triple>, outShape: seq<int>, n: int, topK: int,
                      now: seq<real>, absent: Option<nat>, choices: seq<seq<nat>>, failed: seq<nat>)
    requires Positive(exp) && ListedFits(x, probs, triples, outShape, n, |now|) && ListedCheck(x, probs, triples, outShape, n) == None
    requires var c := ListedCall(x, probs, triples, topK);
      && |choices| <= Len(x, 0) && RowsDone(exp, c, choices, now, |choices|)
      && if absent.None? then |choices| == Len(x, 0) else StoppedAt(c, |choices|, failed, absent.value)
    ensures ListedEnds(exp, x, probs, triples, outShape, n, topK, now, if absent.None? then None else Some(NotPagedIn(absent.value)), choices, failed)
  {
    hide RowsDone, Positive, Span, AllShaped, Width, WidthFrom, ListedRows, ListedLegal, PicksMissing;
    ListedAccepts(x, probs, triples, outShape, n);
    if 0 <= x.shape[1] { ListedAreGiven(exp, x, probs, triples, topK, choices, now); }
    if absent.Some? { StopsAtMissing(x, probs, triples, topK, |choices|, failed, absent.value); }
    assert ListedLegal(x, probs, triples, outShape, n, x.shape[0], Width(triples), x.shape[1]);
  }

  /**
   The listed kernel: after its checks it fails exactly when some row picks an expert that is not
   paged in; rows finished before that keep their averages.
   */
  method ListedSwiglu(exp: Exp, x: View, probs: View, triples: seq<Triple>, numExperts: int, topK: int, outShape: seq<int>, y: array<real>)
    returns (err: Option<MoeError>, choices: seq<seq<nat>>, failed: seq<nat>)
    requires Positive(exp) && ListedFits(x, probs, triples, outShape, numExperts, y.Length)
    modifies y
    ensures ListedLeaves(exp, x, probs, triples, outShape, numExperts, topK, old(y[..]), y[..], err, choices, failed)
    ensures err.None? || err.value.NotPagedIn? ==> ListedEnds(exp, x, probs, triples, outShape, numExperts, topK, y[..], err, choices, failed)
  {
    hide RowsDone, Positive, SameOutside, Span, AllShaped, WidthFrom, ListedEnds;
    err, choices, failed := None, [], [];
    if |x.shape| != 2 || |outShape| != 2 || |probs.shape| != 2 || numExperts <= 0 { err := Some(BadRank); return; }
    if probs.shape != [x.shape[0], numExperts] || outShape != x.shape { err := Some(BadShape); return; }
    var width := FindWidth(triples);
    if width <= 0 { err := Some(UnknownWidth); return; }
    var ok := CheckTriples(triples, width, x.shape[1]);
    if !ok { err := Some(BadExpert); return; }
    var absent;
    absent, choices, failed := MixRows(exp, ListedCall(x, probs, triples, topK), y);
    if absent.Some? { err := Some(NotPagedIn(absent.value)); }
    ListedDoesEnd(exp, x, probs, triples, outShape, numExperts, topK, y[..], absent, choices, failed);
  }

  // ----- agreement -----

  /** An entry of the list is missing or views exactly the bank's slice. */
  predicate SliceOf(t: Triple, bank: Bank, e: nat)
    requires bank.Sound() && e < Len(bank.gate, 0)
  {
    && t.Shaped(bank.gate.shape[1], bank.gate.shape[2]) && Full2(t.gate) && Full2(t.up) && Full2(t.down)
    && BankExpert(bank, e) == Expert(Front(t.gate), Front(t.up), Front(t.down))
  }

  predicate Pages(triples: seq<Triple>, bank: Bank) {
    && bank.Sound() && |triples| == Len(bank.gate, 0)
    && forall e :: 0 <= e < |triples| ==> triples[e].Missing() || SliceOf(triples[e], bank, e)
  }

  lemma {:induction false} WidthOfPages(triples: seq<Triple>, bank: Bank, e: nat, there: nat)
    requires Pages(triples, bank) && e <= there < |triples| && !triples[there].Missing()
    ensures WidthFrom(triples, e) == bank.gate.shape[1]
    decreases there - e
  {
    if e < there && triples[e].Missing() { WidthOfPages(triples, bank, e + 1, there); }
  }

  /** A partly paged-in bank passes the list checks once one expert is there. */
  lemma PagesAreListed(x: View, bank: Bank, probs: View, outShape: seq<int>, triples: seq<Triple>, there: nat)
    requires PackedCheck(x, bank, probs, outShape, |triples|) == None && Pages(triples, bank)
    requires there < |triples| && !triples[there].Missing() && bank.gate.shape[1] > 0
    ensures ListedCheck(x, probs, triples, outShape, |triples|) == None && Width(triples) == bank.gate.shape[1]
  {
    WidthOfPages(triples, bank, 0, there);
  }

  /**
   Listed equals packed: when the selected entries are paged in, the outputs that hold the packed
   kernel's rows for these choices are exactly those that hold the listed kernel's.
   */
  lemma ListedIsPacked(exp: Exp, x: View, bank: Bank, probs: View, outShape: seq<int>, triples: seq<Triple>, topK: int,
                       choices: seq<seq<nat>>, out: seq<real>, there: nat)
    requires Positive(exp) && PackedBacked(x, bank, probs) && PackedCheck(x, bank, probs, outShape, |triples|) == None
    requires Pages(triples, bank) && there < |triples| && !triples[there].Missing() && bank.gate.shape[1] > 0
    requires |choices| == Len(x, 0)
    requires forall b, e: nat :: 0 <= b < |choices| && e in choices[b] ==> e < |triples| && !triples[e].Missing()
    ensures ListedCheck(x, probs, triples, outShape, |triples|) == None
    ensures RowsDone(exp, PackedCall(x, bank, probs, topK), choices, out, Len(x, 0))
       <==> RowsDone(exp, ListedCall(x, probs, triples, topK), choices, out, Len(x, 0))
  {
    PagesAreListed(x, bank, probs, outShape, triples, there);
    var p, l := PackedCall(x, bank, probs, topK), ListedCall(x, probs, triples, topK);
    forall b | 0 <= b < Len(x, 0) ensures RowDone(exp, p, choices, out, b) <==> RowDone(exp, l, choices, out, b) {
      forall e | e in choices[b] ensures p.source(e) == l.source(e) && l.source(e).Some? {
        assert e < |triples| && !triples[e].Missing();
        assert SliceOf(triples[e], bank, e);
      }
      EitherSource(exp, p, l, choices, out, b);
    }
  }

  lemma EitherSource(exp: Exp, p: Call, l: Call, choices: seq<seq<nat>>, out: seq<real>, b: nat)
    requires Positive(exp) && p.Sound() && l.Sound() && p.x == l.x && p.probs == l.probs && p.k == l.k && p.n == l.n && p.width == l.width
    requires b < p.Batch() && b < |choices| && forall e :: e in choices[b] ==> p.source(e) == l.source(e) && l.source(e).Some?
    ensures RowDone(exp, p, choices, out, b) <==> RowDone(exp, l, choices, out, b)
  {
    hide Mixed;
    var chosen := choices[b];
    assert forall t :: 0 <= t < |chosen| ==> chosen[t] in chosen;
    assert Chosen(p.source, chosen) == Chosen(l.source, chosen);
  }

  predicate NoTies(probs: seq<real>) { forall d, e :: 0 <= d < e < |probs| ==> probs[d] != probs[e] }

  /** Without ties the choice is determined. */
  lemma {:induction false} TopKUnique(probs: seq<real>, k: nat, one: seq<nat>, two: seq<nat>, t: nat)
    requires IsTopK(probs, k, one) && IsTopK(probs, k, two) && t <= k && NoTies(probs)
    ensures one[..t] == two[..t]
  {
    if t > 0 {
      TopKUnique(probs, k, one, two, t - 1);
      Dominates(probs, k, one, two, t - 1);
      Dominates(probs, k, two, one, t - 1);
      hide IsTopK;
      assert one[t - 1] == two[t - 1];
      assert one[..t] == one[..t - 1] + [one[t - 1]] && two[..t] == two[..t - 1] + [two[t - 1]];
    }
  }

  lemma Dominates(probs: seq<real>, k: nat, one: seq<nat>, two: seq<nat>, t: nat)
    requires IsTopK(probs, k, one) && IsTopK(probs, k, two) && t < k && one[..t] == two[..t]
    ensures probs[one[t]] >= probs[two[t]]
  {
    assert forall u :: 0 <= u < t ==> one[u] == one[..t][u] == two[..t][u] == two[u];
    if two[t] in one {
      var u :| 0 <= u < k && one[u] == two[t];
      assert u >= t;
    }
  }

  /** The choices of two runs agree in every row without ties. */
  lemma SameChoice(exp: Exp, p: Call, l: Call, pc: seq<seq<nat>>, lc: seq<seq<nat>>, po: seq<real>, lo: seq<real>, b: nat)
    requires Positive(exp) && p.Sound() && l.Sound() && p.x == l.x && p.probs == l.probs && p.k == l.k && p.n == l.n
    requires b < p.Batch() && b < |pc| && b < |lc| && RowDone(exp, p, pc, po, b) && RowDone(exp, l, lc, lo, b)
    requires NoTies(p.Probs(b)) || pc[b] == lc[b]
    ensures pc[b] == lc[b]
  {
    if NoTies(p.Probs(b)) {
      TopKUnique(p.Probs(b), p.k, pc[b], lc[b], p.k);
      assert pc[b][..p.k] == pc[b] && lc[b][..p.k] == lc[b];
    }
  }

  /**
   Any packed run and any listed run that ends without error leave the same rows, provided they
   break ties alike; whichever unselected experts are not paged in.
   */
  lemma RunsAgree(exp: Exp, x: View, bank: Bank, probs: View, outShape: seq<int>, triples: seq<Triple>, topK: int,
                  pc: seq<seq<nat>>, lc: seq<seq<nat>>, po: seq<real>, lo: seq<real>)
    requires Positive(exp) && PackedBacked(x, bank, probs) && PackedCheck(x, bank, probs, outShape, |triples|) == None
    requires Pages(triples, bank) && ListedCheck(x, probs, triples, outShape, |triples|) == None
    requires |pc| == |lc| == Len(x, 0) && Span(Len(x, 0), Len(x, 1)) <= |po| && Span(Len(x, 0), Len(x, 1)) <= |lo|
    requires forall b :: 0 <= b < Len(x, 0) ==> NoTies(MatrixRow(probs, b)) || pc[b] == lc[b]
    requires RowsDone(exp, PackedCall(x, bank, probs, topK), pc, po, Len(x, 0))
    requires RowsDone(exp, ListedCall(x, probs, triples, topK), lc, lo, Len(x, 0))
    ensures po[..Span(Len(x, 0), Len(x, 1))] == lo[..Span(Len(x, 0), Len(x, 1))]
  {
    hide RowMixed, MatrixRow, NoTies, BankExpert, BankSource, ListSource, WidthFrom;
    var p, l := PackedCall(x, bank, probs, topK), ListedCall(x, probs, triples, topK);
    forall b | 0 <= b < Len(x, 0) ensures pc[b] == lc[b] && forall e :: e in lc[b] ==> e < |triples| && !triples[e].Missing() {
      assert RowDone(exp, p, pc, po, b) && RowDone(exp, l, lc, lo, b);
      SameChoice(exp, p, l, pc, lc, po, lo, b);
      AllThere(exp, x, probs, triples, topK, lc, lo, b);
    }
    assert pc == lc;
    if Len(x, 0) > 0 {
      FirstThere(exp, x, probs, triples, topK, lc, lo);
      var there :| there in lc[0];
      WidthOfPages(triples, bank, 0, there);
      ListedIsPacked(exp, x, bank, probs, outShape, triples, topK, lc, lo, there);
      RowsAreMixtures(exp, p, lc, po, lo, Len(x, 0));
    }
  }

  lemma AllThere(exp: Exp, x: View, probs: View, triples: seq<Triple>, topK: int, choices: seq<seq<nat>>, out: seq<real>, b: nat)
    requires Positive(exp) && Full2(x) && Full2(probs) && probs.shape == [x.shape[0], |triples|] && AllShaped(triples, Width(triples), x.shape[1])
    requires b < Len(x, 0) && b < |choices| && RowDone(exp, ListedCall(x, probs, triples, topK), choices, out, b)
    ensures forall e :: e in choices[b] ==> e < |triples| && !triples[e].Missing()
  {
    var l := ListedCall(x, probs, triples, topK);
    forall e | e in choices[b] ensures e < |triples| && !triples[e].Missing() {
      var t :| 0 <= t < |choices[b]| && choices[b][t] == e;
      assert l.source(choices[b][t]).Some?;
    }
  }

  lemma FirstThere(exp: Exp, x: View, probs: View, triples: seq<Triple>, topK: int, choices: seq<seq<nat>>, out: seq<real>)
    requires Positive(exp) && Full2(x) && Full2(probs) && probs.shape == [x.shape[0], |triples|] && AllShaped(triples, Width(triples), x.shape[1])
    requires 0 < Len(x, 0) && 0 < |choices| && RowDone(exp, ListedCall(x, probs, triples, topK), choices, out, 0) && 0 < |triples|
    ensures exists e :: e in choices[0]
  {
    assert choices[0][0] in choices[0];
  }

  // ----- the dispatcher -----

  /** Which kernel a call reaches, by its numbers of outputs and operands and the expert count it states. */
  datatype Route = Refused | ToPacked | ToListed

  function RouteOf(outputs: nat, operands: nat, numExperts: int): Route {
    if outputs != 1 || operands < 5 then Refused
    else if operands == 5 then ToPacked
    else if operands != 2 + 3 * numExperts then Refused
    else ToListed
  }

  datatype DispatchError = BadArity | InKernel(e: MoeError)

  function InKernelOf(err: Option<MoeError>): Option<DispatchError> { if err.Some? then Some(InKernel(err.value)) else None }

  /** The bank of a five-operand call. */
  function BankOf(inputs: seq<View>): Bank
    requires |inputs| == 5
  {
    Bank(inputs[1], inputs[2], inputs[3])
  }

  /** The experts of a listed call: the operands after the first two, in threes. */
  function TriplesOf(inputs: seq<View>, n: nat): (r: seq<Triple>)
    requires |inputs| == 2 + 3 * n
    ensures |r| == n
  {
    seq(n, e requires 0 <= e < n => Triple(inputs[2 + 3 * e], inputs[3 + 3 * e], inputs[4 + 3 * e]))
  }

  /** The buffers of the kernel that is reached. */
  predicate DispatchFits(inputs: seq<View>, outputs: nat, outShape: seq<int>, numExperts: int, size: nat) {
    match RouteOf(outputs, |inputs|, numExperts)
    case Refused => true
    case ToPacked => PackedFits(inputs[0], BankOf(inputs), inputs[4], outShape, numExperts, size)
    case ToListed => ListedFits(inputs[0], inputs[1], TriplesOf(inputs, numExperts), outShape, numExperts, size)
  }

  /** What a dispatched call leaves. */
  ghost predicate DispatchLeaves(exp: Exp, inputs: seq<View>, outputs: nat, outShape: seq<int>, numExperts: int, topK: int,
                                 before: seq<real>, now: seq<real>, err: Option<DispatchError>, choices: seq<seq<nat>>)
    requires Positive(exp) && DispatchFits(inputs, outputs, outShape, numExperts, |before|)
  {
    match RouteOf(outputs, |inputs|, numExperts)
    case Refused => err == Some(BadArity) && now == before
    case ToPacked => exists e ::
      err == InKernelOf(e) && PackedLeaves(exp, inputs[0], BankOf(inputs), inputs[4], outShape, numExperts, topK, before, now, e, choices)
    case ToListed => exists e, failed ::
      err == InKernelOf(e) && ListedLeaves(exp, inputs[0], inputs[1], TriplesOf(inputs, numExperts), outShape, numExperts, topK, before, now, e, choices, failed)
  }

  /** Five operands: rows, gate, up and last matrices, probabilities. */
  ghost predicate PackedOperands(exp: Exp, inputs: seq<View>, outShape: seq<int>, n: int, topK: int, choices: seq<seq<nat>>, now: seq<real>)
    requires Positive(exp) && |inputs| == 5
  {
    exists b, i, d ::
      && PackedLegal(inputs[0], Bank(inputs[1], inputs[2], inputs[3]), inputs[4], outShape, n, b, i, d) && |choices| == Pos(b)
      && (0 <= n && 0 <= i && 0 <= d ==> PackedRows(exp, inputs[0], Bank(inputs[1], inputs[2], inputs[3]), inputs[4], n, i, d, topK, choices, now))
  }

  /** More operands: rows, probabilities, and the three matrices of each expert. */
  ghost predicate ListedOperands(exp: Exp, inputs: seq<View>, outShape: seq<int>, n: int, topK: int, choices: seq<seq<nat>>, now: seq<real>)
    requires Positive(exp)
  {
    exists triples, failed :: ListsOperands(inputs, triples) && ListedEnds(exp, inputs[0], inputs[1], triples, outShape, n, topK, now, None, choices, failed)
  }

  predicate ListsOperands(inputs: seq<View>, triples: seq<Triple>) {
    && |inputs| == 2 + 3 * |triples|
    && forall e :: 0 <= e < |triples| ==>
         triples[e].gate == inputs[2 + 3 * e] && triples[e].up == inputs[3 + 3 * e] && triples[e].down == inputs[4 + 3 * e]
  }

  method DispatchSwiglu(exp: Exp, inputs: seq<View>, outputs: nat, outShape: seq<int>, numExperts: int, topK: int, y: array<real>)
    returns (err: Option<DispatchError>, choices: seq<seq<nat>>)
    requires Positive(exp) && DispatchFits(inputs, outputs, outShape, numExperts, y.Length)
    modifies y
    ensures DispatchLeaves(exp, inputs, outputs, outShape, numExperts, topK, old(y[..]), y[..], err, choices)
    ensures err == Some(BadArity) <==> outputs != 1 || |inputs| < 5 || (|inputs| > 5 && |inputs| != 2 + 3 * numExperts)
    ensures err.None? && |inputs| == 5 ==> PackedOperands(exp, inputs, outShape, numExperts, topK, choices, y[..])
    ensures err.None? && |inputs| != 5 ==> ListedOperands(exp, inputs, outShape, numExperts, topK, choices, y[..])
  {
    hide PackedLeaves, ListedLeaves, PackedFits, ListedFits, PackedRows, ListedEnds;
    choices := [];
    if outputs != 1 || |inputs| < 5 { return Some(BadArity), []; }
    var e;
    if |inputs| == 5 {
      e, choices := PackedSwiglu(exp, inputs[0], BankOf(inputs), inputs[4], outShape, numExperts, topK, y);
      if e.None? { PackedIsLegal(inputs[0], BankOf(inputs), inputs[4], outShape, numExperts); }
      return InKernelOf(e), choices;
    }
    if |inputs| != 2 + 3 * numExperts { return Some(BadArity), []; }
    var failed;
    e, choices, failed := ListedSwiglu(exp, inputs[0], inputs[1], TriplesOf(inputs, numExperts), numExperts, topK, outShape, y);
    err := InKernelOf(e);
  }

  /** A list of experts as operands, with everything the listed kernel checks in order. */
  predicate LegalListed(inputs: seq<View>, outShape: seq<int>, n: nat) {
    |inputs| == 2 + 3 * n && ListedCheck(inputs[0], inputs[1], TriplesOf(inputs, n), outShape, n) == None
  }

  /**
   A legal listed call reaches the listed kernel exactly when it lists some other number of experts than one. With
   one it has five operands, is taken for a packed bank, and is always refused for its ranks.
   */
  lemma ListedReaches(exp: Exp, inputs: seq<View>, outShape: seq<int>, n: nat, topK: int,
                      before: seq<real>, now: seq<real>, err: Option<DispatchError>, choices: seq<seq<nat>>)
    requires Positive(exp) && LegalListed(inputs, outShape, n)
    ensures RouteOf(1, |inputs|, n) == (if n == 1 then ToPacked else ToListed)
    ensures n == 1 ==> DispatchFits(inputs, 1, outShape, n, |before|)
    ensures n == 1 && DispatchLeaves(exp, inputs, 1, outShape, n, topK, before, now, err, choices) ==>
              err == Some(InKernel(BadRank)) && now == before
  {
    hide PackedCall, RowsDone;
    if n == 1 { assert PackedCheck(inputs[0], BankOf(inputs), inputs[4], outShape, n) == Some(BadRank); }
  }

  /** Through the dispatcher, a packed bank and a list of some of its experts give the same rows, unless one expert is listed. */
  lemma DispatchesAgree(exp: Exp, packed: seq<View>, listed: seq<View>, outShape: seq<int>, n: nat, topK: int,
                        p0: seq<real>, po: seq<real>, l0: seq<real>, lo: seq<real>, pc: seq<seq<nat>>, lc: seq<seq<nat>>)
    requires Positive(exp) && |packed| == 5 && |listed| == 2 + 3 * n && n != 1 && listed[0] == packed[0] && listed[1] == packed[4]
    requires BankOf(packed).Sound() && Pages(TriplesOf(listed, n), BankOf(packed)) && Full2(packed[0]) && Full2(packed[4])
    requires DispatchFits(packed, 1, outShape, n, |p0|) && DispatchLeaves(exp, packed, 1, outShape, n, topK, p0, po, None, pc)
    requires DispatchFits(listed, 1, outShape, n, |l0|) && DispatchLeaves(exp, listed, 1, outShape, n, topK, l0, lo, None, lc)
    requires |pc| == |lc| == Len(packed[0], 0)
    requires forall b :: 0 <= b < Len(packed[0], 0) ==> NoTies(MatrixRow(packed[4], b)) || pc[b] == lc[b]
    ensures Span(Len(packed[0], 0), Len(packed[0], 1)) <= |po| && Span(Len(packed[0], 0), Len(packed[0], 1)) <= |lo|
    ensures po[..Span(Len(packed[0], 0), Len(packed[0], 1))] == lo[..Span(Len(packed[0], 0), Len(packed[0], 1))]
  {
    hide RowsDone, MatrixRow, Pages, TriplesOf, PackedCall;
    RunsAgree(exp, packed[0], BankOf(packed), packed[4], outShape, TriplesOf(listed, n), topK, pc, lc, po, lo);
  }
}
