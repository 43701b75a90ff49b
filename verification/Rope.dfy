/**
 Rotary position embedding: each head is rotated pair by pair by its row's angles, in either pair
 layout, over the whole head or its leading or trailing part. With one frequency table the dot
 product of two rotated heads depends only on the distance of their positions. Sine, cosine,
 logarithm and the scaled frequencies are parameters.
 */
module Rope {
  import opened Layout
  import A = AttentionSpec
  import H = KvHistory
  import K = KvModel

  /** `freq(pair, pairs, length)` is the scaled inverse frequency of a pair for a sequence length. */
  datatype Fns = Fns(cos: real -> real, sin: real -> real, log: real -> real, freq: (nat, nat, real) -> real) {
    /** The angle-difference laws. */
    ghost predicate Lawful() {
      && (forall x, y :: cos(x - y) == cos(x) * cos(y) + sin(x) * sin(y))
      && (forall x, y :: sin(x - y) == sin(x) * cos(y) - cos(x) * sin(y))
    }
  }

  /** How a head is rotated: `2 * half` of its `chunk` numbers, leading or trailing, paired across halves or side by side. */
  datatype Plan = Plan(chunk: nat, half: nat, leading: bool, neox: bool) {
    predicate Valid() { half > 0 && half + half <= chunk }

    /** Where the rotated part starts. */
    function Off(): nat
      requires Valid()
    {
      if leading then 0 else chunk - (half + half)
    }

    function First(p: nat): nat { if neox then p else p + p }

    function Second(p: nat): nat { if neox then p + half else p + p + 1 }
  }

  /** The rotation of one pair by an angle, scaled. */
  function FirstOf(f: Fns, scale: real, angle: real, a: real, b: real): real { a * (f.cos(angle) * scale) - b * (f.sin(angle) * scale) }

  function SecondOf(f: Fns, scale: real, angle: real, a: real, b: real): real { a * (f.sin(angle) * scale) + b * (f.cos(angle) * scale) }

  /** Number `j` of a rotated head; `angles(p)` is the angle of pair `p`. */
  function RotatedAt(f: Fns, s: Plan, scale: real, angles: nat -> real, head: Row, j: nat): real
    requires s.Valid() && |head| == s.chunk && j < s.chunk
  {
    var o := s.Off();
    if j < o || j >= o + (s.half + s.half) then head[j]
    else
      var i := j - o;
      var p := if s.neox then (if i < s.half then i else i - s.half) else i / 2;
      var first := if s.neox then i < s.half else i % 2 == 0;
      var a, b := head[o + s.First(p)], head[o + s.Second(p)];
      if first then FirstOf(f, scale, angles(p), a, b) else SecondOf(f, scale, angles(p), a, b)
  }

  function Rotated(f: Fns, s: Plan, scale: real, angles: nat -> real, head: Row): (r: Row)
    requires s.Valid() && |head| == s.chunk
    ensures |r| == s.chunk && forall j :: 0 <= j < s.chunk ==> r[j] == RotatedAt(f, s, scale, angles, head, j)
  {
    seq(s.chunk, j requires 0 <= j < s.chunk => RotatedAt(f, s, scale, angles, head, j))
  }

  lemma {:induction false} PairIs(f: Fns, s: Plan, scale: real, angles: nat -> real, head: Row, p: nat)
    requires s.Valid() && |head| == s.chunk && p < s.half
    ensures s.First(p) < s.half + s.half && s.Second(p) < s.half + s.half && s.Off() + (s.half + s.half) <= s.chunk
    ensures var o := s.Off();
      var a, b := head[o + s.First(p)], head[o + s.Second(p)];
      && Rotated(f, s, scale, angles, head)[o + s.First(p)] == FirstOf(f, scale, angles(p), a, b)
      && Rotated(f, s, scale, angles, head)[o + s.Second(p)] == SecondOf(f, scale, angles(p), a, b)
  {
    hide FirstOf, SecondOf;
    if s.neox {
      assert s.First(p) == p && s.Second(p) == p + s.half;
    } else {
      PairOfTwo(p);
      assert s.First(p) == p + p && s.Second(p) == p + p + 1;
    }
  }

  lemma PairOfTwo(p: nat)
    ensures (p + p) / 2 == (p + p + 1) / 2 == p && (p + p) % 2 == 0 && (p + p + 1) % 2 == 1
  {}

  // ----- dot products of rotated heads -----

  lemma {:induction false} DotSplit(a: Row, ao: nat, b: Row, bo: nat, n: nat, m: nat)
    requires ao + n + m <= |a| && bo + n + m <= |b|
    ensures A.DotAt(a, ao, b, bo, n + m) == A.DotAt(a, ao, b, bo, n) + A.DotAt(a, ao + n, b, bo + n, m)
  {
    if m > 0 { DotSplit(a, ao, b, bo, n, m - 1); }
  }

  lemma {:induction false} DotSame(a: Row, b: Row, a': Row, b': Row, o: nat, n: nat)
    requires o + n <= |a| && o + n <= |b| && o + n <= |a'| && o + n <= |b'|
    requires forall i :: o <= i < o + n ==> a[i] == a'[i] && b[i] == b'[i]
    ensures A.DotAt(a, o, b, o, n) == A.DotAt(a', o, b', o, n)
  {
    if n > 0 { DotSame(a, b, a', b', o, n - 1); }
  }

  /** The products of the first `p` pairs of two heads, grouped by pair. */
  function PairDot(s: Plan, x: Row, y: Row, p: nat): real
    requires s.Valid() && |x| == |y| == s.chunk && p <= s.half
  {
    if p == 0 then 0.0
    else
      var o, i, j := s.Off(), s.First(p - 1), s.Second(p - 1);
      PairDot(s, x, y, p - 1) + TwoProducts(x[o + i], y[o + i], x[o + j], y[o + j])
  }

  function TwoProducts(x: real, y: real, z: real, w: real): real { x * y + z * w }

  lemma {:induction false} InterleavedPairs(s: Plan, x: Row, y: Row, p: nat)
    requires s.Valid() && !s.neox && |x| == |y| == s.chunk && p <= s.half
    ensures A.DotAt(x, s.Off(), y, s.Off(), p + p) == PairDot(s, x, y, p)
  {
    if p > 0 {
      InterleavedPairs(s, x, y, p - 1);
      var o, n := s.Off(), p + p - 2;
      assert A.DotAt(x, o, y, o, n + 1) == A.DotAt(x, o, y, o, n) + x[o + n] * y[o + n];
      assert A.DotAt(x, o, y, o, n + 2) == A.DotAt(x, o, y, o, n + 1) + x[o + n + 1] * y[o + n + 1];
    }
  }

  lemma {:induction false} SplitPairs(s: Plan, x: Row, y: Row, p: nat)
    requires s.Valid() && s.neox && |x| == |y| == s.chunk && p <= s.half
    ensures A.DotAt(x, s.Off(), y, s.Off(), p) + A.DotAt(x, s.Off() + s.half, y, s.Off() + s.half, p) == PairDot(s, x, y, p)
  {
    if p > 0 { SplitPairs(s, x, y, p - 1); }
  }

  /** In either layout, the rotated part's dot product is the sum over pairs. */
  lemma PairsCover(s: Plan, x: Row, y: Row)
    requires s.Valid() && |x| == |y| == s.chunk
    ensures A.DotAt(x, s.Off(), y, s.Off(), s.half + s.half) == PairDot(s, x, y, s.half)
  {
    if s.neox {
      DotSplit(x, s.Off(), y, s.Off(), s.half, s.half);
      SplitPairs(s, x, y, s.half);
    } else {
      InterleavedPairs(s, x, y, s.half);
    }
  }

  /** What a pair contributes once both heads are rotated by angles that differ by `d`. */
  function PairTerm(f: Fns, scale: real, d: real, a: real, b: real, c: real, e: real): real {
    Term(scale, a, b, c, e, f.cos(d), f.sin(d))
  }

  function Term(k: real, a: real, b: real, c: real, e: real, cd: real, sd: real): real { k * k * ((a * c + b * e) * cd + (a * e - b * c) * sd) }

  lemma Expand(a: real, b: real, c: real, e: real, c1: real, s1: real, c2: real, s2: real, x: real, y: real, z: real, w: real)
    requires x == a * c1 - b * s1 && y == c * c2 - e * s2 && z == a * s1 + b * c1 && w == c * s2 + e * c2
    ensures x * y + z * w == (a * c + b * e) * (c1 * c2 + s1 * s2) + (a * e - b * c) * (s1 * c2 - c1 * s2)
  {}

  lemma ScaleOut(a: real, b: real, c1: real, s1: real, k: real)
    ensures (a * (c1 * k) - b * (s1 * k)) == k * (a * c1 - b * s1)
    ensures (a * (s1 * k) + b * (c1 * k)) == k * (a * s1 + b * c1)
  {
    assert a * (c1 * k) == k * (a * c1) && b * (s1 * k) == k * (b * s1);
    assert a * (s1 * k) == k * (a * s1) && b * (c1 * k) == k * (b * c1);
    assert k * (a * c1) - k * (b * s1) == k * (a * c1 - b * s1);
    assert k * (a * s1) + k * (b * c1) == k * (a * s1 + b * c1);
  }

  lemma ProductsScale(k: real, x: real, y: real, z: real, w: real)
    ensures (k * x) * (k * y) + (k * z) * (k * w) == k * k * (x * y + z * w)
  {
    assert (k * x) * (k * y) == k * k * (x * y) && (k * z) * (k * w) == k * k * (z * w);
    assert k * k * (x * y) + k * k * (z * w) == k * k * (x * y + z * w);
  }

  /** Rotating both halves of a pair leaves a term in the angle difference alone. */
  lemma PairRelative(f: Fns, scale: real, u: real, v: real, a: real, b: real, c: real, e: real)
    requires f.Lawful()
    ensures TwoProducts(FirstOf(f, scale, u, a, b), FirstOf(f, scale, v, c, e), SecondOf(f, scale, u, a, b), SecondOf(f, scale, v, c, e))
         == PairTerm(f, scale, u - v, a, b, c, e)
  {
    hide FirstOf, SecondOf, TwoProducts, Term, f.Lawful;
    var p, q, r, t := FirstOf(f, scale, u, a, b), FirstOf(f, scale, v, c, e), SecondOf(f, scale, u, a, b), SecondOf(f, scale, v, c, e);
    ScaledPair(f, scale, u, a, b);
    ScaledPair(f, scale, v, c, e);
    Differences(f, u, v);
    PairAlgebra(scale, a, b, c, e, f.cos(u), f.sin(u), f.cos(v), f.sin(v), f.cos(u - v), f.sin(u - v), p, q, r, t);
  }

  lemma ScaledPair(f: Fns, k: real, u: real, a: real, b: real)
    ensures FirstOf(f, k, u, a, b) == k * (a * f.cos(u) - b * f.sin(u))
    ensures SecondOf(f, k, u, a, b) == k * (a * f.sin(u) + b * f.cos(u))
  {
    ScaleOut(a, b, f.cos(u), f.sin(u), k);
  }

  lemma Differences(f: Fns, u: real, v: real)
    requires f.Lawful()
    ensures f.cos(u - v) == f.cos(u) * f.cos(v) + f.sin(u) * f.sin(v)
    ensures f.sin(u - v) == f.sin(u) * f.cos(v) - f.cos(u) * f.sin(v)
  {}

  lemma PairAlgebra(k: real, a: real, b: real, c: real, e: real, c1: real, s1: real, c2: real, s2: real, cd: real, sd: real,
                    p: real, q: real, r: real, t: real)
    requires p == k * (a * c1 - b * s1) && q == k * (c * c2 - e * s2) && r == k * (a * s1 + b * c1) && t == k * (c * s2 + e * c2)
    requires cd == c1 * c2 + s1 * s2 && sd == s1 * c2 - c1 * s2
    ensures TwoProducts(p, q, r, t) == Term(k, a, b, c, e, cd, sd)
  {
    var x, y, z, w := a * c1 - b * s1, c * c2 - e * s2, a * s1 + b * c1, c * s2 + e * c2;
    Substitute(p, q, r, t, k, x, y, z, w);
    Expand(a, b, c, e, c1, s1, c2, s2, x, y, z, w);
    Combine(k, x * y + z * w, a * c + b * e, a * e - b * c, cd, c1 * c2 + s1 * s2, sd, s1 * c2 - c1 * s2);
  }

  lemma Substitute(p: real, q: real, r: real, t: real, k: real, x: real, y: real, z: real, w: real)
    requires p == k * x && q == k * y && r == k * z && t == k * w
    ensures p * q + r * t == k * k * (x * y + z * w)
  {
    ProductsScale(k, x, y, z, w);
  }

  lemma Combine(k: real, t: real, e: real, g: real, c: real, c': real, d: real, d': real)
    requires c == c' && d == d' && t == e * c' + g * d'
    ensures k * k * t == k * k * (e * c + g * d)
  {}

  /** The rotated part's dot product as a function of the unrotated heads and the angle differences. */
  function RelativePairs(f: Fns, s: Plan, scale: real, d: nat -> real, q: Row, k: Row, p: nat): real
    requires s.Valid() && |q| == |k| == s.chunk && p <= s.half
  {
    if p == 0 then 0.0
    else
      var o, i, j := s.Off(), s.First(p - 1), s.Second(p - 1);
      RelativePairs(f, s, scale, d, q, k, p - 1) + PairTerm(f, scale, d(p - 1), q[o + i], q[o + j], k[o + i], k[o + j])
  }

  /** The whole head: the copied part, and the rotated pairs. */
  function RelativeDot(f: Fns, s: Plan, scale: real, d: nat -> real, q: Row, k: Row): real
    requires s.Valid() && |q| == |k| == s.chunk
  {
    var o, rot := s.Off(), s.half + s.half;
    A.DotAt(q, 0, k, 0, o) + RelativePairs(f, s, scale, d, q, k, s.half) + A.DotAt(q, o + rot, k, o + rot, s.chunk - (o + rot))
  }

  lemma {:induction false} RotatedPairs(f: Fns, s: Plan, scale: real, u: nat -> real, v: nat -> real, d: nat -> real, q: Row, k: Row, p: nat)
    requires f.Lawful() && s.Valid() && |q| == |k| == s.chunk && p <= s.half
    requires forall i: nat :: i < s.half ==> d(i) == u(i) - v(i)
    ensures PairDot(s, Rotated(f, s, scale, u, q), Rotated(f, s, scale, v, k), p) == RelativePairs(f, s, scale, d, q, k, p)
  {
    hide FirstOf, SecondOf, PairTerm, Rotated, RotatedAt, TwoProducts, f.Lawful;
    if p > 0 {
      RotatedPairs(f, s, scale, u, v, d, q, k, p - 1);
      PairIs(f, s, scale, u, q, p - 1);
      PairIs(f, s, scale, v, k, p - 1);
      var o, i, j := s.Off(), s.First(p - 1), s.Second(p - 1);
      PairRelative(f, scale, u(p - 1), v(p - 1), q[o + i], q[o + j], k[o + i], k[o + j]);
      assert d(p - 1) == u(p - 1) - v(p - 1);
    }
  }

  /** Two rotated heads' dot product depends on the heads and the angle differences only. */
  lemma RotatedDot(f: Fns, s: Plan, scale: real, u: nat -> real, v: nat -> real, d: nat -> real, q: Row, k: Row)
    requires f.Lawful() && s.Valid() && |q| == |k| == s.chunk
    requires forall i: nat :: i < s.half ==> d(i) == u(i) - v(i)
    ensures A.DotAt(Rotated(f, s, scale, u, q), 0, Rotated(f, s, scale, v, k), 0, s.chunk) == RelativeDot(f, s, scale, d, q, k)
  {
    hide RotatedAt, RelativePairs, PairDot, f.Lawful;
    var x, y := Rotated(f, s, scale, u, q), Rotated(f, s, scale, v, k);
    var o, rot := s.Off(), s.half + s.half;
    var tail := s.chunk - (o + rot);
    DotSplit(x, 0, y, 0, o + rot, tail);
    DotSplit(x, 0, y, 0, o, rot);
    PairsCover(s, x, y);
    RotatedPairs(f, s, scale, u, v, d, q, k, s.half);
    CopiedParts(f, s, scale, u, q);
    CopiedParts(f, s, scale, v, k);
    DotSame(x, y, q, k, 0, o);
    DotSame(x, y, q, k, o + rot, tail);
  }

  lemma CopiedParts(f: Fns, s: Plan, scale: real, u: nat -> real, q: Row)
    requires s.Valid() && |q| == s.chunk
    ensures forall j :: 0 <= j < s.Off() || s.Off() + (s.half + s.half) <= j < s.chunk ==> Rotated(f, s, scale, u, q)[j] == q[j]
  {}

  /** The angles of one row. */
  function Angles(f: Fns, s: Plan, pos: real, length: real): nat -> real { (p: nat) => pos * f.freq(p, s.half, length) }

  /**
   With one frequency table, that is one sequence length, the dot product of a query head rotated at
   position `m` and a key head rotated at position `n` is a function of m - n.
   */
  lemma RelativePosition(f: Fns, s: Plan, scale: real, length: real, q: Row, k: Row, m: real, n: real)
    requires f.Lawful() && s.Valid() && |q| == |k| == s.chunk
    ensures A.DotAt(Rotated(f, s, scale, Angles(f, s, m, length), q), 0, Rotated(f, s, scale, Angles(f, s, n, length), k), 0, s.chunk)
         == RelativeDot(f, s, scale, Angles(f, s, m - n, length), q, k)
  {
    hide f.Lawful, RelativeDot, Rotated;
    var u, v, d := Angles(f, s, m, length), Angles(f, s, n, length), Angles(f, s, m - n, length);
    forall i: nat | i < s.half ensures d(i) == u(i) - v(i) {
      var x := f.freq(i, s.half, length);
      assert (m - n) * x == m * x - n * x;
    }
    RotatedDot(f, s, scale, u, v, d, q, k);
  }

  /** Shifting both positions by the same amount changes nothing. */
  lemma ShiftInvariant(f: Fns, s: Plan, scale: real, length: real, q: Row, k: Row, m: real, n: real, shift: real)
    requires f.Lawful() && s.Valid() && |q| == |k| == s.chunk
    ensures A.DotAt(Rotated(f, s, scale, Angles(f, s, m + shift, length), q), 0, Rotated(f, s, scale, Angles(f, s, n + shift, length), k), 0, s.chunk)
         == A.DotAt(Rotated(f, s, scale, Angles(f, s, m, length), q), 0, Rotated(f, s, scale, Angles(f, s, n, length), k), 0, s.chunk)
  {
    hide f.Lawful, RelativeDot, Rotated;
    RelativePosition(f, s, scale, length, q, k, m, n);
    RelativePosition(f, s, scale, length, q, k, m + shift, n + shift);
    assert (m + shift) - (n + shift) == m - n;
  }

  // ----- positions -----

  /** The position given to flattened row `r` when the counter stands at `base`. */
  function DefaultPosition(base: nat, r: nat): nat { base + r }

  datatype PositionsError = NullData | NotF32 | SizesDiffer

  function PositionsCheck(hasTokens: bool, hasOut: bool, areF32: bool, count: nat, outCount: nat): Option<PositionsError> {
    if !hasTokens || !hasOut then Some(NullData)
    else if !areF32 then Some(NotF32)
    else if count != outCount then Some(SizesDiffer)
    else None
  }

  /** A failed check writes nothing; otherwise the rows of a [batch, seq] block are numbered from the counter on. */
  method Positions(base: nat, hasTokens: bool, areF32: bool, count: nat, out: array?<real>, outCount: nat) returns (error: Option<PositionsError>)
    requires out != null ==> outCount <= out.Length
    modifies out
    ensures error == PositionsCheck(hasTokens, out != null, areF32, count, outCount)
    ensures out != null && error.Some? ==> out[..] == old(out[..])
    ensures error.None? ==> (forall r: nat :: r < count ==> out[r] == DefaultPosition(base, r) as real) && out[count..] == old(out[count..])
  {
    error := PositionsCheck(hasTokens, out != null, areF32, count, outCount);
    if error.Some? { return; }
    for i := 0 to count
      invariant forall r: nat :: r < i ==> out[r] == DefaultPosition(base, r) as real
      invariant out[count..] == old(out[count..])
    {
      out[i] := (base + i) as real;
    }
  }

  /**
   On any reachable cache the counter is the length of every lane's history, however often rows
   were evicted. So token `t` of lane `b` in an `n`-token step is given its own index in its lane's
   history exactly when it is in lane 0: the rows of later lanes are numbered after the earlier
   lanes' rows, so their positions depend on the step's length.
   */
  lemma PositionIsHistoryIndex(c: K.Cache, g: H.History, layer: nat, b: nat, n: nat, t: nat)
    requires H.Inv(c, g) && layer < c.dims.layers && b < c.dims.batch && t < n
    ensures |g.k[layer]| == |g.v[layer]| == c.dims.batch && |g.k[layer][b]| == |g.v[layer][b]| == c.absPos
    ensures DefaultPosition(c.absPos, Span(b, n) + t) == |g.k[layer][b]| + t <==> b == 0
  {
    H.LaneLengths(c, g, layer, b);
    hide H.Inv;
    if b > 0 { SpanApart(0, b, n); }
  }
}
