/**
 The reference product as the program runs it on one thread: the argument check, the scaling pass
 over the output array in place, and the nested tile loops. Proved to perform, tile by tile, the
 programs of Gemm, and so to leave the product.
 */
module RefGemm {
  import opened Layout
  import opened Gemm
  import opened Cells
  import P = ParallelFor

  function ApplyAll(p: Program, m: Memory): (r: Memory)
    requires P.Fits(p, |m|)
    ensures |r| == |m|
  {
    P.Apply(p, m, |p|)
  }

  lemma {:induction false} ApplyPrefix(p: Program, q: Program, m: Memory, k: nat)
    requires P.Fits(p + q, |m|) && k <= |p|
    ensures P.Fits(p, |m|) && P.Apply(p + q, m, k) == P.Apply(p, m, k)
  {
    forall i | 0 <= i < |p| ensures p[i].at < |m| { assert (p + q)[i] == p[i]; }
    if k > 0 { ApplyPrefix(p, q, m, k - 1); }
  }

  lemma {:induction false} ApplySuffix(p: Program, q: Program, m: Memory, k: nat)
    requires P.Fits(p + q, |m|) && k <= |q|
    ensures P.Fits(p, |m|) && P.Fits(q, |m|) && P.Apply(p + q, m, |p| + k) == P.Apply(q, ApplyAll(p, m), k)
  {
    forall i | 0 <= i < |q| ensures q[i].at < |m| { assert (p + q)[|p| + i] == q[i]; }
    ApplyPrefix(p, q, m, |p|);
    if k > 0 {
      ApplySuffix(p, q, m, k - 1);
      assert (p + q)[|p| + k - 1] == q[k - 1];
    }
  }

  /** Two programs joined run one after the other. */
  lemma ApplyJoin(p: Program, q: Program, m: Memory)
    requires P.Fits(p, |m|) && P.Fits(q, |m|)
    ensures P.Fits(p + q, |m|) && ApplyAll(p + q, m) == ApplyAll(q, ApplyAll(p, m))
  {
    assert P.Fits(p + q, |m|) by {
      forall i | 0 <= i < |p + q| ensures (p + q)[i].at < |m| {}
    }
    ApplySuffix(p, q, m, |q|);
  }

  lemma WithinFits(g: Job, p: Program, i0: nat, i1: nat, j0: nat, j1: nat, size: nat)
    requires g.FitsIn(size) && Within(g, p, i0, i1, j0, j1) && i1 <= g.m && j1 <= g.n
    ensures P.Fits(p, size)
  {
    forall t | 0 <= t < |p| ensures p[t].at < size {
      assert Inside(g, p[t].at, i0, i1, j0, j1);
      var i: nat, j: nat :| i0 <= i < i1 && j0 <= j < j1 && p[t].at == g.At(i, j);
      AtFits(g, size, i, j);
    }
  }

  lemma ProgramsFit(g: Job, size: nat, i0: nat, i1: nat, j0: nat, j1: nat, k0: nat, k1: nat)
    requires g.FitsIn(size) && i0 <= i1 <= g.m && j0 <= j1 <= g.n && k0 <= k1 <= g.k
    ensures P.Fits(BlockProgram(g, i0, i1, j0, j1, k0, k1), size)
    ensures P.Fits(DepthProgram(g, i0, i1, j0, j1, k0), size)
    ensures P.Fits(ColumnProgram(g, i0, i1, j0), size)
    ensures i0 < g.m ==> P.Fits(RowProgram(g, i0, j0, j1, k0, k1), size)
  {
    BlockWithin(g, i0, i1, j0, j1, k0, k1);
    WithinFits(g, BlockProgram(g, i0, i1, j0, j1, k0, k1), i0, i1, j0, j1, size);
    DepthWithin(g, i0, i1, j0, j1, k0);
    WithinFits(g, DepthProgram(g, i0, i1, j0, j1, k0), i0, i1, j0, j1, size);
    ColumnWithin(g, i0, i1, j0);
    WithinFits(g, ColumnProgram(g, i0, i1, j0), i0, i1, j0, g.n, size);
    if i0 < g.m {
      RowWithin(g, i0, j0, j1, k0, k1);
      WithinFits(g, RowProgram(g, i0, j0, j1, k0, k1), i0, i0 + 1, j0, j1, size);
    }
  }

  // ----- the loops -----

  method DotPass(g: Job, i: nat, j: nat, k0: nat, k1: nat) returns (sum: real)
    requires g.Valid() && i < g.m && j < g.n && k0 <= k1 <= g.k
    ensures sum == g.Dot(i, j, k0, k1)
  {
    sum := 0.0;
    for kk := k0 to k1
      invariant sum == g.Dot(i, j, k0, kk)
    {
      sum := sum + Load(g.a, g.m, g.k, i, kk) * Load(g.b, g.k, g.n, kk, j);
    }
  }

  /** One row of one block: a dot product per column, added to the output in place. */
  method RowPass(g: Job, c: array<real>, i: nat, j0: nat, j1: nat, k0: nat, k1: nat)
    requires g.FitsIn(c.Length) && i < g.m && j0 <= j1 <= g.n && k0 <= k1 <= g.k
    modifies c
    ensures P.Fits(RowProgram(g, i, j0, j1, k0, k1), c.Length)
    ensures c[..] == ApplyAll(RowProgram(g, i, j0, j1, k0, k1), old(c[..]))
  {
    ghost var m := c[..];
    assert RowProgram(g, i, j0, j0, k0, k1) == [] && ApplyAll([], m) == m;
    ProgramsFit(g, c.Length, i, i, j0, j0, k0, k1);
    hide g.Dot, ApplyAll, RowProgram;
    for j := j0 to j1
      invariant P.Fits(RowProgram(g, i, j0, j, k0, k1), c.Length)
      invariant c[..] == ApplyAll(RowProgram(g, i, j0, j, k0, k1), m)
    {
      var sum := DotPass(g, i, j, k0, k1);
      RowGrows(g, m, i, j0, j, k0, k1);
      ghost var was := c[..];
      c[g.At(i, j)] := c[g.At(i, j)] + g.alpha * sum;
      assert g.Term(i, j, k0, k1) == g.alpha * sum;
      assert c[..] == was[g.At(i, j) := was[g.At(i, j)] + g.alpha * sum];
    }
  }

  /** One more column: the cell gains alpha times the partial dot product. */
  lemma RowGrows(g: Job, m: Memory, i: nat, j0: nat, j: nat, k0: nat, k1: nat)
    requires g.FitsIn(|m|) && i < g.m && j0 <= j < g.n && k0 <= k1 <= g.k && P.Fits(RowProgram(g, i, j0, j, k0, k1), |m|)
    ensures g.At(i, j) < |m| && P.Fits(RowProgram(g, i, j0, j + 1, k0, k1), |m|)
    ensures var c := ApplyAll(RowProgram(g, i, j0, j, k0, k1), m);
      ApplyAll(RowProgram(g, i, j0, j + 1, k0, k1), m) == c[g.At(i, j) := c[g.At(i, j)] + g.Term(i, j, k0, k1)]
  {
    AtFits(g, |m|, i, j);
    var u := P.Add(g.At(i, j), g.Term(i, j, k0, k1));
    assert RowProgram(g, i, j0, j + 1, k0, k1) == RowProgram(g, i, j0, j, k0, k1) + [u];
    ApplyJoin(RowProgram(g, i, j0, j, k0, k1), [u], m);
    OneUpdate(u, ApplyAll(RowProgram(g, i, j0, j, k0, k1), m));
  }

  lemma OneUpdate(u: P.Update, m: Memory)
    requires u.at < |m|
    ensures P.Fits([u], |m|) && ApplyAll([u], m) == P.ApplyOne(u, m)
  {
    assert P.Apply([u], m, 0) == m;
  }

  method BlockPass(g: Job, c: array<real>, i0: nat, i1: nat, j0: nat, j1: nat, k0: nat, k1: nat)
    requires g.FitsIn(c.Length) && i0 <= i1 <= g.m && j0 <= j1 <= g.n && k0 <= k1 <= g.k
    modifies c
    ensures P.Fits(BlockProgram(g, i0, i1, j0, j1, k0, k1), c.Length)
    ensures c[..] == ApplyAll(BlockProgram(g, i0, i1, j0, j1, k0, k1), old(c[..]))
  {
    ProgramsFit(g, c.Length, i0, i0, j0, j1, k0, k1);
    for i := i0 to i1
      invariant P.Fits(BlockProgram(g, i0, i, j0, j1, k0, k1), c.Length)
      invariant c[..] == ApplyAll(BlockProgram(g, i0, i, j0, j1, k0, k1), old(c[..]))
    {
      RowPass(g, c, i, j0, j1, k0, k1);
      ApplyJoin(BlockProgram(g, i0, i, j0, j1, k0, k1), RowProgram(g, i, j0, j1, k0, k1), old(c[..]));
    }
  }

  method DepthPass(g: Job, c: array<real>, i0: nat, i1: nat, j0: nat, j1: nat)
    requires g.FitsIn(c.Length) && i0 <= i1 <= g.m && j0 <= j1 <= g.n
    modifies c
    ensures P.Fits(DepthProgram(g, i0, i1, j0, j1, 0), c.Length)
    ensures c[..] == ApplyAll(DepthProgram(g, i0, i1, j0, j1, 0), old(c[..]))
  {
    var k0 := 0;
    ProgramsFit(g, c.Length, i0, i1, j0, j1, 0, 0);
    while k0 < g.k
      invariant 0 <= k0 <= g.k && P.Fits(DepthProgram(g, i0, i1, j0, j1, k0), c.Length)
      invariant ApplyAll(DepthProgram(g, i0, i1, j0, j1, k0), c[..]) == ApplyAll(DepthProgram(g, i0, i1, j0, j1, 0), old(c[..]))
    {
      var k1 := TileEnd(k0, g.tile, g.k);
      ProgramsFit(g, c.Length, i0, i1, j0, j1, k1, g.k);
      ghost var was := c[..];
      BlockPass(g, c, i0, i1, j0, j1, k0, k1);
      ApplyJoin(BlockProgram(g, i0, i1, j0, j1, k0, k1), DepthProgram(g, i0, i1, j0, j1, k1), was);
      k0 := k1;
    }
  }

  method ColumnPass(g: Job, c: array<real>, i0: nat, i1: nat)
    requires g.FitsIn(c.Length) && i0 <= i1 <= g.m
    modifies c
    ensures P.Fits(ColumnProgram(g, i0, i1, 0), c.Length)
    ensures c[..] == ApplyAll(ColumnProgram(g, i0, i1, 0), old(c[..]))
  {
    var j0 := 0;
    ProgramsFit(g, c.Length, i0, i1, 0, 0, 0, 0);
    while j0 < g.n
      invariant 0 <= j0 <= g.n && P.Fits(ColumnProgram(g, i0, i1, j0), c.Length)
      invariant ApplyAll(ColumnProgram(g, i0, i1, j0), c[..]) == ApplyAll(ColumnProgram(g, i0, i1, 0), old(c[..]))
    {
      var j1 := TileEnd(j0, g.tile, g.n);
      ProgramsFit(g, c.Length, i0, i1, j1, g.n, 0, 0);
      ghost var was := c[..];
      DepthPass(g, c, i0, i1, j0, j1);
      ApplyJoin(DepthProgram(g, i0, i1, j0, j1, 0), ColumnProgram(g, i0, i1, j1), was);
      j0 := j1;
    }
  }

  /** The body of the work-sharing loop: one tile of rows. */
  method OneTile(g: Job, c: array<real>, ti: nat)
    requires g.FitsIn(c.Length) && ti < |Tasks(g)|
    modifies c
    ensures P.Fits(Tasks(g)[ti], c.Length) && c[..] == P.Apply(Tasks(g)[ti], old(c[..]), |Tasks(g)[ti]|)
  {
    SpanMonotone(ti, TileCount(g) - 1, g.tile);
    var i0 := Span(ti, g.tile);
    ColumnPass(g, c, i0, TileEnd(i0, g.tile, g.m));
  }

  /** The first `n` tiles have been run, in order. */
  ghost predicate RanTo(g: Job, m: Memory, c: Memory, n: nat)
    requires g.FitsIn(|m|) && n <= |Tasks(g)|
  {
    TasksFit(g, |m|);
    c == P.RunAll(Tasks(g), m, n)
  }

  lemma RanStep(g: Job, m: Memory, c: Memory, n: nat, c': Memory)
    requires g.FitsIn(|m|) && n < |Tasks(g)| && RanTo(g, m, c, n)
    requires P.Fits(Tasks(g)[n], |c|) && c' == P.Apply(Tasks(g)[n], c, |Tasks(g)[n]|)
    ensures RanTo(g, m, c', n + 1)
  {
    TasksFit(g, |m|);
  }

  /** The work-sharing loop on one thread: the row tiles in order. */
  method TilePass(g: Job, c: array<real>)
    requires g.FitsIn(c.Length)
    modifies c
    ensures RanTo(g, old(c[..]), c[..], |Tasks(g)|)
  {
    ghost var m := c[..];
    assert RanTo(g, m, c[..], 0);
    hide RanTo;
    for ti := 0 to TileCount(g)
      invariant RanTo(g, m, c[..], ti)
    {
      ghost var was := c[..];
      OneTile(g, c, ti);
      RanStep(g, m, was, ti, c[..]);
    }
  }

  // ----- the scaling pass -----

  /** Rows before `i`, and row `i` before column `j`, have been scaled. */
  ghost predicate ScaledTo(g: Job, c0: Memory, c: Memory, i: nat, j: nat)
    requires g.FitsIn(|c0|)
  {
    && |c| == |c0|
    && (forall i': nat, j': nat :: i' < g.m && j' < g.n ==>
          g.At(i', j') < |c| && c[g.At(i', j')] == if i' < i || (i' == i && j' < j) then g.beta * c0[g.At(i', j')] else c0[g.At(i', j')])
    && (forall x: nat :: x < |c| && !Inside(g, x, 0, g.m, 0, g.n) ==> c[x] == c0[x])
  }

  lemma ScaledNone(g: Job, c: Memory)
    requires g.FitsIn(|c|)
    ensures ScaledTo(g, c, c, 0, 0)
  {
    forall i: nat, j: nat | i < g.m && j < g.n ensures g.At(i, j) < |c| { AtFits(g, |c|, i, j); }
  }

  lemma ScaledStep(g: Job, c0: Memory, c: Memory, i: nat, j: nat, v: real)
    requires g.FitsIn(|c0|) && i < g.m && j < g.n && ScaledTo(g, c0, c, i, j) && v == g.beta * c0[g.At(i, j)]
    ensures g.At(i, j) < |c| && ScaledTo(g, c0, c[g.At(i, j) := v], i, j + 1)
  {
    var x, c' := g.At(i, j), c[g.At(i, j) := v];
    assert Inside(g, x, 0, g.m, 0, g.n);
    forall i': nat, j': nat | i' < g.m && j' < g.n
      ensures g.At(i', j') < |c'|
      ensures c'[g.At(i', j')] == if i' < i || (i' == i && j' < j + 1) then g.beta * c0[g.At(i', j')] else c0[g.At(i', j')]
    {
      if g.At(i', j') == x { AtInjective(g, i, j, i', j'); }
    }
  }

  lemma ScaledRow(g: Job, c0: Memory, c: Memory, i: nat)
    requires g.FitsIn(|c0|) && i < g.m && ScaledTo(g, c0, c, i, g.n)
    ensures ScaledTo(g, c0, c, i + 1, 0)
  {}

  lemma ScaledAll(g: Job, c0: Memory, c: Memory)
    requires g.FitsIn(|c0|) && (ScaledTo(g, c0, c, g.m, 0) || (g.beta == 1.0 && c == c0))
    ensures Scaled(g, c0, c)
  {
    if g.beta == 1.0 && c == c0 { ScaledNone(g, c); }
  }

  /** Zeroes the window, scales it, or leaves it, as beta is 0, neither 0 nor 1, or 1. */
  method ScalePass(g: Job, c: array<real>)
    requires g.FitsIn(c.Length)
    modifies c
    ensures Scaled(g, old(c[..]), c[..])
  {
    ghost var c0 := c[..];
    ScaledNone(g, c0);
    if g.beta != 1.0 {
      for i := 0 to g.m
        invariant ScaledTo(g, c0, c[..], i, 0)
      {
        for j := 0 to g.n
          invariant ScaledTo(g, c0, c[..], i, j)
        {
          AtFits(g, c.Length, i, j);
          assert c[..][g.At(i, j)] == c0[g.At(i, j)];
          var v := if g.beta == 0.0 then 0.0 else c[g.At(i, j)] * g.beta;
          ScaledStep(g, c0, c[..], i, j, v);
          c[g.At(i, j)] := v;
        }
        ScaledRow(g, c0, c[..], i);
      }
    }
    ScaledAll(g, c0, c[..]);
  }

  // ----- the entry point -----

  predicate Rejected(m: int, n: int, k: int, a: Option<seq<real>>, b: Option<seq<real>>, c: array?<real>) {
    a.None? || b.None? || c == null || m <= 0 || n <= 0 || k <= 0
  }

  function JobOf(m: int, n: int, k: int, a: Option<seq<real>>, lda: nat, ta: bool, b: Option<seq<real>>, ldb: nat, tb: bool,
                 ldc: nat, alpha: real, beta: real, tile: nat): Job
    requires a.Some? && b.Some? && m > 0 && n > 0 && k > 0
  {
    Job(m, n, k, Matrix(a.value, lda, ta), Matrix(b.value, ldb, tb), ldc, alpha, beta, tile)
  }

  /** Null buffers and empty sizes are refused; otherwise the window becomes the product and nothing else changes. */
  method MultiplyF32(m: int, n: int, k: int, a: Option<seq<real>>, lda: nat, ta: bool, b: Option<seq<real>>, ldb: nat, tb: bool,
                 c: array?<real>, ldc: nat, alpha: real, beta: real, tile: nat)
    returns (error: Option<GemmError>)
    requires !Rejected(m, n, k, a, b, c) ==> JobOf(m, n, k, a, lda, ta, b, ldb, tb, ldc, alpha, beta, tile).FitsIn(c.Length)
    modifies c
    ensures error.Some? <==> Rejected(m, n, k, a, b, c)
    ensures error.Some? && c != null ==> c[..] == old(c[..])
    ensures error.None? ==> IsProduct(JobOf(m, n, k, a, lda, ta, b, ldb, tb, ldc, alpha, beta, tile), old(c[..]), c[..])
    ensures error.None? ==> CellsAre(m, n, k, Pair(a.value, lda, ta, b.value, ldb, tb), ldc, alpha, beta, old(c[..]), c[..])
  {
    hide CellsAre;
    if a.None? || b.None? || c == null || m <= 0 || n <= 0 || k <= 0 { return Some(BadArguments); }
    var g := JobOf(m, n, k, a, lda, ta, b, ldb, tb, ldc, alpha, beta, tile);
    ScalePass(g, c);
    ghost var scaled := c[..];
    TilePass(g, c);
    TilesMultiply(g, scaled);
    assert c[..] == P.RunAll(Tasks(g), scaled, |Tasks(g)|);
    ScaledThenMultiplied(g, old(c[..]), scaled, c[..]);
    ProductIsCells(g, old(c[..]), c[..]);
    return None;
  }
}
