/**
 What the matrix kernels leave, cell by cell: sums of products over flat buffers, with the index
 arithmetic of the two transpose flags written out.
 */
module Cells {
  import opened Layout
  import opened Gemm
  import opened Sums
  import F = Formats
  import A = AttentionSpec
  import V = Averages

  /** The factors of row `i` of op(A) and column `j` of op(B). */
  function Factors(a: seq<real>, lda: nat, ta: bool, i: nat, b: seq<real>, ldb: nat, tb: bool, j: nat): nat -> real {
    (e: nat) => At(a, if ta then Span(e, lda) + i else Span(i, lda) + e) * At(b, if tb then Span(j, ldb) + e else Span(e, ldb) + j)
  }

  /** The operands of a product: two buffers, their row lengths and transpose flags. */
  datatype Pair = Pair(a: seq<real>, lda: nat, ta: bool, b: seq<real>, ldb: nat, tb: bool)

  ghost predicate CellIs(p: Pair, k: nat, ldc: nat, alpha: real, beta: real, c0: seq<real>, c: seq<real>, i: nat, j: nat) {
    var x := Span(i, ldc) + j;
    x < |c0| && x < |c| && c[x] == alpha * SumTo(k, Factors(p.a, p.lda, p.ta, i, p.b, p.ldb, p.tb, j)) + beta * c0[x]
  }

  /** No cell of the window is at `x`. */
  ghost predicate Beyond(m: nat, n: nat, ldc: nat, x: nat) { forall i: nat, j: nat :: i < m && j < n ==> !IsAt(ldc, i, j, x) }

  predicate IsAt(ldc: nat, i: nat, j: nat, x: nat) { x == Span(i, ldc) + j }

  /** The window is alpha * op(A) * op(B) + beta * C, and all other cells are as before. */
  ghost predicate CellsAre(m: nat, n: nat, k: nat, p: Pair, ldc: nat, alpha: real, beta: real, c0: seq<real>, c: seq<real>) {
    && |c| == |c0|
    && (forall i: nat, j: nat :: i < m && j < n ==> CellIs(p, k, ldc, alpha, beta, c0, c, i, j))
    && (forall x: nat :: x < |c| && Beyond(m, n, ldc, x) ==> c[x] == c0[x])
  }

  lemma PlainLoad(x: Matrix, rows: nat, cols: nat, i: nat, j: nat)
    requires InBounds(x, rows, cols) && i < rows && j < cols && !x.transposed
    ensures Load(x, rows, cols, i, j) == At(x.data, Span(i, x.ld) + j)
  {
    hide Span;
    SpanMonotone(i, rows - 1, x.ld);
  }

  lemma TurnedLoad(x: Matrix, rows: nat, cols: nat, i: nat, j: nat)
    requires InBounds(x, rows, cols) && i < rows && j < cols && x.transposed
    ensures Load(x, rows, cols, i, j) == At(x.data, Span(j, x.ld) + i)
  {
    hide Span;
    SpanMonotone(j, cols - 1, x.ld);
  }

  lemma FactorsAt(g: Job, i: nat, j: nat, e: nat)
    requires g.Valid() && i < g.m && j < g.n && e < g.k
    ensures Factors(g.a.data, g.a.ld, g.a.transposed, i, g.b.data, g.b.ld, g.b.transposed, j)(e) == Load(g.a, g.m, g.k, i, e) * Load(g.b, g.k, g.n, e, j)
  {
    hide Load, Span, At, InBounds;
    if g.a.transposed { TurnedLoad(g.a, g.m, g.k, i, e); } else { PlainLoad(g.a, g.m, g.k, i, e); }
    if g.b.transposed { TurnedLoad(g.b, g.k, g.n, e, j); } else { PlainLoad(g.b, g.k, g.n, e, j); }
  }

  lemma DotStep(g: Job, i: nat, j: nat, n: nat)
    requires g.Valid() && i < g.m && j < g.n && 0 < n <= g.k
    ensures g.Dot(i, j, 0, n) == g.Dot(i, j, 0, n - 1) + Factors(g.a.data, g.a.ld, g.a.transposed, i, g.b.data, g.b.ld, g.b.transposed, j)(n - 1)
  {
    hide Load, Span, Factors;
    FactorsAt(g, i, j, n - 1);
  }

  lemma {:induction false} DotIsSum(g: Job, i: nat, j: nat, n: nat)
    requires g.Valid() && i < g.m && j < g.n && n <= g.k
    ensures g.Dot(i, j, 0, n) == SumTo(n, Factors(g.a.data, g.a.ld, g.a.transposed, i, g.b.data, g.b.ld, g.b.transposed, j))
  {
    hide *;
    if n == 0 {
      NoTerms(g, i, j, Factors(g.a.data, g.a.ld, g.a.transposed, i, g.b.data, g.b.ld, g.b.transposed, j));
    } else {
      DotIsSum(g, i, j, n - 1);
      DotStep(g, i, j, n);
      SumStep(n, Factors(g.a.data, g.a.ld, g.a.transposed, i, g.b.data, g.b.ld, g.b.transposed, j));
    }
  }

  lemma NoTerms(g: Job, i: nat, j: nat, f: nat -> real)
    requires g.Valid() && i < g.m && j < g.n
    ensures g.Dot(i, j, 0, 0) == SumTo(0, f)
  {
    hide Load, Span;
  }

  lemma SumStep(n: nat, f: nat -> real)
    requires n > 0
    ensures SumTo(n, f) == SumTo(n - 1, f) + f(n - 1)
  {}

  /** A product in the sense of its job is one cell by cell. */
  lemma ProductIsCells(g: Job, c0: seq<real>, c: seq<real>)
    requires g.FitsIn(|c0|) && IsProduct(g, c0, c)
    ensures CellsAre(g.m, g.n, g.k, Pair(g.a.data, g.a.ld, g.a.transposed, g.b.data, g.b.ld, g.b.transposed), g.ldc, g.alpha, g.beta, c0, c)
  {
    hide Span, Factors, g.Dot, SumTo, CellIs;
    var p := Pair(g.a.data, g.a.ld, g.a.transposed, g.b.data, g.b.ld, g.b.transposed);
    forall i: nat, j: nat | i < g.m && j < g.n ensures CellIs(p, g.k, g.ldc, g.alpha, g.beta, c0, c, i, j) { OneCell(g, c0, c, i, j); }
    forall x: nat | x < |c| && Beyond(g.m, g.n, g.ldc, x) ensures c[x] == c0[x] { NotInside(g, x); }
  }

  lemma OneCell(g: Job, c0: seq<real>, c: seq<real>, i: nat, j: nat)
    requires g.FitsIn(|c0|) && IsProduct(g, c0, c) && i < g.m && j < g.n
    ensures CellIs(Pair(g.a.data, g.a.ld, g.a.transposed, g.b.data, g.b.ld, g.b.transposed), g.k, g.ldc, g.alpha, g.beta, c0, c, i, j)
  {
    hide Span, Factors, g.Dot, SumTo, Beyond, Inside, Load;
    DotIsSum(g, i, j, g.k);
    assert c[g.At(i, j)] == g.alpha * g.Dot(i, j, 0, g.k) + g.beta * c0[g.At(i, j)];
  }

  lemma NotInside(g: Job, x: nat)
    requires Beyond(g.m, g.n, g.ldc, x)
    ensures !Inside(g, x, 0, g.m, 0, g.n)
  {
    hide Span;
    forall i: nat, j: nat | i < g.m && j < g.n ensures x != g.At(i, j) { assert !IsAt(g.ldc, i, j, x); }
  }
}
