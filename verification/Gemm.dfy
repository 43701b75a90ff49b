/**
 The reference matrix product: a scaling pass over the output window, then tiles of rows handed to
 the work-sharing loop, each walking column tiles, depth tiles, rows, columns and depth. Under
 every interleaving it leaves alpha * op(A) * op(B) + beta * C on the window and nothing else changed.
 */
module Gemm {
  import opened Layout
  import P = ParallelFor

  type Program = P.Program
  type Memory = P.Memory

  datatype GemmError = BadArguments

  /** A read-only operand with its row stride. */
  datatype Matrix = Matrix(data: seq<real>, ld: nat, transposed: bool)

  /** Whether every element the product reads is inside the buffer. */
  predicate InBounds(x: Matrix, rows: nat, cols: nat) {
    var r, c := if x.transposed then cols else rows, if x.transposed then rows else cols;
    r > 0 && c > 0 ==> Span(r - 1, x.ld) + c <= |x.data|
  }

  function Load(x: Matrix, rows: nat, cols: nat, i: nat, j: nat): real
    requires InBounds(x, rows, cols) && i < rows && j < cols
  {
    if x.transposed then
      SpanMonotone(j, cols - 1, x.ld);
      x.data[Span(j, x.ld) + i]
    else
      SpanMonotone(i, rows - 1, x.ld);
      x.data[Span(i, x.ld) + j]
  }

  /** The problem: an m x k times k x n product into a window of row stride `ldc`. */
  datatype Job = Job(m: nat, n: nat, k: nat, a: Matrix, b: Matrix, ldc: nat, alpha: real, beta: real, tile: nat) {
    predicate Valid() { m > 0 && n > 0 && k > 0 && tile > 0 && n <= ldc && InBounds(a, m, k) && InBounds(b, k, n) }

    /** The window fits in a buffer of this size. */
    predicate FitsIn(size: nat) { Valid() && Span(m - 1, ldc) + n <= size }

    /** Products over depths [k0, k1) of entry (i, j). */
    function Dot(i: nat, j: nat, k0: nat, k1: nat): real
      requires Valid() && i < m && j < n && k0 <= k1 <= k
    {
      if k0 == k1 then 0.0 else Dot(i, j, k0, k1 - 1) + Load(a, m, k, i, k1 - 1) * Load(b, k, n, k1 - 1, j)
    }

    /** What one depth tile adds to entry (i, j). */
    function Term(i: nat, j: nat, k0: nat, k1: nat): real
      requires Valid() && i < m && j < n && k0 <= k1 <= k
    {
      alpha * Dot(i, j, k0, k1)
    }

    function At(i: nat, j: nat): nat { Span(i, ldc) + j }
  }

  lemma AtFits(g: Job, size: nat, i: nat, j: nat)
    requires g.FitsIn(size) && i < g.m && j < g.n
    ensures g.At(i, j) < size
  {
    SpanMonotone(i, g.m - 1, g.ldc);
  }

  lemma AtInjective(g: Job, i: nat, j: nat, i': nat, j': nat)
    requires g.Valid() && j < g.n && j' < g.n && g.At(i, j) == g.At(i', j')
    ensures i == i' && j == j'
  {
    if i < i' { SpanApart(i, i', g.ldc); }
    if i' < i { SpanApart(i', i, g.ldc); }
  }

  lemma {:induction false} DotSplit(g: Job, i: nat, j: nat, k0: nat, k1: nat, k2: nat)
    requires g.Valid() && i < g.m && j < g.n && k0 <= k1 <= k2 <= g.k
    ensures g.Dot(i, j, k0, k2) == g.Dot(i, j, k0, k1) + g.Dot(i, j, k1, k2)
  {
    if k1 < k2 { DotSplit(g, i, j, k0, k1, k2 - 1); }
  }

  // ----- the updates a tile makes, loop by loop -----

  /** Row `i`, columns [j0, j), one depth tile. */
  function RowProgram(g: Job, i: nat, j0: nat, j: nat, k0: nat, k1: nat): (p: Program)
    requires g.Valid() && i < g.m && j0 <= j <= g.n && k0 <= k1 <= g.k
  {
    if j == j0 then [] else RowProgram(g, i, j0, j - 1, k0, k1) + [P.Add(g.At(i, j - 1), g.Term(i, j - 1, k0, k1))]
  }

  /** Rows [i0, i) of one block. */
  function BlockProgram(g: Job, i0: nat, i: nat, j0: nat, j1: nat, k0: nat, k1: nat): (p: Program)
    requires g.Valid() && i0 <= i <= g.m && j0 <= j1 <= g.n && k0 <= k1 <= g.k
  {
    if i == i0 then [] else BlockProgram(g, i0, i - 1, j0, j1, k0, k1) + RowProgram(g, i - 1, j0, j1, k0, k1)
  }

  /** The end of the tile that starts at `x`. */
  function TileEnd(x: nat, tile: nat, limit: nat): (r: nat)
    requires x <= limit && tile > 0
    ensures x <= r <= limit && (x < limit ==> x < r)
  {
    Min(x + tile, limit)
  }

  /** Depth tiles from `k0` to the end. */
  function DepthProgram(g: Job, i0: nat, i1: nat, j0: nat, j1: nat, k0: nat): (p: Program)
    requires g.Valid() && i0 <= i1 <= g.m && j0 <= j1 <= g.n && k0 <= g.k
    decreases g.k - k0
  {
    if k0 == g.k then []
    else
      var k1 := TileEnd(k0, g.tile, g.k);
      BlockProgram(g, i0, i1, j0, j1, k0, k1) + DepthProgram(g, i0, i1, j0, j1, k1)
  }

  /** Column tiles from `j0` to the end. */
  function ColumnProgram(g: Job, i0: nat, i1: nat, j0: nat): (p: Program)
    requires g.Valid() && i0 <= i1 <= g.m && j0 <= g.n
    decreases g.n - j0
  {
    if j0 == g.n then []
    else
      var j1 := TileEnd(j0, g.tile, g.n);
      DepthProgram(g, i0, i1, j0, j1, 0) + ColumnProgram(g, i0, i1, j1)
  }

  // ----- what a program adds to a cell -----

  predicate AllAdds(p: Program) { forall k :: 0 <= k < |p| ==> p[k].Add? }

  /** Everything the program adds to cell `x`. */
  function Added(p: Program, x: nat): real
    requires AllAdds(p)
  {
    if p == [] then 0.0 else Added(p[..|p| - 1], x) + if p[|p| - 1].at == x then p[|p| - 1].v else 0.0
  }

  lemma {:induction false} AddedJoin(p: Program, q: Program, x: nat)
    requires AllAdds(p) && AllAdds(q)
    ensures AllAdds(p + q) && Added(p + q, x) == Added(p, x) + Added(q, x)
  {
    if q == [] {
      assert p + q == p;
    } else {
      var last := |q| - 1;
      AddedJoin(p, q[..last], x);
      assert (p + q)[..|p + q| - 1] == p + q[..last];
      assert (p + q)[|p + q| - 1] == q[last];
    }
  }

  lemma {:induction false} ApplyAdds(p: Program, m: Memory, k: nat, x: nat)
    requires P.Fits(p, |m|) && AllAdds(p) && k <= |p| && x < |m|
    ensures P.Apply(p, m, k)[x] == m[x] + Added(p[..k], x)
  {
    if k > 0 {
      ApplyAdds(p, m, k - 1, x);
      assert p[..k][..k - 1] == p[..k - 1];
    }
  }

  /** Every update is an addition inside the given rows and columns of the window. */
  ghost predicate Within(g: Job, p: Program, i0: nat, i1: nat, j0: nat, j1: nat) {
    AllAdds(p) && forall t :: 0 <= t < |p| ==> Inside(g, p[t].at, i0, i1, j0, j1)
  }

  ghost predicate Inside(g: Job, x: nat, i0: nat, i1: nat, j0: nat, j1: nat) {
    exists i: nat, j: nat :: i0 <= i < i1 && j0 <= j < j1 && x == g.At(i, j)
  }

  lemma InsideWider(g: Job, x: nat, i0: nat, i1: nat, j0: nat, j1: nat, i0': nat, i1': nat, j0': nat, j1': nat)
    requires Inside(g, x, i0, i1, j0, j1) && i0' <= i0 && i1 <= i1' && j0' <= j0 && j1 <= j1'
    ensures Inside(g, x, i0', i1', j0', j1')
  {
    var i: nat, j: nat :| i0 <= i < i1 && j0 <= j < j1 && x == g.At(i, j);
  }

  lemma WithinWider(g: Job, p: Program, i0: nat, i1: nat, j0: nat, j1: nat, i0': nat, i1': nat, j0': nat, j1': nat)
    requires Within(g, p, i0, i1, j0, j1) && i0' <= i0 && i1 <= i1' && j0' <= j0 && j1 <= j1'
    ensures Within(g, p, i0', i1', j0', j1')
  {
    forall t | 0 <= t < |p| ensures Inside(g, p[t].at, i0', i1', j0', j1') {
      InsideWider(g, p[t].at, i0, i1, j0, j1, i0', i1', j0', j1');
    }
  }

  lemma WithinJoin(g: Job, p: Program, q: Program, i0: nat, i1: nat, j0: nat, j1: nat)
    requires Within(g, p, i0, i1, j0, j1) && Within(g, q, i0, i1, j0, j1)
    ensures Within(g, p + q, i0, i1, j0, j1)
  {}

  lemma {:induction false} RowWithin(g: Job, i: nat, j0: nat, j: nat, k0: nat, k1: nat)
    requires g.Valid() && i < g.m && j0 <= j <= g.n && k0 <= k1 <= g.k
    ensures Within(g, RowProgram(g, i, j0, j, k0, k1), i, i + 1, j0, j)
  {
    hide g.Term;
    if j > j0 {
      var p, u := RowProgram(g, i, j0, j - 1, k0, k1), P.Add(g.At(i, j - 1), g.Term(i, j - 1, k0, k1));
      RowWithin(g, i, j0, j - 1, k0, k1);
      WithinWider(g, p, i, i + 1, j0, j - 1, i, i + 1, j0, j);
      assert Inside(g, u.at, i, i + 1, j0, j);
      WithinJoin(g, p, [u], i, i + 1, j0, j);
    }
  }

  lemma {:induction false} BlockWithin(g: Job, i0: nat, i: nat, j0: nat, j1: nat, k0: nat, k1: nat)
    requires g.Valid() && i0 <= i <= g.m && j0 <= j1 <= g.n && k0 <= k1 <= g.k
    ensures Within(g, BlockProgram(g, i0, i, j0, j1, k0, k1), i0, i, j0, j1)
  {
    hide RowProgram, Within;
    if i > i0 {
      var p, q := BlockProgram(g, i0, i - 1, j0, j1, k0, k1), RowProgram(g, i - 1, j0, j1, k0, k1);
      BlockWithin(g, i0, i - 1, j0, j1, k0, k1);
      RowWithin(g, i - 1, j0, j1, k0, k1);
      WithinWider(g, p, i0, i - 1, j0, j1, i0, i, j0, j1);
      WithinWider(g, q, i - 1, i, j0, j1, i0, i, j0, j1);
      WithinJoin(g, p, q, i0, i, j0, j1);
    } else {
      NothingWithin(g, i0, i, j0, j1);
    }
  }

  lemma NothingWithin(g: Job, i0: nat, i1: nat, j0: nat, j1: nat)
    ensures Within(g, [], i0, i1, j0, j1)
  {}

  lemma {:induction false} DepthWithin(g: Job, i0: nat, i1: nat, j0: nat, j1: nat, k0: nat)
    requires g.Valid() && i0 <= i1 <= g.m && j0 <= j1 <= g.n && k0 <= g.k
    ensures Within(g, DepthProgram(g, i0, i1, j0, j1, k0), i0, i1, j0, j1)
    decreases g.k - k0
  {
    hide BlockProgram, Within;
    if k0 < g.k {
      var k1 := TileEnd(k0, g.tile, g.k);
      BlockWithin(g, i0, i1, j0, j1, k0, k1);
      DepthWithin(g, i0, i1, j0, j1, k1);
      WithinJoin(g, BlockProgram(g, i0, i1, j0, j1, k0, k1), DepthProgram(g, i0, i1, j0, j1, k1), i0, i1, j0, j1);
    } else {
      NothingWithin(g, i0, i1, j0, j1);
    }
  }

  lemma {:induction false} ColumnWithin(g: Job, i0: nat, i1: nat, j0: nat)
    requires g.Valid() && i0 <= i1 <= g.m && j0 <= g.n
    ensures Within(g, ColumnProgram(g, i0, i1, j0), i0, i1, j0, g.n)
    decreases g.n - j0
  {
    hide DepthProgram, Within;
    if j0 < g.n {
      var j1 := TileEnd(j0, g.tile, g.n);
      var p, q := DepthProgram(g, i0, i1, j0, j1, 0), ColumnProgram(g, i0, i1, j1);
      DepthWithin(g, i0, i1, j0, j1, 0);
      ColumnWithin(g, i0, i1, j1);
      WithinWider(g, p, i0, i1, j0, j1, i0, i1, j0, g.n);
      WithinWider(g, q, i0, i1, j1, g.n, i0, i1, j0, g.n);
      WithinJoin(g, p, q, i0, i1, j0, g.n);
    } else {
      NothingWithin(g, i0, i1, j0, g.n);
    }
  }

  lemma OneAdds(u: P.Update, x: nat)
    requires u.Add?
    ensures AllAdds([u]) && Added([u], x) == if u.at == x then u.v else 0.0
  {
    assert [u][..0] == [];
  }

  /** A row adds alpha times its partial dot product to each of its columns, and nothing elsewhere. */
  lemma {:induction false} RowAdds(g: Job, i: nat, j0: nat, j: nat, k0: nat, k1: nat, i': nat, j': nat)
    requires g.Valid() && i < g.m && j0 <= j <= g.n && k0 <= k1 <= g.k && i' < g.m && j' < g.n
    ensures AllAdds(RowProgram(g, i, j0, j, k0, k1))
    ensures Added(RowProgram(g, i, j0, j, k0, k1), g.At(i', j'))
         == if i' == i && j0 <= j' < j then g.Term(i', j', k0, k1) else 0.0
  {
    hide g.Term, g.At, Added;
    if j > j0 {
      var u := P.Add(g.At(i, j - 1), g.Term(i, j - 1, k0, k1));
      RowAdds(g, i, j0, j - 1, k0, k1, i', j');
      OneAdds(u, g.At(i', j'));
      AddedJoin(RowProgram(g, i, j0, j - 1, k0, k1), [u], g.At(i', j'));
      assert RowProgram(g, i, j0, j, k0, k1) == RowProgram(g, i, j0, j - 1, k0, k1) + [u];
      if u.at == g.At(i', j') {
        AtInjective(g, i, j - 1, i', j');
        assert u.v == g.Term(i', j', k0, k1);
      }
    } else {
      NothingAdded(g.At(i', j'));
    }
  }

  lemma NothingAdded(x: nat)
    ensures Added([], x) == 0.0
  {}

  lemma {:induction false} BlockAdds(g: Job, i0: nat, i: nat, j0: nat, j1: nat, k0: nat, k1: nat, i': nat, j': nat)
    requires g.Valid() && i0 <= i <= g.m && j0 <= j1 <= g.n && k0 <= k1 <= g.k && i' < g.m && j' < g.n
    ensures AllAdds(BlockProgram(g, i0, i, j0, j1, k0, k1))
    ensures Added(BlockProgram(g, i0, i, j0, j1, k0, k1), g.At(i', j'))
         == if i0 <= i' < i && j0 <= j' < j1 then g.Term(i', j', k0, k1) else 0.0
  {
    hide g.Term, g.At, Added, RowProgram;
    if i > i0 {
      BlockAdds(g, i0, i - 1, j0, j1, k0, k1, i', j');
      RowAdds(g, i - 1, j0, j1, k0, k1, i', j');
      AddedJoin(BlockProgram(g, i0, i - 1, j0, j1, k0, k1), RowProgram(g, i - 1, j0, j1, k0, k1), g.At(i', j'));
    } else {
      NothingAdded(g.At(i', j'));
    }
  }

  lemma Distribute(a: real, b: real, c: real)
    ensures a * b + a * c == a * (b + c)
  {}

  lemma {:induction false} DepthAdds(g: Job, i0: nat, i1: nat, j0: nat, j1: nat, k0: nat, i': nat, j': nat)
    requires g.Valid() && i0 <= i1 <= g.m && j0 <= j1 <= g.n && k0 <= g.k && i' < g.m && j' < g.n
    ensures AllAdds(DepthProgram(g, i0, i1, j0, j1, k0))
    ensures Added(DepthProgram(g, i0, i1, j0, j1, k0), g.At(i', j'))
         == if i0 <= i' < i1 && j0 <= j' < j1 then g.Term(i', j', k0, g.k) else 0.0
    decreases g.k - k0
  {
    hide g.At, Added, BlockProgram;
    if k0 < g.k {
      var k1 := TileEnd(k0, g.tile, g.k);
      BlockAdds(g, i0, i1, j0, j1, k0, k1, i', j');
      DepthAdds(g, i0, i1, j0, j1, k1, i', j');
      AddedJoin(BlockProgram(g, i0, i1, j0, j1, k0, k1), DepthProgram(g, i0, i1, j0, j1, k1), g.At(i', j'));
      DotSplit(g, i', j', k0, k1, g.k);
      Distribute(g.alpha, g.Dot(i', j', k0, k1), g.Dot(i', j', k1, g.k));
    } else {
      NothingAdded(g.At(i', j'));
    }
  }

  /** A tile of rows adds alpha times the whole dot product to each of its entries from column `j0` on. */
  lemma {:induction false} ColumnAdds(g: Job, i0: nat, i1: nat, j0: nat, i': nat, j': nat)
    requires g.Valid() && i0 <= i1 <= g.m && j0 <= g.n && i' < g.m && j' < g.n
    ensures AllAdds(ColumnProgram(g, i0, i1, j0))
    ensures Added(ColumnProgram(g, i0, i1, j0), g.At(i', j'))
         == if i0 <= i' < i1 && j0 <= j' then g.Term(i', j', 0, g.k) else 0.0
    decreases g.n - j0
  {
    hide g.At, Added, DepthProgram, g.Term;
    if j0 < g.n {
      var j1 := TileEnd(j0, g.tile, g.n);
      DepthAdds(g, i0, i1, j0, j1, 0, i', j');
      ColumnAdds(g, i0, i1, j1, i', j');
      AddedJoin(DepthProgram(g, i0, i1, j0, j1, 0), ColumnProgram(g, i0, i1, j1), g.At(i', j'));
    } else {
      NothingAdded(g.At(i', j'));
    }
  }

  // ----- the tiles of rows, and the whole product -----

  /** Number of row tiles: the rounded-up quotient of `m` by the tile size. */
  function TileCount(g: Job): (r: nat)
    requires g.Valid()
    ensures r > 0 && Span(r - 1, g.tile) < g.m <= Span(r, g.tile)
  {
    var r := (g.m + g.tile - 1) / g.tile;
    CeilQuotient(g.m, g.tile, r);
    r
  }

  lemma CeilQuotient(m: nat, t: nat, r: nat)
    requires m > 0 && t > 0 && r == (m + t - 1) / t
    ensures r > 0 && Span(r - 1, t) < m <= Span(r, t)
  {
    assert r * t <= m + t - 1 < r * t + t;
    SpanIsProduct(r, t);
  }

  /** The program of row tile `ti`. */
  function TileProgram(g: Job, ti: nat): (p: Program)
    requires g.Valid() && ti < TileCount(g)
  {
    SpanMonotone(ti, TileCount(g) - 1, g.tile);
    var i0 := Span(ti, g.tile);
    ColumnProgram(g, i0, TileEnd(i0, g.tile, g.m), 0)
  }

  function Tasks(g: Job): (r: seq<Program>)
    requires g.Valid()
    ensures |r| == TileCount(g) && forall ti: nat :: ti < |r| ==> r[ti] == TileProgram(g, ti)
  {
    seq(TileCount(g), ti requires 0 <= ti < TileCount(g) => TileProgram(g, ti))
  }

  lemma TileFits(g: Job, size: nat, ti: nat)
    requires g.FitsIn(size) && ti < TileCount(g)
    ensures P.Fits(TileProgram(g, ti), size)
  {
    SpanMonotone(ti, TileCount(g) - 1, g.tile);
    var i0 := Span(ti, g.tile);
    var p := TileProgram(g, ti);
    ColumnWithin(g, i0, TileEnd(i0, g.tile, g.m), 0);
    forall t | 0 <= t < |p| ensures p[t].at < size {
      assert Inside(g, p[t].at, i0, TileEnd(i0, g.tile, g.m), 0, g.n);
      var i: nat, j: nat :| i0 <= i < TileEnd(i0, g.tile, g.m) && 0 <= j < g.n && p[t].at == g.At(i, j);
      AtFits(g, size, i, j);
    }
  }

  lemma TasksFit(g: Job, size: nat)
    requires g.FitsIn(size)
    ensures forall ti :: 0 <= ti < |Tasks(g)| ==> P.Fits(Tasks(g)[ti], size)
  {
    forall ti: nat | ti < |Tasks(g)| ensures P.Fits(Tasks(g)[ti], size) { TileFits(g, size, ti); }
  }

  /** Which row a touched cell lies in. */
  lemma TouchedInTile(g: Job, ti: nat, x: nat) returns (i: nat, j: nat)
    requires g.Valid() && ti < TileCount(g) && P.Touches(TileProgram(g, ti), x)
    ensures Span(ti, g.tile) <= i < g.m && i < Span(ti, g.tile) + g.tile && j < g.n && x == g.At(i, j)
  {
    SpanMonotone(ti, TileCount(g) - 1, g.tile);
    var i0 := Span(ti, g.tile);
    var p := TileProgram(g, ti);
    ColumnWithin(g, i0, TileEnd(i0, g.tile, g.m), 0);
    var t :| 0 <= t < |p| && p[t].at == x;
    assert Inside(g, p[t].at, i0, TileEnd(i0, g.tile, g.m), 0, g.n);
    i, j :| i0 <= i < TileEnd(i0, g.tile, g.m) && 0 <= j < g.n && x == g.At(i, j);
  }

  /** Tiles own disjoint rows of the window. */
  lemma TilesDisjoint(g: Job)
    requires g.Valid()
    ensures P.Disjoint(Tasks(g))
  {
    var tasks := Tasks(g);
    forall s, t, x | 0 <= s < |tasks| && 0 <= t < |tasks| && P.Touches(tasks[s], x) && P.Touches(tasks[t], x) ensures s == t {
      var i, j := TouchedInTile(g, s, x);
      var i', j' := TouchedInTile(g, t, x);
      AtInjective(g, i, j, i', j');
      if s < t { SpanApart(s, t, g.tile); }
      if t < s { SpanApart(t, s, g.tile); }
    }
  }

  /** The tile that owns a row. */
  lemma {:induction false} OwnerOf(g: Job, i: nat, n: nat) returns (ti: nat)
    requires g.Valid() && n <= TileCount(g) && i < g.m && i < Span(n, g.tile)
    ensures ti < n && Span(ti, g.tile) <= i < Span(ti, g.tile) + g.tile
  {
    if Span(n - 1, g.tile) <= i { return n - 1; }
    ti := OwnerOf(g, i, n - 1);
  }

  /** alpha * op(A) * op(B) has been added to the window; other cells are as before. */
  ghost predicate Multiplied(g: Job, c: Memory, c': Memory)
    requires g.FitsIn(|c|)
  {
    && |c'| == |c|
    && (forall i: nat, j: nat :: i < g.m && j < g.n ==>
          g.At(i, j) < |c| && c'[g.At(i, j)] == c[g.At(i, j)] + g.Term(i, j, 0, g.k))
    && (forall x: nat :: x < |c| && !Inside(g, x, 0, g.m, 0, g.n) ==> c'[x] == c[x])
  }

  /** The tiles in order add alpha * op(A) * op(B) to the window and change no other cell. */
  lemma TilesMultiply(g: Job, c: Memory)
    requires g.FitsIn(|c|)
    ensures forall ti :: 0 <= ti < |Tasks(g)| ==> P.Fits(Tasks(g)[ti], |c|)
    ensures Multiplied(g, c, P.RunAll(Tasks(g), c, |Tasks(g)|))
  {
    hide g.Term, g.At, P.RunAll, P.Disjoint, TileProgram, Inside, P.Fits;
    var tasks := Tasks(g);
    TasksFit(g, |c|);
    TilesDisjoint(g);
    var c' := P.RunAll(tasks, c, |tasks|);
    forall i: nat, j: nat | i < g.m && j < g.n ensures g.At(i, j) < |c| && c'[g.At(i, j)] == c[g.At(i, j)] + g.Term(i, j, 0, g.k) {
      TilesMultiplyAt(g, c, i, j);
    }
    forall x: nat | x < |c| && !Inside(g, x, 0, g.m, 0, g.n) ensures c'[x] == c[x] { OutsideKept(g, c, x); }
  }

  lemma OutsideKept(g: Job, c: Memory, x: nat)
    requires g.FitsIn(|c|) && x < |c| && !Inside(g, x, 0, g.m, 0, g.n)
    requires forall ti :: 0 <= ti < |Tasks(g)| ==> P.Fits(Tasks(g)[ti], |c|)
    ensures P.RunAll(Tasks(g), c, |Tasks(g)|)[x] == c[x]
  {
    var tasks := Tasks(g);
    forall o: nat | o < |tasks| ensures !P.Touches(tasks[o], x) {
      if P.Touches(tasks[o], x) { var i, j := TouchedInTile(g, o, x); }
    }
    P.RunAllUntouched(tasks, c, |tasks|, x);
  }

  lemma TilesMultiplyAt(g: Job, c: Memory, i: nat, j: nat)
    requires g.FitsIn(|c|) && i < g.m && j < g.n
    requires P.Disjoint(Tasks(g)) && forall ti :: 0 <= ti < |Tasks(g)| ==> P.Fits(Tasks(g)[ti], |c|)
    ensures g.At(i, j) < |c| && P.RunAll(Tasks(g), c, |Tasks(g)|)[g.At(i, j)] == c[g.At(i, j)] + g.Term(i, j, 0, g.k)
  {
    hide g.Term, g.Dot, Added, ColumnProgram, P.RunAll, P.Apply;
    var tasks, x := Tasks(g), g.At(i, j);
    AtFits(g, |c|, i, j);
    var ti := OwnerOf(g, i, |tasks|);
    TileAdds(g, c, ti, i, j);
    if P.Touches(tasks[ti], x) {
      P.RunAllAt(tasks, c, |tasks|, x, ti);
    } else {
      P.ApplyUntouched(tasks[ti], c, |tasks[ti]|, x);
      forall o: nat | o < |tasks| ensures !P.Touches(tasks[o], x) {
        if P.Touches(tasks[o], x) { NotElsewhere(g, o, ti, i, j); }
      }
      P.RunAllUntouched(tasks, c, |tasks|, x);
    }
  }

  /** The owner's program alone adds the whole term. */
  lemma TileAdds(g: Job, c: Memory, ti: nat, i: nat, j: nat)
    requires g.FitsIn(|c|) && i < g.m && j < g.n && ti < TileCount(g) && P.Fits(TileProgram(g, ti), |c|)
    requires Span(ti, g.tile) <= i < Span(ti, g.tile) + g.tile
    ensures g.At(i, j) < |c|
    ensures P.Apply(TileProgram(g, ti), c, |TileProgram(g, ti)|)[g.At(i, j)] == c[g.At(i, j)] + g.Term(i, j, 0, g.k)
  {
    hide g.Term, g.Dot, Added, P.Apply;
    AtFits(g, |c|, i, j);
    SpanMonotone(ti, TileCount(g) - 1, g.tile);
    var p := TileProgram(g, ti);
    ColumnAdds(g, Span(ti, g.tile), TileEnd(Span(ti, g.tile), g.tile, g.m), 0, i, j);
    ApplyAdds(p, c, |p|, g.At(i, j));
    assert p[..|p|] == p;
  }

  lemma NotElsewhere(g: Job, o: nat, ti: nat, i: nat, j: nat)
    requires g.Valid() && o < TileCount(g) && ti < TileCount(g) && i < g.m && j < g.n
    requires Span(ti, g.tile) <= i < Span(ti, g.tile) + g.tile && P.Touches(TileProgram(g, o), g.At(i, j))
    ensures o == ti
  {
    var i', j' := TouchedInTile(g, o, g.At(i, j));
    AtInjective(g, i, j, i', j');
    if o < ti { SpanApart(o, ti, g.tile); }
    if ti < o { SpanApart(ti, o, g.tile); }
  }

  // ----- the scaling pass -----

  /** The window scaled by beta; cells outside it are kept. */
  ghost predicate Scaled(g: Job, c0: Memory, c: Memory)
    requires g.FitsIn(|c0|)
  {
    && |c| == |c0|
    && (forall i: nat, j: nat :: i < g.m && j < g.n ==> g.At(i, j) < |c| && c[g.At(i, j)] == g.beta * c0[g.At(i, j)])
    && (forall x: nat :: x < |c| && !Inside(g, x, 0, g.m, 0, g.n) ==> c[x] == c0[x])
  }

  /** alpha * op(A) * op(B) + beta * C on the window, everything else as before. */
  ghost predicate IsProduct(g: Job, c0: Memory, c: Memory)
    requires g.FitsIn(|c0|)
  {
    && |c| == |c0|
    && (forall i: nat, j: nat :: i < g.m && j < g.n ==>
          g.At(i, j) < |c| && c[g.At(i, j)] == g.alpha * g.Dot(i, j, 0, g.k) + g.beta * c0[g.At(i, j)])
    && (forall x: nat :: x < |c| && !Inside(g, x, 0, g.m, 0, g.n) ==> c[x] == c0[x])
  }

  lemma ScaledThenMultiplied(g: Job, c0: Memory, c1: Memory, c2: Memory)
    requires g.FitsIn(|c0|) && Scaled(g, c0, c1) && Multiplied(g, c1, c2)
    ensures IsProduct(g, c0, c2)
  {
    hide Inside, g.Dot;
  }

  /** Under every interleaving the tiles turn the scaled window into the product. */
  lemma AnyScheduleMultiplies(g: Job, hardware: nat, c0: Memory, c1: Memory, c2: Memory)
    requires g.FitsIn(|c0|) && Scaled(g, c0, c1)
    requires forall ti :: 0 <= ti < |Tasks(g)| ==> P.Fits(Tasks(g)[ti], |c1|)
    requires P.MayLeave(Tasks(g), hardware, c1, c2)
    ensures IsProduct(g, c0, c2)
  {
    hide Scaled, Multiplied, IsProduct, P.MayLeave, P.RunAll, P.Disjoint;
    assert |c1| == |c0| by { ScaledLength(g, c0, c1); }
    TilesDisjoint(g);
    TilesMultiply(g, c1);
    P.CallIsSequential(Tasks(g), hardware, c1, c2);
    ScaledThenMultiplied(g, c0, c1, c2);
  }

  lemma ScaledLength(g: Job, c0: Memory, c1: Memory)
    requires g.FitsIn(|c0|) && Scaled(g, c0, c1)
    ensures |c1| == |c0|
  {}
}
