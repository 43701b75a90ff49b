/**
 The matrix product on packed weights: each output column unpacks one weight row and takes dot
 products with every input row. Under every column schedule it leaves what the dense product on
 the unpacked rows leaves. Unpacking a row is a parameter.
 */
module QuantGemm {
  import opened Layout
  import opened Gemm
  import opened RefGemm
  import opened KvModel
  import opened Cells
  import opened Sums
  import A = AttentionSpec
  import B = Bytes
  import F = Formats
  import P = ParallelFor
  import V = Averages

  /** Unpacks one row of the given width, or fails. */
  type Unpack = (nat, B.Data, nat) -> Option<Row>

  ghost predicate FillsRows(unpack: Unpack) { forall f, d, k :: unpack(f, d, k).Some? ==> |unpack(f, d, k).value| == k }

  /** Packed weights with their logical shape; non-positive logical sizes defer to the stored shape. */
  datatype Packed = Packed(format: nat, data: Option<B.Data>, rows: int, cols: int, dim0: int, dim1: int) {
    function Rows(): int { if rows > 0 then rows else dim0 }
    function Cols(): int { if cols > 0 then cols else dim1 }
  }

  datatype QuantError = NotTransposed | BadInput | BadWeights | BadOutput | NoBytes | ShapesDiffer

  /** A rank-2 tensor with data and no negative dimension. */
  predicate IsMatrix(v: View) { v.data.Some? && |v.shape| == 2 && v.shape[0] >= 0 && v.shape[1] >= 0 }

  /** Whether a dense tensor has data that covers a non-empty shape. */
  predicate Backed(v: View) { IsMatrix(v) && Span(v.shape[0], v.shape[1]) != 0 && Span(v.shape[0], v.shape[1]) <= |v.data.value| }

  function Check(a: View, b: Packed, c: View, transposeB: bool): Option<QuantError> {
    if !transposeB then Some(NotTransposed)
    else if !a.isF32 || |a.shape| != 2 || a.data.None? then Some(BadInput)
    else if !F.IsBlockQuant(b.format) || b.data.None? then Some(BadWeights)
    else if !c.isF32 || |c.shape| != 2 || c.data.None? then Some(BadOutput)
    else if !Backed(a) || !Backed(c) then Some(NoBytes)
    else if a.shape[1] != b.Cols() || c.shape[0] != a.shape[0] || c.shape[1] != b.Rows() then Some(ShapesDiffer)
    else None
  }

  /** A tensor of `m` rows of `n` numbers, all of them there. */
  predicate Holds(v: View, m: nat, n: nat) { v.isF32 && v.shape == [m, n] && v.data.Some? && Span(m, n) <= |v.data.value| }

  /** A packed call whose shapes fit together. */
  predicate QuantLegal(a: View, b: Packed, c: View, m: nat, k: nat, n: nat) {
    && m > 0 && k > 0 && n > 0 && Holds(a, m, k) && Holds(c, m, n) && 7 <= b.format <= 17 && b.data.Some?
    && n == (if b.rows > 0 then b.rows else b.dim0) && k == (if b.cols > 0 then b.cols else b.dim1)
  }

  /** The checks pass exactly when the shapes fit together and the second operand is flagged as transposed. */
  lemma QuantAccepts(a: View, b: Packed, c: View, transposeB: bool)
    ensures Check(a, b, c, transposeB).None? <==> transposeB && exists m: nat, k: nat, n: nat :: QuantLegal(a, b, c, m, k, n)
    ensures Check(a, b, c, transposeB).None? ==> QuantLegal(a, b, c, CallOf(a, b).m, CallOf(a, b).k, CallOf(a, b).n)
  {
    hide Span;
    if Check(a, b, c, transposeB).None? {
      CheckedCall(a, b, c, transposeB);
      assert QuantLegal(a, b, c, a.shape[0], a.shape[1], c.shape[1]);
    }
    if m: nat, k: nat, n: nat :| transposeB && QuantLegal(a, b, c, m, k, n) {
      NotEmpty(m, k);
      NotEmpty(m, n);
    }
  }

  lemma NotEmpty(m: nat, n: nat)
    requires m > 0 && n > 0
    ensures Span(m, n) > 0
  {}

  /** Cell (i, j): the dot product of row `i` with weight row `j`, unpacked from its own stretch of bytes; as it was if that does not unpack. */
  ghost predicate PackedCell(a: seq<real>, data: B.Data, format: nat, k: nat, n: nat, unpack: Unpack, c0: seq<real>, c: seq<real>, i: nat, j: nat) {
    var x, stride := Span(i, n) + j, F.PackedBytes(format, k);
    && x < |c0| && x < |c| && Span(j, stride) + stride <= |data|
    && match unpack(format, data[Span(j, stride)..Span(j, stride) + stride], k)
       case Some(w) => c[x] == SumTo(k, Products(a, Span(i, k), w, 0))
       case None => c[x] == c0[x]
  }

  ghost predicate PackedCells(a: seq<real>, data: B.Data, format: nat, m: nat, k: nat, n: nat, unpack: Unpack, c0: seq<real>, c: seq<real>) {
    && |c| == |c0|
    && (forall i: nat, j: nat :: i < m && j < n ==> PackedCell(a, data, format, k, n, unpack, c0, c, i, j))
    && (forall x: nat :: Span(m, n) <= x < |c| ==> c[x] == c0[x])
  }

  lemma CellOfQuant(g: Call, unpack: Unpack, c0: seq<real>, c: seq<real>, i: nat, j: nat)
    requires g.Valid() && FillsRows(unpack) && Span(g.m, g.n) <= |c0| && IsQuantProduct(g, unpack, c0, c) && i < g.m && j < g.n
    ensures PackedCell(g.a, g.packed, g.format, g.k, g.n, unpack, c0, c, i, j)
  {
    hide Span, SumTo, Products, A.DotAt;
    SpanApart(j, g.n, g.Stride());
    SpanApart(i, g.m, g.k);
    assert c[g.At(i, j)] == g.Left(unpack, c0[g.At(i, j)], i, j);
    match unpack(g.format, g.RowBytes(j), g.k)
    case Some(w) => V.DotIsSum(g.a, Span(i, g.k), w, 0, g.k);
    case None =>
  }

  lemma QuantIsCells(g: Call, unpack: Unpack, c0: seq<real>, c: seq<real>)
    requires g.Valid() && FillsRows(unpack) && Span(g.m, g.n) <= |c0| && IsQuantProduct(g, unpack, c0, c)
    ensures PackedCells(g.a, g.packed, g.format, g.m, g.k, g.n, unpack, c0, c)
  {
    hide Span, PackedCell, FillsRows, g.Left;
    forall i: nat, j: nat | i < g.m && j < g.n ensures PackedCell(g.a, g.packed, g.format, g.k, g.n, unpack, c0, c, i, j) {
      CellOfQuant(g, unpack, c0, c, i, j);
    }
  }

  /** What a packed call leaves, in terms of its operands. */
  ghost predicate QuantLeaves(a: View, b: Packed, c: View, unpack: Unpack, now: seq<real>) {
    exists m: nat, k: nat, n: nat ::
      QuantLegal(a, b, c, m, k, n) && PackedCells(a.data.value, b.data.value, b.format, m, k, n, unpack, c.data.value, now)
  }

  // ----- dot products -----

  lemma {:induction false} DotSplitAt(a: Row, ao: nat, b: Row, bo: nat, n: nat)
    requires ao + n + 4 <= |a| && bo + n + 4 <= |b|
    ensures A.DotAt(a, ao, b, bo, n + 4)
         == A.DotAt(a, ao, b, bo, n) + a[ao + n] * b[bo + n] + a[ao + n + 1] * b[bo + n + 1] + a[ao + n + 2] * b[bo + n + 2] + a[ao + n + 3] * b[bo + n + 3]
  {
    assert A.DotAt(a, ao, b, bo, n + 1) == A.DotAt(a, ao, b, bo, n) + a[ao + n] * b[bo + n];
    assert A.DotAt(a, ao, b, bo, n + 2) == A.DotAt(a, ao, b, bo, n + 1) + a[ao + n + 1] * b[bo + n + 1];
    assert A.DotAt(a, ao, b, bo, n + 3) == A.DotAt(a, ao, b, bo, n + 2) + a[ao + n + 2] * b[bo + n + 2];
  }

  /** The scalar dot product, and the one that keeps four running sums and adds the tail: the same number. */
  method Dot(a: Row, ao: nat, b: Row, n: nat, fourLanes: bool) returns (sum: real)
    requires ao + n <= |a| && n <= |b|
    ensures sum == A.DotAt(a, ao, b, 0, n)
  {
    var k := 0;
    sum := 0.0;
    if fourLanes {
      var s0, s1, s2, s3 := 0.0, 0.0, 0.0, 0.0;
      while k + 4 <= n
        invariant 0 <= k <= n && s0 + s1 + s2 + s3 == A.DotAt(a, ao, b, 0, k)
      {
        DotSplitAt(a, ao, b, 0, k);
        s0 := s0 + a[ao + k] * b[k];
        s1 := s1 + a[ao + k + 1] * b[k + 1];
        s2 := s2 + a[ao + k + 2] * b[k + 2];
        s3 := s3 + a[ao + k + 3] * b[k + 3];
        k := k + 4;
      }
      sum := s0 + s1 + s2 + s3;
    }
    while k < n
      invariant 0 <= k <= n && sum == A.DotAt(a, ao, b, 0, k)
    {
      sum := sum + a[ao + k] * b[k];
      k := k + 1;
    }
  }

  // ----- the job -----

  /** A checked call: `m` input rows of width `k`, `n` packed weight rows of `stride` bytes. */
  datatype Call = Call(m: nat, k: nat, n: nat, a: seq<real>, format: nat, packed: B.Data) {
    function Stride(): nat { F.PackedBytes(format, k) }

    predicate Valid() { m > 0 && n > 0 && k > 0 && Span(m, k) <= |a| && Span(n, Stride()) <= |packed| }

    /** The bytes of weight row `j`. */
    function RowBytes(j: nat): B.Data
      requires Valid() && j < n
    {
      SpanApart(j, n, Stride());
      packed[Span(j, Stride())..Span(j, Stride()) + Stride()]
    }

    /** Number (i, j) of the product with unpacked row `w`. */
    function Entry(i: nat, w: Row): real
      requires Valid() && i < m && |w| == k
    {
      SpanApart(i, m, k);
      A.DotAt(a, Span(i, k), w, 0, k)
    }

    /** What cell (i, j) holds afterwards: its product, or what it held if weight row `j` does not unpack. */
    function Left(unpack: Unpack, was: real, i: nat, j: nat): real
      requires Valid() && FillsRows(unpack) && i < m && j < n
    {
      match unpack(format, RowBytes(j), k)
      case Some(w) => Entry(i, w)
      case None => was
    }

    function At(i: nat, j: nat): nat { Span(i, n) + j }
  }

  lemma AtFits(c: Call, size: nat, i: nat, j: nat)
    requires c.Valid() && Span(c.m, c.n) <= size && i < c.m && j < c.n
    ensures c.At(i, j) < size
  {
    SpanApart(i, c.m, c.n);
  }

  lemma AtInjective(c: Call, i: nat, j: nat, i': nat, j': nat)
    requires c.Valid() && j < c.n && j' < c.n && c.At(i, j) == c.At(i', j')
    ensures i == i' && j == j'
  {
    if i < i' { SpanApart(i, i', c.n); }
    if i' < i { SpanApart(i', i, c.n); }
  }

  /** The writes of column `j`: the first `i` rows, or nothing if the weight row does not unpack. */
  function ColumnProgram(c: Call, unpack: Unpack, j: nat, i: nat): (p: Program)
    requires c.Valid() && FillsRows(unpack) && j < c.n && i <= c.m
  {
    var w := unpack(c.format, c.RowBytes(j), c.k);
    if i == 0 || w.None? then [] else ColumnProgram(c, unpack, j, i - 1) + [P.Put(c.At(i - 1, j), c.Entry(i - 1, w.value))]
  }

  ghost function Columns(c: Call, unpack: Unpack): (r: seq<Program>)
    requires c.Valid() && FillsRows(unpack)
    ensures |r| == c.n && forall j: nat :: j < c.n ==> r[j] == ColumnProgram(c, unpack, j, c.m)
  {
    seq(c.n, j requires 0 <= j < c.n && FillsRows(unpack) => ColumnProgram(c, unpack, j, c.m))
  }

  lemma {:induction false} ColumnLength(c: Call, unpack: Unpack, j: nat, i: nat)
    requires c.Valid() && FillsRows(unpack) && j < c.n && i <= c.m && unpack(c.format, c.RowBytes(j), c.k).Some?
    ensures |ColumnProgram(c, unpack, j, i)| == i
  {
    if i > 0 { ColumnLength(c, unpack, j, i - 1); }
  }

  lemma {:induction false} ColumnPuts(c: Call, unpack: Unpack, j: nat, i: nat, size: nat)
    requires c.Valid() && FillsRows(unpack) && j < c.n && i <= c.m && Span(c.m, c.n) <= size
    ensures var p := ColumnProgram(c, unpack, j, i);
      P.Fits(p, size) && forall t :: 0 <= t < |p| ==> t < i && p[t].at == c.At(t, j)
  {
    if i > 0 {
      ColumnPuts(c, unpack, j, i - 1, size);
      AtFits(c, size, i - 1, j);
      if unpack(c.format, c.RowBytes(j), c.k).Some? { ColumnLength(c, unpack, j, i - 1); }
    }
  }

  /** What a column leaves in each of its cells. */
  lemma {:induction false} ColumnLeaves(c: Call, unpack: Unpack, j: nat, i: nat, m: Memory, i': nat)
    requires c.Valid() && FillsRows(unpack) && j < c.n && i <= c.m && Span(c.m, c.n) <= |m| && i' < i
    requires unpack(c.format, c.RowBytes(j), c.k).Some?
    ensures |ColumnProgram(c, unpack, j, i)| == i && P.Fits(ColumnProgram(c, unpack, j, i), |m|) && c.At(i', j) < |m|
    ensures ApplyAll(ColumnProgram(c, unpack, j, i), m)[c.At(i', j)] == c.Entry(i', unpack(c.format, c.RowBytes(j), c.k).value)
  {
    ColumnPuts(c, unpack, j, i, |m|);
    ColumnPuts(c, unpack, j, i - 1, |m|);
    AtFits(c, |m|, i', j);
    AtFits(c, |m|, i - 1, j);
    var w := unpack(c.format, c.RowBytes(j), c.k).value;
    var front, u := ColumnProgram(c, unpack, j, i - 1), P.Put(c.At(i - 1, j), c.Entry(i - 1, w));
    assert ColumnProgram(c, unpack, j, i) == front + [u];
    OneUpdate(u, ApplyAll(front, m));
    ApplyJoin(front, [u], m);
    ColumnLength(c, unpack, j, i);
    if i' < i - 1 {
      ColumnLeaves(c, unpack, j, i - 1, m, i');
      if c.At(i', j) == c.At(i - 1, j) { AtInjective(c, i', j, i - 1, j); }
    }
  }

  lemma TouchedInColumn(c: Call, unpack: Unpack, j: nat, x: nat) returns (i: nat)
    requires c.Valid() && FillsRows(unpack) && j < c.n && P.Touches(ColumnProgram(c, unpack, j, c.m), x)
    ensures i < c.m && x == c.At(i, j)
  {
    ColumnPuts(c, unpack, j, c.m, Span(c.m, c.n));
    var p := ColumnProgram(c, unpack, j, c.m);
    var t :| 0 <= t < |p| && p[t].at == x;
    i := t;
  }

  lemma ColumnsDisjoint(c: Call, unpack: Unpack)
    requires c.Valid() && FillsRows(unpack)
    ensures P.Disjoint(Columns(c, unpack))
  {
    var tasks := Columns(c, unpack);
    forall s, t, x | 0 <= s < |tasks| && 0 <= t < |tasks| && P.Touches(tasks[s], x) && P.Touches(tasks[t], x) ensures s == t {
      var i := TouchedInColumn(c, unpack, s, x);
      var i' := TouchedInColumn(c, unpack, t, x);
      AtInjective(c, i, s, i', t);
    }
  }

  lemma ColumnsFit(c: Call, unpack: Unpack, size: nat)
    requires c.Valid() && FillsRows(unpack) && Span(c.m, c.n) <= size
    ensures forall j :: 0 <= j < c.n ==> P.Fits(Columns(c, unpack)[j], size)
  {
    forall j: nat | j < c.n ensures P.Fits(Columns(c, unpack)[j], size) { ColumnPuts(c, unpack, j, c.m, size); }
  }

  /** Unpacked columns hold their dot products; the columns of rows that failed to unpack, and everything else, are as before. */
  ghost predicate IsQuantProduct(c: Call, unpack: Unpack, m: Memory, m': Memory)
    requires c.Valid() && FillsRows(unpack) && Span(c.m, c.n) <= |m|
  {
    && |m'| == |m|
    && (forall i: nat, j: nat :: i < c.m && j < c.n ==> c.At(i, j) < |m| && m'[c.At(i, j)] == c.Left(unpack, m[c.At(i, j)], i, j))
    && (forall x: nat :: Span(c.m, c.n) <= x < |m| ==> m'[x] == m[x])
  }

  lemma CellOf(c: Call, unpack: Unpack, m: Memory, i: nat, j: nat)
    requires c.Valid() && FillsRows(unpack) && Span(c.m, c.n) <= |m| && i < c.m && j < c.n
    requires P.Disjoint(Columns(c, unpack)) && forall k :: 0 <= k < c.n ==> P.Fits(Columns(c, unpack)[k], |m|)
    ensures c.At(i, j) < |m|
    ensures P.RunAll(Columns(c, unpack), m, c.n)[c.At(i, j)] == c.Left(unpack, m[c.At(i, j)], i, j)
  {
    var tasks, x := Columns(c, unpack), c.At(i, j);
    AtFits(c, |m|, i, j);
    if unpack(c.format, c.RowBytes(j), c.k).Some? {
      ColumnLeaves(c, unpack, j, c.m, m, i);
      ColumnPuts(c, unpack, j, c.m, |m|);
      var p: Program := tasks[j];
      assert p[i].at == x;
      P.RunAllAt(tasks, m, c.n, x, j);
    } else {
      forall o: nat | o < c.n ensures !P.Touches(tasks[o], x) {
        if P.Touches(tasks[o], x) {
          var i' := TouchedInColumn(c, unpack, o, x);
          AtInjective(c, i, j, i', o);
        }
      }
      P.RunAllUntouched(tasks, m, c.n, x);
    }
  }

  lemma RestKept(c: Call, unpack: Unpack, m: Memory, x: nat)
    requires c.Valid() && FillsRows(unpack) && Span(c.m, c.n) <= x < |m|
    requires forall k :: 0 <= k < c.n ==> P.Fits(Columns(c, unpack)[k], |m|)
    ensures P.RunAll(Columns(c, unpack), m, c.n)[x] == m[x]
  {
    var tasks := Columns(c, unpack);
    forall o: nat | o < c.n ensures !P.Touches(tasks[o], x) {
      if P.Touches(tasks[o], x) {
        var i := TouchedInColumn(c, unpack, o, x);
        AtFits(c, Span(c.m, c.n), i, o);
      }
    }
    P.RunAllUntouched(tasks, m, c.n, x);
  }

  lemma ColumnsInOrder(c: Call, unpack: Unpack, m: Memory)
    requires c.Valid() && FillsRows(unpack) && Span(c.m, c.n) <= |m|
    ensures forall k :: 0 <= k < c.n ==> P.Fits(Columns(c, unpack)[k], |m|)
    ensures IsQuantProduct(c, unpack, m, P.RunAll(Columns(c, unpack), m, c.n))
  {
    hide P.RunAll, P.Disjoint, c.Entry, c.RowBytes, c.At, P.Fits;
    ColumnsFit(c, unpack, |m|);
    ColumnsDisjoint(c, unpack);
    forall i: nat, j: nat | i < c.m && j < c.n
      ensures c.At(i, j) < |m|
      ensures P.RunAll(Columns(c, unpack), m, c.n)[c.At(i, j)] == c.Left(unpack, m[c.At(i, j)], i, j)
    {
      CellOf(c, unpack, m, i, j);
    }
    forall x: nat | Span(c.m, c.n) <= x < |m| ensures P.RunAll(Columns(c, unpack), m, c.n)[x] == m[x] { RestKept(c, unpack, m, x); }
  }

  /** Every column schedule leaves the same product. */
  lemma AnyScheduleMultipliesPacked(c: Call, unpack: Unpack, hardware: nat, m: Memory, m': Memory)
    requires c.Valid() && FillsRows(unpack) && Span(c.m, c.n) <= |m|
    requires forall k :: 0 <= k < |Columns(c, unpack)| ==> P.Fits(Columns(c, unpack)[k], |m|)
    requires P.MayLeave(Columns(c, unpack), hardware, m, m')
    ensures IsQuantProduct(c, unpack, m, m')
  {
    ColumnsDisjoint(c, unpack);
    ColumnsInOrder(c, unpack, m);
    P.CallIsSequential(Columns(c, unpack), hardware, m, m');
  }

  // ----- the dense product on the unpacked rows -----

  predicate AllUnpack(c: Call, unpack: Unpack)
    requires c.Valid()
  {
    forall j: nat :: j < c.n ==> unpack(c.format, c.RowBytes(j), c.k).Some?
  }

  /** The unpacked weight rows, one after the other. */
  function Unpacked(c: Call, unpack: Unpack, j: nat): (r: seq<real>)
    requires c.Valid() && AllUnpack(c, unpack) && j <= c.n
  {
    if j == 0 then [] else Unpacked(c, unpack, j - 1) + unpack(c.format, c.RowBytes(j - 1), c.k).value
  }

  lemma {:induction false} UnpackedAt(c: Call, unpack: Unpack, j: nat, o: nat, d: nat)
    requires c.Valid() && FillsRows(unpack) && AllUnpack(c, unpack) && o < j <= c.n && d < c.k
    ensures |Unpacked(c, unpack, j)| == Span(j, c.k) && Span(o, c.k) + d < Span(j, c.k)
    ensures Unpacked(c, unpack, j)[Span(o, c.k) + d] == unpack(c.format, c.RowBytes(o), c.k).value[d]
  {
    UnpackedLength(c, unpack, j);
    UnpackedLength(c, unpack, j - 1);
    SpanApart(o, j, c.k);
    if o < j - 1 { UnpackedAt(c, unpack, j - 1, o, d); }
  }

  lemma {:induction false} UnpackedLength(c: Call, unpack: Unpack, j: nat)
    requires c.Valid() && FillsRows(unpack) && AllUnpack(c, unpack) && j <= c.n
    ensures |Unpacked(c, unpack, j)| == Span(j, c.k)
  {
    if j > 0 { UnpackedLength(c, unpack, j - 1); }
  }

  /** The dense call: op(B) is the transposed matrix of unpacked rows, alpha 1 and beta 0. */
  function Dense(c: Call, unpack: Unpack, tile: nat): Job
    requires c.Valid() && AllUnpack(c, unpack)
  {
    Job(c.m, c.n, c.k, Matrix(c.a, c.k, false), Matrix(Unpacked(c, unpack, c.n), c.k, true), c.n, 1.0, 0.0, tile)
  }

  lemma DenseFits(c: Call, unpack: Unpack, tile: nat, size: nat)
    requires c.Valid() && FillsRows(unpack) && AllUnpack(c, unpack) && tile > 0 && Span(c.m, c.n) <= size
    ensures Dense(c, unpack, tile).FitsIn(size)
  {
    UnpackedLength(c, unpack, c.n);
    SpanApart(c.m - 1, c.m, c.k);
    SpanApart(c.n - 1, c.n, c.k);
    SpanApart(c.m - 1, c.m, c.n);
  }

  /** What the dense call reads: input row `i` and unpacked row `j`. */
  lemma DenseLoads(c: Call, unpack: Unpack, tile: nat, i: nat, j: nat, k: nat)
    requires c.Valid() && FillsRows(unpack) && AllUnpack(c, unpack) && i < c.m && j < c.n && k < c.k && Dense(c, unpack, tile).Valid()
    ensures Span(i, c.k) + k < |c.a| && Load(Dense(c, unpack, tile).a, c.m, c.k, i, k) == c.a[Span(i, c.k) + k]
    ensures Load(Dense(c, unpack, tile).b, c.k, c.n, k, j) == unpack(c.format, c.RowBytes(j), c.k).value[k]
  {
    SpanApart(i, c.m, c.k);
    UnpackedAt(c, unpack, c.n, j, k);
  }

  lemma {:induction false} DenseDot(c: Call, unpack: Unpack, tile: nat, i: nat, j: nat, k: nat)
    requires c.Valid() && FillsRows(unpack) && AllUnpack(c, unpack) && tile > 0 && i < c.m && j < c.n && k <= c.k
    requires Dense(c, unpack, tile).Valid()
    ensures Span(i, c.k) + k <= |c.a|
    ensures Dense(c, unpack, tile).Dot(i, j, 0, k) == A.DotAt(c.a, Span(i, c.k), unpack(c.format, c.RowBytes(j), c.k).value, 0, k)
  {
    hide Load, Unpacked, AllUnpack, c.RowBytes;
    SpanApart(i, c.m, c.k);
    if k > 0 {
      DenseDot(c, unpack, tile, i, j, k - 1);
      DenseLoads(c, unpack, tile, i, j, k - 1);
    }
  }

  /** When every weight row unpacks, the packed product is the dense transposed product on the unpacked weights. */
  lemma QuantIsDense(c: Call, unpack: Unpack, tile: nat, m: Memory, m': Memory)
    requires c.Valid() && FillsRows(unpack) && AllUnpack(c, unpack) && tile > 0 && Span(c.m, c.n) <= |m|
    requires IsQuantProduct(c, unpack, m, m')
    ensures Dense(c, unpack, tile).FitsIn(|m|) && IsProduct(Dense(c, unpack, tile), m, m')
  {
    DenseFits(c, unpack, tile, |m|);
    var g := Dense(c, unpack, tile);
    hide IsQuantProduct, Dense, g.Dot, FillsRows, c.Entry, c.RowBytes;
    forall i: nat, j: nat | i < g.m && j < g.n
      ensures g.At(i, j) < |m| && m'[g.At(i, j)] == g.alpha * g.Dot(i, j, 0, g.k) + g.beta * m[g.At(i, j)]
    {
      DenseCell(c, unpack, tile, m, m', i, j);
    }
    forall x: nat | x < |m| && !Inside(g, x, 0, g.m, 0, g.n) ensures m'[x] == m[x] { DenseRest(c, unpack, tile, m, m', x); }
  }

  lemma DenseCell(c: Call, unpack: Unpack, tile: nat, m: Memory, m': Memory, i: nat, j: nat)
    requires c.Valid() && FillsRows(unpack) && AllUnpack(c, unpack) && tile > 0 && Span(c.m, c.n) <= |m| && i < c.m && j < c.n
    requires IsQuantProduct(c, unpack, m, m') && Dense(c, unpack, tile).Valid()
    ensures var g := Dense(c, unpack, tile);
      g.At(i, j) < |m| == |m'| && m'[g.At(i, j)] == g.alpha * g.Dot(i, j, 0, g.k) + g.beta * m[g.At(i, j)]
  {
    DenseDot(c, unpack, tile, i, j, c.k);
    assert Dense(c, unpack, tile).At(i, j) == c.At(i, j);
    assert m'[c.At(i, j)] == c.Left(unpack, m[c.At(i, j)], i, j);
  }

  lemma DenseRest(c: Call, unpack: Unpack, tile: nat, m: Memory, m': Memory, x: nat)
    requires c.Valid() && FillsRows(unpack) && AllUnpack(c, unpack) && tile > 0 && Span(c.m, c.n) <= |m| && x < |m|
    requires IsQuantProduct(c, unpack, m, m') && !Inside(Dense(c, unpack, tile), x, 0, c.m, 0, c.n)
    ensures x < |m'| && m'[x] == m[x]
  {
    if x < Span(c.m, c.n) { CellInside(c, unpack, tile, x); }
  }

  lemma CellInside(c: Call, unpack: Unpack, tile: nat, x: nat)
    requires c.Valid() && AllUnpack(c, unpack) && x < Span(c.m, c.n)
    ensures Inside(Dense(c, unpack, tile), x, 0, c.m, 0, c.n)
  {
    var i, j := CellAt(c, x, c.m);
    assert x == Dense(c, unpack, tile).At(i, j);
  }

  /** Every cell below m * n lies in some row and column. */
  lemma {:induction false} CellAt(c: Call, x: nat, rows: nat) returns (i: nat, j: nat)
    requires c.Valid() && x < Span(rows, c.n)
    ensures i < rows && j < c.n && x == c.At(i, j)
  {
    if x >= Span(rows - 1, c.n) { return rows - 1, x - Span(rows - 1, c.n); }
    i, j := CellAt(c, x, rows - 1);
  }

  // ----- the kernels -----

  function CallOf(a: View, b: Packed): Call
    requires IsMatrix(a) && b.data.Some? && b.Rows() >= 0
  {
    Call(a.shape[0], a.shape[1], b.Rows(), a.data.value, b.format, b.data.value)
  }

  lemma CheckedCall(a: View, b: Packed, c: View, transposeB: bool)
    requires Check(a, b, c, transposeB).None?
    ensures IsMatrix(a) && b.data.Some? && b.Rows() > 0 && CallOf(a, b).m > 0 && CallOf(a, b).k > 0
    ensures Span(CallOf(a, b).m, CallOf(a, b).k) <= |a.data.value| && c.data.Some? && Span(CallOf(a, b).m, CallOf(a, b).n) <= |c.data.value|
  {
    SpanIsProduct(a.shape[0], a.shape[1]);
    SpanIsProduct(c.shape[0], c.shape[1]);
  }

  /** One task: unpack weight row `j` and write its column; a row that does not unpack writes nothing. */
  method OneColumn(c: Call, unpack: Unpack, j: nat, fourLanes: bool, out: array<real>)
    requires c.Valid() && FillsRows(unpack) && j < c.n && Span(c.m, c.n) <= out.Length
    modifies out
    ensures P.Fits(ColumnProgram(c, unpack, j, c.m), out.Length)
    ensures out[..] == ApplyAll(ColumnProgram(c, unpack, j, c.m), old(out[..]))
  {
    ghost var m := out[..];
    ColumnPuts(c, unpack, j, c.m, out.Length);
    var row := unpack(c.format, c.RowBytes(j), c.k);
    if row.None? { return; }
    assert ColumnProgram(c, unpack, j, 0) == [];
    for i := 0 to c.m
      invariant P.Fits(ColumnProgram(c, unpack, j, i), out.Length)
      invariant out[..] == ApplyAll(ColumnProgram(c, unpack, j, i), m)
    {
      SpanApart(i, c.m, c.k);
      var sum := Dot(c.a, Span(i, c.k), row.value, c.k, fourLanes);
      ColumnGrows(c, unpack, j, i, m, row.value);
      ghost var was := out[..];
      out[c.At(i, j)] := sum;
      assert out[..] == was[c.At(i, j) := sum];
    }
  }

  lemma ColumnGrows(c: Call, unpack: Unpack, j: nat, i: nat, m: Memory, w: Row)
    requires c.Valid() && FillsRows(unpack) && j < c.n && i < c.m && Span(c.m, c.n) <= |m|
    requires unpack(c.format, c.RowBytes(j), c.k) == Some(w) && P.Fits(ColumnProgram(c, unpack, j, i), |m|)
    ensures c.At(i, j) < |m| && P.Fits(ColumnProgram(c, unpack, j, i + 1), |m|)
    ensures ApplyAll(ColumnProgram(c, unpack, j, i + 1), m) == ApplyAll(ColumnProgram(c, unpack, j, i), m)[c.At(i, j) := c.Entry(i, w)]
  {
    AtFits(c, |m|, i, j);
    var front, u := ColumnProgram(c, unpack, j, i), P.Put(c.At(i, j), c.Entry(i, w));
    assert ColumnProgram(c, unpack, j, i + 1) == front + [u];
    OneUpdate(u, ApplyAll(front, m));
    ApplyJoin(front, [u], m);
  }

  /** Checks, then every column in turn, as the work-sharing loop does on one thread. */
  method QuantGemmF32(a: View, b: Packed, cIsF32: bool, cShape: seq<int>, c: array<real>, transposeB: bool, fourLanes: bool, unpack: Unpack)
    returns (error: Option<QuantError>)
    requires FillsRows(unpack)
    requires Check(a, b, View(cIsF32, cShape, Some(c[..])), transposeB).None? ==> CallOf(a, b).Valid()
    modifies c
    ensures error == Check(a, b, View(cIsF32, cShape, Some(old(c[..]))), transposeB)
    ensures error.Some? ==> c[..] == old(c[..])
    ensures error.None? ==> CallOf(a, b).Valid() && Span(CallOf(a, b).m, CallOf(a, b).n) <= c.Length && IsQuantProduct(CallOf(a, b), unpack, old(c[..]), c[..])
    ensures error.None? ==> transposeB && QuantLeaves(a, b, View(cIsF32, cShape, Some(old(c[..]))), unpack, c[..])
  {
    hide IsQuantProduct, PackedCells, QuantLegal, Span;
    var out := View(cIsF32, cShape, Some(c[..]));
    error := Check(a, b, out, transposeB);
    if error.Some? { return; }
    CheckedCall(a, b, out, transposeB);
    var g := CallOf(a, b);
    ColumnsPass(g, unpack, fourLanes, c);
    QuantIsCells(g, unpack, out.data.value, c[..]);
    QuantAccepts(a, b, out, transposeB);
  }

  /** The first `n` columns have been done, in order. */
  ghost predicate ColumnsTo(g: Call, unpack: Unpack, m: Memory, now: Memory, n: nat)
    requires g.Valid() && FillsRows(unpack) && Span(g.m, g.n) <= |m| && n <= g.n
  {
    ColumnsFit(g, unpack, |m|);
    now == P.RunAll(Columns(g, unpack), m, n)
  }

  lemma ColumnsStep(g: Call, unpack: Unpack, m: Memory, was: Memory, n: nat, now: Memory)
    requires g.Valid() && FillsRows(unpack) && Span(g.m, g.n) <= |m| && n < g.n && ColumnsTo(g, unpack, m, was, n)
    requires P.Fits(ColumnProgram(g, unpack, n, g.m), |was|) && now == ApplyAll(ColumnProgram(g, unpack, n, g.m), was)
    ensures ColumnsTo(g, unpack, m, now, n + 1)
  {
    ColumnsFit(g, unpack, |m|);
    assert Columns(g, unpack)[n] == ColumnProgram(g, unpack, n, g.m);
  }

  method ColumnsPass(g: Call, unpack: Unpack, fourLanes: bool, c: array<real>)
    requires g.Valid() && FillsRows(unpack) && Span(g.m, g.n) <= c.Length
    modifies c
    ensures IsQuantProduct(g, unpack, old(c[..]), c[..])
  {
    ghost var m := c[..];
    ColumnsInOrder(g, unpack, m);
    ColumnsLoop(g, unpack, fourLanes, c);
  }

  method ColumnsLoop(g: Call, unpack: Unpack, fourLanes: bool, c: array<real>)
    requires g.Valid() && FillsRows(unpack) && Span(g.m, g.n) <= c.Length
    modifies c
    ensures ColumnsTo(g, unpack, old(c[..]), c[..], g.n)
  {
    ghost var m := c[..];
    assert ColumnsTo(g, unpack, m, m, 0);
    hide ColumnsTo, ColumnProgram;
    for j := 0 to g.n
      invariant ColumnsTo(g, unpack, m, c[..], j)
    {
      ghost var was := c[..];
      OneColumn(g, unpack, j, fourLanes, c);
      ColumnsStep(g, unpack, m, was, j, c[..]);
    }
  }

  // ----- the dense kernel and the dispatcher's choice -----

  datatype MatmulError = BadOperand | NoOperandBytes | InnerDims | OutShape | InGemm(e: GemmError) | InQuant(q: QuantError)

  function Dim(v: View, i: nat, swap: bool): (d: int)
    requires |v.shape| == 2 && i < 2
    ensures IsMatrix(v) ==> d >= 0
  {
    v.shape[if swap then 1 - i else i]
  }

  function MatmulCheck(a: View, b: View, c: View, ta: bool, tb: bool): Option<MatmulError> {
    if !a.isF32 || |a.shape| != 2 || a.data.None? then Some(BadOperand)
    else if !Backed(a) then Some(NoOperandBytes)
    else if !b.isF32 || |b.shape| != 2 || b.data.None? then Some(BadOperand)
    else if !Backed(b) then Some(NoOperandBytes)
    else if !c.isF32 || |c.shape| != 2 || c.data.None? then Some(BadOperand)
    else if !Backed(c) then Some(NoOperandBytes)
    else if Dim(a, 1, ta) != Dim(b, 0, tb) then Some(InnerDims)
    else if c.shape[0] != Dim(a, 0, ta) || c.shape[1] != Dim(b, 1, tb) then Some(OutShape)
    else None
  }

  /** The dense job a checked call describes. */
  function MatmulJob(a: View, b: View, ta: bool, tb: bool, tile: nat): Job
    requires IsMatrix(a) && IsMatrix(b)
  {
    Job(Dim(a, 0, ta), Dim(b, 1, tb), Dim(a, 1, ta), Matrix(a.data.value, a.shape[1], ta), Matrix(b.data.value, b.shape[1], tb),
        Dim(b, 1, tb), 1.0, 0.0, tile)
  }

  /** A dense call whose shapes fit together: op(A) is m by k, op(B) is k by n. */
  predicate MatmulLegal(a: View, b: View, c: View, ta: bool, tb: bool, m: nat, k: nat, n: nat) {
    && m > 0 && k > 0 && n > 0 && Holds(c, m, n)
    && (if ta then Holds(a, k, m) else Holds(a, m, k)) && if tb then Holds(b, n, k) else Holds(b, k, n)
  }

  /** The checks pass exactly when the shapes fit together. */
  lemma MatmulAccepts(a: View, b: View, c: View, ta: bool, tb: bool)
    ensures MatmulCheck(a, b, c, ta, tb).None? <==> exists m: nat, k: nat, n: nat :: MatmulLegal(a, b, c, ta, tb, m, k, n)
  {
    if MatmulCheck(a, b, c, ta, tb).None? { MatmulShapes(a, b, c, ta, tb); }
    if m: nat, k: nat, n: nat :| MatmulLegal(a, b, c, ta, tb, m, k, n) { MatmulPasses(a, b, c, ta, tb, m, k, n); }
  }

  lemma MatmulShapes(a: View, b: View, c: View, ta: bool, tb: bool)
    requires MatmulCheck(a, b, c, ta, tb).None?
    ensures MatmulLegal(a, b, c, ta, tb, Dim(a, 0, ta), Dim(a, 1, ta), Dim(b, 1, tb))
  {
    BackedRows(a);
    BackedRows(b);
    BackedRows(c);
    hide Span;
  }

  lemma MatmulPasses(a: View, b: View, c: View, ta: bool, tb: bool, m: nat, k: nat, n: nat)
    requires MatmulLegal(a, b, c, ta, tb, m, k, n)
    ensures MatmulCheck(a, b, c, ta, tb).None?
  {
    hide Span;
    NotEmpty(m, n);
    if ta { NotEmpty(k, m); } else { NotEmpty(m, k); }
    if tb { NotEmpty(n, k); } else { NotEmpty(k, n); }
  }

  /** What a dense call leaves, in terms of its operands. */
  ghost predicate MatmulLeaves(a: View, b: View, c: View, ta: bool, tb: bool, now: seq<real>) {
    exists m: nat, k: nat, n: nat ::
      && MatmulLegal(a, b, c, ta, tb, m, k, n)
      && CellsAre(m, n, k, Pair(a.data.value, if ta then m else k, ta, b.data.value, if tb then k else n, tb), n, 1.0, 0.0, c.data.value, now)
  }

  lemma MatmulFits(a: View, b: View, c: View, ta: bool, tb: bool, tile: nat)
    requires MatmulCheck(a, b, c, ta, tb).None? && tile > 0
    ensures IsMatrix(a) && IsMatrix(b) && c.data.Some?
    ensures MatmulJob(a, b, ta, tb, tile).FitsIn(|c.data.value|)
  {
    BackedRows(a);
    BackedRows(b);
    BackedRows(c);
  }

  lemma BackedRows(v: View)
    requires Backed(v)
    ensures v.shape[0] > 0 && v.shape[1] > 0 && Span(v.shape[0] - 1, v.shape[1]) + v.shape[1] <= |v.data.value|
  {
    SpanIsProduct(v.shape[0], v.shape[1]);
  }

  /** The dense product: shape checks, then the reference product with alpha 1 and beta 0. */
  method MatmulF32(a: View, b: View, cIsF32: bool, cShape: seq<int>, c: array<real>, ta: bool, tb: bool, tile: nat) returns (error: Option<MatmulError>)
    requires tile > 0
    modifies c
    ensures error == MatmulCheck(a, b, View(cIsF32, cShape, Some(old(c[..]))), ta, tb)
    ensures error.Some? ==> c[..] == old(c[..])
    ensures error.None? ==> MatmulJob(a, b, ta, tb, tile).FitsIn(c.Length) && IsProduct(MatmulJob(a, b, ta, tb, tile), old(c[..]), c[..])
    ensures error.None? ==> MatmulLeaves(a, b, View(cIsF32, cShape, Some(old(c[..]))), ta, tb, c[..])
  {
    hide CellsAre, IsProduct, Span;
    var out := View(cIsF32, cShape, Some(c[..]));
    error := MatmulCheck(a, b, out, ta, tb);
    if error.Some? { return; }
    MatmulFits(a, b, out, ta, tb, tile);
    var g := MatmulJob(a, b, ta, tb, tile);
    var failed := MultiplyF32(g.m, g.n, g.k, a.data, a.shape[1], ta, b.data, b.shape[1], tb, c, g.n, 1.0, 0.0, tile);
    MatmulShapes(a, b, out, ta, tb);
  }

  /** The second operand as the dispatcher sees it: one tensor, read densely or as packed rows by its format. */
  datatype Weights = Weights(dense: View, packed: Packed)

  /** Packed formats with a transposed second operand take the packed kernel; a transposed first operand is then ignored. */
  predicate TakesPacked(w: Weights, tb: bool) { F.IsBlockQuant(w.packed.format) && tb }

  ghost predicate PackedDone(a: View, b: Packed, unpack: Unpack, m: Memory, m': Memory) {
    && FillsRows(unpack) && IsMatrix(a) && b.data.Some? && b.Rows() >= 0 && CallOf(a, b).Valid()
    && Span(CallOf(a, b).m, CallOf(a, b).n) <= |m| && IsQuantProduct(CallOf(a, b), unpack, m, m')
  }

  ghost predicate DenseDone(a: View, b: View, ta: bool, tb: bool, tile: nat, m: Memory, m': Memory) {
    && IsMatrix(a) && IsMatrix(b)
    && MatmulJob(a, b, ta, tb, tile).FitsIn(|m|) && IsProduct(MatmulJob(a, b, ta, tb, tile), m, m')
  }

  /** A successful dispatch: the checks of the kernel that is taken pass, and memory goes from `m` to what it leaves. */
  ghost predicate Dispatched(a: View, w: Weights, c: View, ta: bool, tb: bool, unpack: Unpack, tile: nat, m': Memory) {
    && c.data.Some?
    && if TakesPacked(w, tb) then Check(a, w.packed, c, tb).None? && PackedDone(a, w.packed, unpack, c.data.value, m')
       else MatmulCheck(a, w.dense, c, ta, tb).None? && DenseDone(a, w.dense, ta, tb, tile, c.data.value, m')
  }

  method DispatchMatMul(a: View, w: Weights, cIsF32: bool, cShape: seq<int>, c: array<real>, ta: bool, tb: bool, fourLanes: bool, unpack: Unpack, tile: nat)
    returns (error: Option<MatmulError>)
    requires FillsRows(unpack) && tile > 0
    requires Check(a, w.packed, View(cIsF32, cShape, Some(c[..])), tb).None? ==> CallOf(a, w.packed).Valid()
    modifies c
    ensures error.Some? ==> c[..] == old(c[..])
    ensures error.None? <==> if TakesPacked(w, tb) then Check(a, w.packed, View(cIsF32, cShape, Some(old(c[..]))), tb).None?
                             else MatmulCheck(a, w.dense, View(cIsF32, cShape, Some(old(c[..]))), ta, tb).None?
    ensures error.None? ==> Dispatched(a, w, View(cIsF32, cShape, Some(old(c[..]))), ta, tb, unpack, tile, c[..])
    ensures error.None? ==> if 7 <= w.packed.format <= 17 && tb then QuantLeaves(a, w.packed, View(cIsF32, cShape, Some(old(c[..]))), unpack, c[..])
                            else MatmulLeaves(a, w.dense, View(cIsF32, cShape, Some(old(c[..]))), ta, tb, c[..])
  {
    hide QuantLeaves, MatmulLeaves, IsProduct, IsQuantProduct, Span;
    if F.IsBlockQuant(w.packed.format) && tb {
      var failed := QuantGemmF32(a, w.packed, cIsF32, cShape, c, true, fourLanes, unpack);
      return if failed.Some? then Some(InQuant(failed.value)) else None;
    }
    error := MatmulF32(a, w.dense, cIsF32, cShape, c, ta, tb, tile);
  }

  // ----- when the dispatcher gives op(A) * op(B) -----

  /** The packed weights as the dense tensor they stand for. */
  function UnpackedView(c: Call, unpack: Unpack): View
    requires c.Valid() && AllUnpack(c, unpack)
  {
    View(true, [c.n, c.k], Some(Unpacked(c, unpack, c.n)))
  }

  /** The output is op(A) * op(B), where B is the second operand's dense meaning (if all of it unpacks). */
  ghost predicate IsOpProduct(a: View, w: Weights, ta: bool, tb: bool, unpack: Unpack, tile: nat, m: Memory, m': Memory) {
    if TakesPacked(w, tb) then
      IsMatrix(a) && w.packed.data.Some? && w.packed.Rows() >= 0 && CallOf(a, w.packed).Valid()
      && (AllUnpack(CallOf(a, w.packed), unpack) ==> DenseDone(a, UnpackedView(CallOf(a, w.packed), unpack), ta, tb, tile, m, m'))
    else DenseDone(a, w.dense, ta, tb, tile, m, m')
  }

  /** Every successful dispatch with these flags on weights of this format leaves op(A) * op(B). */
  ghost predicate GivesOpProduct(format: nat, ta: bool, tb: bool) {
    forall a, w: Weights, c: View, unpack, tile: nat, m' ::
      w.packed.format == format && tile > 0 && Dispatched(a, w, c, ta, tb, unpack, tile, m') ==> IsOpProduct(a, w, ta, tb, unpack, tile, c.data.value, m')
  }

  lemma PlainFirstOperand(a: View, w: Weights, c: View, ta: bool, tb: bool, unpack: Unpack, tile: nat, m': Memory)
    requires tile > 0 && Dispatched(a, w, c, ta, tb, unpack, tile, m') && (!ta || !TakesPacked(w, tb))
    ensures IsOpProduct(a, w, ta, tb, unpack, tile, c.data.value, m')
  {
    if TakesPacked(w, tb) {
      var g := CallOf(a, w.packed);
      if AllUnpack(g, unpack) {
        QuantIsDense(g, unpack, tile, c.data.value, m');
        hide IsProduct, IsQuantProduct;
        assert Dense(g, unpack, tile) == MatmulJob(a, UnpackedView(g, unpack), false, true, tile);
      }
    }
  }

  // The failing call: a square A whose only entry lies below the diagonal, and one weight row that unpacks to the first unit vector.

  function Spot(size: nat, at: nat): (r: seq<real>)
    ensures |r| == size && forall i :: 0 <= i < size ==> r[i] == if i == at then 1.0 else 0.0
  {
    seq(size, i => if i == at then 1.0 else 0.0)
  }

  function ToUnit(): (u: Unpack)
    ensures FillsRows(u)
  {
    (f: nat, d: B.Data, k: nat) => Some(Spot(k, 0))
  }

  /** The call on weights of `format`: one block a row, so A is a block by a block. */
  function LowA(format: nat): View {
    var k := F.Block(format);
    View(true, [k, k], Some(Spot(Span(k, k), k)))
  }

  function UnitWeights(format: nat): Weights {
    var k := F.Block(format);
    Weights(View(true, [1, k], None), Packed(format, Some(seq(F.PackedBytes(format, k), _ => 0)), 1, k, 1, k))
  }

  function ZeroOut(format: nat): View {
    View(true, [F.Block(format), 1], Some(seq(Span(F.Block(format), 1), _ => 0.0)))
  }

  lemma SampleCall(format: nat)
    requires F.IsBlockQuant(format)
    ensures Check(LowA(format), UnitWeights(format).packed, ZeroOut(format), true).None?
    ensures var g := CallOf(LowA(format), UnitWeights(format).packed);
      g.Valid() && AllUnpack(g, ToUnit()) && g.m == g.k == F.Block(format) && g.k >= 32 && g.n == 1
  {
    F.BytesOf(format, F.Block(format));
    SpanIsProduct(F.Block(format), F.Block(format));
    SpanIsProduct(F.Block(format), 1);
    SpanIsProduct(1, F.PackedBytes(format, F.Block(format)));
  }

  lemma {:induction false} UnitDot(a: Row, ao: nat, w: Row, n: nat)
    requires 0 < n <= |w| && ao + n <= |a| && w == Spot(|w|, 0)
    ensures A.DotAt(a, ao, w, 0, n) == a[ao]
  {
    if n > 1 { UnitDot(a, ao, w, n - 1); }
  }

  /** With the first operand flagged as transposed, entry (1, 0) of the dense product reads the diagonal's other side. */
  lemma {:induction false} TransposedDot(format: nat, tile: nat, n: nat)
    requires F.IsBlockQuant(format) && tile > 0 && 0 < n <= F.Block(format)
    requires var g := CallOf(LowA(format), UnitWeights(format).packed);
      g.Valid() && AllUnpack(g, ToUnit()) && MatmulJob(LowA(format), UnpackedView(g, ToUnit()), true, true, tile).Valid()
    ensures F.Block(format) >= 32
    ensures MatmulJob(LowA(format), UnpackedView(CallOf(LowA(format), UnitWeights(format).packed), ToUnit()), true, true, tile).Dot(1, 0, 0, n) == 0.0
  {
    SampleCall(format);
    var g := CallOf(LowA(format), UnitWeights(format).packed);
    var job := MatmulJob(LowA(format), UnpackedView(g, ToUnit()), true, true, tile);
    UnpackedAt(g, ToUnit(), 1, 0, n - 1);
    SpanIsProduct(1, g.k);
    SpanApart(n - 1, g.k, g.k);
    if n > 1 {
      TransposedDot(format, tile, n - 1);
    }
    assert Load(job.b, job.k, job.n, n - 1, 0) == if n == 1 then 1.0 else 0.0;
    assert n == 1 ==> Load(job.a, job.m, job.k, 1, 0) == 0.0;
  }

  /** The dense product for the transposed A holds 0 in cell 1. */
  lemma TransposedEntry(format: nat, tile: nat, m: Memory, m': Memory)
    requires F.IsBlockQuant(format) && tile > 0 && |m| > 1
    requires var g := CallOf(LowA(format), UnitWeights(format).packed);
      g.Valid() && AllUnpack(g, ToUnit()) && DenseDone(LowA(format), UnpackedView(g, ToUnit()), true, true, tile, m, m')
    ensures |m'| > 1 && m'[1] == 0.0
  {
    SampleCall(format);
    var g := CallOf(LowA(format), UnitWeights(format).packed);
    var job := MatmulJob(LowA(format), UnpackedView(g, ToUnit()), true, true, tile);
    TransposedDot(format, tile, g.k);
    hide IsProduct, job.Dot, UnpackedView, AllUnpack, LowA;
    SecondCell(job, m, m');
  }

  lemma SecondCell(job: Job, m: Memory, m': Memory)
    requires job.FitsIn(|m|) && IsProduct(job, m, m') && job.m > 1 && job.n == job.ldc == 1
    ensures |m'| == |m| > 1 && m'[1] == job.alpha * job.Dot(1, 0, 0, job.k) + job.beta * m[1]
  {
    hide job.Dot;
    assert job.At(1, 0) == 1;
  }

  /** The call passes the checks, and what the dispatcher leaves is not the product for the transposed A. */
  lemma TransposedDiffers(format: nat, tile: nat, m': Memory)
    requires F.IsBlockQuant(format) && tile > 0
    requires Dispatched(LowA(format), UnitWeights(format), ZeroOut(format), true, true, ToUnit(), tile, m')
    ensures AllUnpack(CallOf(LowA(format), UnitWeights(format).packed), ToUnit())
    ensures |m'| > 1 && m'[1] == 1.0
    ensures !IsOpProduct(LowA(format), UnitWeights(format), true, true, ToUnit(), tile, ZeroOut(format).data.value, m')
  {
    SampleCall(format);
    var a, w, m := LowA(format), UnitWeights(format), ZeroOut(format).data.value;
    var g := CallOf(a, w.packed);
    assert g.At(1, 0) == 1 && m'[1] == g.Left(ToUnit(), m[1], 1, 0);
    UnitDot(g.a, Span(1, g.k), Spot(g.k, 0), g.k);
    var b := UnpackedView(g, ToUnit());
    if DenseDone(a, b, true, true, tile, m, m') {
      TransposedEntry(format, tile, m, m');
    }
  }

  /** The failing call can be made: its result exists. */
  lemma SampleRuns(format: nat, tile: nat) returns (m': Memory)
    requires F.IsBlockQuant(format) && tile > 0
    ensures Dispatched(LowA(format), UnitWeights(format), ZeroOut(format), true, true, ToUnit(), tile, m')
  {
    SampleCall(format);
    var g, m := CallOf(LowA(format), UnitWeights(format).packed), ZeroOut(format).data.value;
    ColumnsInOrder(g, ToUnit(), m);
    m' := P.RunAll(Columns(g, ToUnit()), m, g.n);
  }

  /** The dispatcher computes op(A) * op(B) on all data exactly when A is not flagged as transposed or the dense kernel is taken. */
  lemma OpProductIff(format: nat, ta: bool, tb: bool)
    ensures GivesOpProduct(format, ta, tb) <==> !ta || !tb || format < 7 || format > 17
  {
    hide IsOpProduct;
    if ta && F.IsBlockQuant(format) && tb {
      var m' := SampleRuns(format, 1);
      TransposedDiffers(format, 1, m');
    } else {
      forall a, w: Weights, c: View, unpack, tile: nat, m' | w.packed.format == format && tile > 0 && Dispatched(a, w, c, ta, tb, unpack, tile, m')
        ensures IsOpProduct(a, w, ta, tb, unpack, tile, c.data.value, m')
      {
        PlainFirstOperand(a, w, c, ta, tb, unpack, tile, m');
      }
    }
  }
}
