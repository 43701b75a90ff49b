/**
 What the two tensor loads return, in block arithmetic: how many bytes each tensor type takes for a
 number of numbers, where a tensor or a slice of one starts, and which requests are refused.
 */
module GgufBlocks {
  import opened Layout
  import opened Bytes
  import opened Gguf
  import opened GgufFile
  import opened GgufLoad
  import F = Formats

  // ----- names -----

  predicate MarkAt(name: string, j: nat) { j + 3 <= |name| && name[j..j + 3] == "#e=" }

  /** A name asks for the whole tensor of that name (e is -1), or for expert `e` of the tensor named by the part before its first mark. */
  ghost predicate AsksFor(name: string, atoi: Atoi, key: string, e: int) {
    || (key == name && e == -1 && forall j: nat :: !MarkAt(name, j))
    || (exists at: nat :: MarkAt(name, at) && (forall j: nat :: j < at ==> !MarkAt(name, j)) && key == name[..at] && e == atoi(name[at + 3..]))
  }

  /** The first tensor of that name. */
  predicate Called(infos: seq<Info>, key: string, i: nat) {
    i < |infos| && infos[i].name == key && forall j :: 0 <= j < i ==> infos[j].name != key
  }

  // ----- sizes -----

  function Product(dims: seq<nat>): nat { if dims == [] then 1 else Product(dims[..|dims| - 1]) * dims[|dims| - 1] }

  /** Numbers and bytes per block of the thirteen supported types; the plain ones have blocks of one number. */
  predicate Packs(kind: nat, block: nat, bytes: nat) {
    match kind
    case 0 => block == 1 && bytes == 4
    case 1 => block == 1 && bytes == 2
    case 2 => block == 32 && bytes == 18
    case 3 => block == 32 && bytes == 20
    case 6 => block == 32 && bytes == 22
    case 7 => block == 32 && bytes == 24
    case 8 => block == 32 && bytes == 34
    case 10 => block == 256 && bytes == 84
    case 11 => block == 256 && bytes == 110
    case 12 => block == 256 && bytes == 144
    case 13 => block == 256 && bytes == 176
    case 14 => block == 256 && bytes == 210
    case 20 => block == 32 && bytes == 18
    case _ => false
  }

  /** The bytes of the whole blocks among `n` numbers. */
  function InBlocks(n: nat, block: nat, bytes: nat): nat
    requires block > 0
  {
    n / block * bytes
  }

  predicate IsSupported(kind: nat) { kind in [0, 1, 2, 3, 6, 7, 8, 10, 11, 12, 13, 14, 20] }

  // ----- packed bytes -----

  /**
   The packed bytes of `n` numbers of a type, after `before` numbers from `base` on: whole blocks of both, cut out of
   the file. Nothing to return is refused, as are other types.
   */
  ghost predicate BytesAt(t: Data, kind: nat, base: nat, before: nat, n: nat, r: Result<Data, LoadError>) {
    && (!IsSupported(kind) ==> r == Failure(Unsupported))
    && forall block, bytes :: block > 0 && Packs(kind, block, bytes) ==>
         BlocksAt(t, InBlocks(n, block, bytes), base + InBlocks(before, block, bytes), r)
  }

  predicate BlocksAt(t: Data, size: nat, start: nat, r: Result<Data, LoadError>) {
    r == if size == 0 then Failure(Unsupported) else if start + size > |t| then Failure(ShortFile) else Success(t[start..start + size])
  }

  function BytesOf(r: Result<Raw, LoadError>): Result<Data, LoadError> {
    match r
    case Success(raw) => Success(raw.bytes)
    case Failure(e) => Failure(e)
  }

  /** The dimensions in reverse, as signed numbers; without the first of these for a slice. */
  predicate Reversed(dims: seq<nat>, skip: nat, shape: seq<int>) {
    |shape| + skip == |dims| && forall k :: 0 <= k < |shape| ==>
      var d: int := dims[|dims| - 1 - skip - k];
      shape[k] == if d < 0x8000_0000_0000_0000 then d else d - 0x1_0000_0000_0000_0000
  }

  /** What a packed load of tensor `info` must answer, for expert `e` or for all of it. */
  ghost predicate RawAnswers(file: File, t: Data, info: Info, e: int, r: Result<Raw, LoadError>) {
    var all, base := Product(info.dims) % 0x1_0000_0000_0000_0000, file.dataOffset + info.offset;
    if e < 0 then BytesAt(t, info.kind, base, 0, all, BytesOf(r)) && (r.Success? ==> r.value.kind == info.kind && Reversed(info.dims, 0, r.value.shape))
    else if |info.dims| < 3 then r == Failure(NotBank)
    else
      var count := info.dims[|info.dims| - 1];
      if count == 0 || all % count != 0 || e >= count then r == Failure(SliceOutOfRange)
      else
        && BytesAt(t, info.kind, base, e * (all / count), all / count, BytesOf(r))
        && (r.Success? ==> r.value.kind == info.kind && Reversed(info.dims, 1, r.value.shape))
  }

  /** What a packed load by name must answer. */
  ghost predicate RawIs(file: File, t: Data, name: string, atoi: Atoi, r: Result<Raw, LoadError>) {
    forall key, e :: AsksFor(name, atoi, key, e) ==>
      && (r == Failure(NotFound) <==> forall i: nat :: !Called(file.infos, key, i))
      && forall i: nat :: Called(file.infos, key, i) ==> RawAnswers(file, t, file.infos[i], e, r)
  }

  // ----- numbers -----

  /** The numbers of a stretch of `size` bytes: little-endian words for 32-bit floats, and what the unpacker makes of it for the rest. */
  predicate ReadsAs(t: Data, kind: nat, size: nat, start: nat, n: nat, unpack: Unpack, r: Result<seq<nat>, LoadError>) {
    if start + size > |t| then r == Failure(ShortFile)
    else if kind == 0 then r.Success? && |r.value| == n && size == 4 * n && forall i :: 0 <= i < n ==> r.value[i] == Unlittle(t, start + 4 * i, 4)
    else
      match unpack(kind, t[start..start + size], n)
      case Some(xs) => r == Success(xs)
      case None => r == Failure(NoDequant)
  }

  /**
   The numbers of a tensor. Types 2 and 8 take whole blocks only; type 24 is one byte a number, but counts four for
   each number before it; the other block types refuse to return nothing.
   */
  ghost predicate NumbersFrom(t: Data, kind: nat, base: nat, before: nat, n: nat, unpack: Unpack, r: Result<seq<nat>, LoadError>) {
    if kind == 24 then ReadsAs(t, 24, n, base + 4 * before, n, unpack, r)
    else if (kind == 2 || kind == 8) && n % 32 != 0 then r == Failure(NotBlocks)
    else
      && (!IsSupported(kind) ==> r == Failure(Unsupported))
      && forall block, bytes :: block > 0 && Packs(kind, block, bytes) ==>
           NumbersIn(t, kind, InBlocks(n, block, bytes), base + InBlocks(before, block, bytes), n, unpack, r)
  }

  predicate NumbersIn(t: Data, kind: nat, size: nat, start: nat, n: nat, unpack: Unpack, r: Result<seq<nat>, LoadError>) {
    if size == 0 && kind !in [0, 1, 2, 8] then r == Failure(Unsupported) else ReadsAs(t, kind, size, start, n, unpack, r)
  }

  function ValuesOf(r: Result<Tensor32, LoadError>): Result<seq<nat>, LoadError> {
    match r
    case Success(tensor) => Success(tensor.data)
    case Failure(e) => Failure(e)
  }

  /** What a numeric load of tensor `info` must answer, for expert `e` or for all of it. */
  ghost predicate NumbersAnswer(file: File, t: Data, info: Info, e: int, unpack: Unpack, r: Result<Tensor32, LoadError>) {
    var all, base := Product(info.dims) % 0x1_0000_0000_0000_0000, file.dataOffset + info.offset;
    if e < 0 then NumbersFrom(t, info.kind, base, 0, all, unpack, ValuesOf(r)) && (r.Success? ==> Reversed(info.dims, 0, r.value.shape))
    else if |info.dims| < 3 then r == Failure(NotBank)
    else
      var count := info.dims[|info.dims| - 1];
      if count == 0 || all % count != 0 || e >= count then r == Failure(SliceOutOfRange)
      else
        && NumbersFrom(t, info.kind, base, e * (all / count), all / count, unpack, ValuesOf(r))
        && (r.Success? ==> Reversed(info.dims, 1, r.value.shape))
  }

  /** What a numeric load by name must answer. */
  ghost predicate NumbersAre(file: File, t: Data, name: string, atoi: Atoi, unpack: Unpack, r: Result<Tensor32, LoadError>) {
    forall key, e :: AsksFor(name, atoi, key, e) ==>
      && (r == Failure(NotFound) <==> forall i: nat :: !Called(file.infos, key, i))
      && forall i: nat :: Called(file.infos, key, i) ==> NumbersAnswer(file, t, file.infos[i], e, unpack, r)
  }

  // ----- proofs -----

  lemma {:induction false} FirstMark(name: string, i: nat)
    requires i <= |name|
    ensures forall j: nat :: i <= j < FindMark(name, i) ==> !MarkAt(name, j)
    ensures FindMark(name, i) < |name| <==> exists j: nat :: i <= j && MarkAt(name, j)
    ensures FindMark(name, i) < |name| ==> MarkAt(name, FindMark(name, i))
    decreases |name| - i
  {
    if i + 3 <= |name| {
      FirstMark(name, i + 1);
      if name[i..i + 3] == MARK { assert MarkAt(name, i); }
    }
  }

  /** Splitting a name gives what it asks for, and nothing else. */
  lemma {:induction false} SplitIs(name: string, atoi: Atoi, key: string, e: int)
    ensures AsksFor(name, atoi, key, e) <==> (key, e) == ParseSlice(name, atoi)
  {
    FirstMark(name, 0);
    hide FindMark, MarkAt;
    if AsksFor(name, atoi, key, e) && !(key == name && e == -1 && forall j: nat :: !MarkAt(name, j)) {
      var at: nat :| MarkAt(name, at) && (forall j: nat :: j < at ==> !MarkAt(name, j)) && key == name[..at] && e == atoi(name[at + 3..]);
      assert at == FindMark(name, 0);
    }
  }

  lemma {:induction false} FirstCalled(infos: seq<Info>, key: string)
    ensures FindInfo(infos, key).None? <==> forall i: nat :: !Called(infos, key, i)
    ensures forall i: nat :: Called(infos, key, i) ==> FindInfo(infos, key) == Some(infos[i])
  {
    FoundUnlessAbsent(infos, key);
    forall i: nat | Called(infos, key, i) ensures FindInfo(infos, key) == Some(infos[i]) { FoundFirst(infos, i); }
    if FindInfo(infos, key).Some? { SomeCalled(infos, key, 0); }
  }

  lemma {:induction false} SomeCalled(infos: seq<Info>, key: string, i: nat)
    requires i <= |infos| && !Absent(infos, key) && forall j :: 0 <= j < i ==> infos[j].name != key
    ensures exists k: nat :: Called(infos, key, k)
    decreases |infos| - i
  {
    if i < |infos| && infos[i].name == key { assert Called(infos, key, i); } else { SomeCalled(infos, key, i + 1); }
  }

  lemma OneRemainder(x: int, q: int, r: int, m: int)
    requires x == q * m + r && 0 <= r < m
    ensures x % m == r
  {
    var d := x / m - q;
    assert d * m == r - x % m;
    if d != 0 { FarApart(d, m); }
  }

  lemma FarApart(d: int, m: int)
    requires d != 0 && m > 0
    ensures d * m >= m || d * m <= -m
  {
    if d > 0 { assert (d - 1) * m >= 0; } else { assert (-1 - d) * m >= 0; }
  }

  lemma ModTimes(a: nat, d: nat, m: nat)
    requires m > 0
    ensures a % m * d % m == a * d % m
  {
    var q, r := a / m, a % m;
    var p, s := r * d / m, r * d % m;
    assert a * d == r * d + q * m * d;
    assert (q * d + p) * m == q * d * m + p * m;
    assert q * d * m == q * m * d;
    OneRemainder(a * d, q * d + p, s, m);
  }

  /** The 64-bit count of a tensor's numbers is the product of its dimensions, modulo 2^64. */
  lemma {:induction false} NumelIsProduct(dims: seq<nat>, k: nat)
    requires k <= |dims|
    ensures Numel(dims, k) == Product(dims[..k]) % 0x1_0000_0000_0000_0000
  {
    if k > 0 {
      NumelIsProduct(dims, k - 1);
      assert dims[..k][..k - 1] == dims[..k - 1];
      SpanIsProduct(Numel(dims, k - 1), dims[k - 1]);
      ModTimes(Product(dims[..k - 1]), dims[k - 1], TWO64);
    }
  }

  /** The size of `n` numbers of a supported type, in blocks. */
  lemma StoredInBlocks(kind: nat, n: nat, block: nat, bytes: nat)
    requires block > 0 && Packs(kind, block, bytes)
    ensures StoredBytes(kind, n) == InBlocks(n, block, bytes)
  {}

  lemma SupportedIff(kind: nat)
    ensures Supported(kind) <==> IsSupported(kind)
  {}

  lemma BytesOfRaw(file: File, t: Data, site: Site)
    ensures BytesAt(t, site.info.kind, file.dataOffset + site.info.offset, site.e * site.n, site.n, BytesOf(RawAt(file, t, site)))
  {
    hide InBlocks, StoredBytes, Packs, BlocksAt, IsSupported, Supported;
    if !IsSupported(site.info.kind) { Refused(file, t, site); }
    forall block, bytes | block > 0 && Packs(site.info.kind, block, bytes)
      ensures BlocksAt(t, InBlocks(site.n, block, bytes), file.dataOffset + site.info.offset + InBlocks(site.e * site.n, block, bytes), BytesOf(RawAt(file, t, site)))
    {
      BlocksOfRaw(file, t, site, block, bytes);
    }
  }

  lemma Refused(file: File, t: Data, site: Site)
    requires !IsSupported(site.info.kind)
    ensures BytesOf(RawAt(file, t, site)) == Failure(Unsupported)
  {
    SupportedIff(site.info.kind);
  }

  lemma BlocksOfRaw(file: File, t: Data, site: Site, block: nat, bytes: nat)
    requires block > 0 && Packs(site.info.kind, block, bytes)
    ensures BlocksAt(t, InBlocks(site.n, block, bytes), file.dataOffset + site.info.offset + InBlocks(site.e * site.n, block, bytes), BytesOf(RawAt(file, t, site)))
  {
    var kind := site.info.kind;
    SupportedIff(kind);
    StoredInBlocks(kind, site.n, block, bytes);
    StoredInBlocks(kind, site.e * site.n, block, bytes);
    assert IsSupported(kind);
    hide StoredBytes, Supported, IsSupported, Packs, InBlocks;
  }

  lemma ShapeReversed(site: Site)
    ensures Reversed(site.info.dims, if site.sliced && site.info.dims != [] then 1 else 0, site.Shape())
  {
    var s := ShapeOf(site.info.dims);
    SignedOf(site.info.dims);
    hide ShapeOf, AsSigned;
    if site.sliced && s != [] { assert forall k :: 0 <= k < |s| - 1 ==> s[1..][k] == s[k + 1]; }
  }

  lemma SignedOf(dims: seq<nat>)
    ensures Reversed(dims, 0, ShapeOf(dims))
  {}

  /** The site of a tensor, or of expert `e` of it. */
  predicate SiteOf(info: Info, e: int, r: Result<Site, LoadError>) {
    var all := Product(info.dims) % 0x1_0000_0000_0000_0000;
    if e < 0 then r == Success(Site(info, all, 0, false))
    else if |info.dims| < 3 then r == Failure(NotBank)
    else
      var count := info.dims[|info.dims| - 1];
      r == if count == 0 || all % count != 0 || e >= count then Failure(SliceOutOfRange) else Success(Site(info, all / count, e, true))
  }

  lemma {:induction false} LocateIs(infos: seq<Info>, name: string, atoi: Atoi, key: string, e: int)
    requires AsksFor(name, atoi, key, e)
    ensures Locate(infos, name, atoi) == Failure(NotFound) <==> forall i: nat :: !Called(infos, key, i)
    ensures forall i: nat :: Called(infos, key, i) ==> SiteOf(infos[i], e, Locate(infos, name, atoi))
  {
    SplitIs(name, atoi, key, e);
    FirstCalled(infos, key);
    hide AsksFor, ParseSlice, FindInfo, Numel, Product;
    forall i: nat | Called(infos, key, i) ensures SiteOf(infos[i], e, Locate(infos, name, atoi)) {
      NumelIsProduct(infos[i].dims, |infos[i].dims|);
      assert infos[i].dims[..|infos[i].dims|] == infos[i].dims;
    }
  }

  lemma RawOfSite(file: File, t: Data, info: Info, e: int, site: Result<Site, LoadError>)
    requires SiteOf(info, e, site)
    ensures RawAnswers(file, t, info, e, match site case Success(s) => RawAt(file, t, s) case Failure(f) => Failure(f))
  {
    hide BytesAt, Product, Reversed, RawAt, Site.Shape;
    if site.Success? {
      BytesOfRaw(file, t, site.value);
      RawKeeps(file, t, site.value);
      ShapeReversed(site.value);
      assert 0 * site.value.n == 0;
    }
  }

  lemma RawKeeps(file: File, t: Data, site: Site)
    ensures var r := RawAt(file, t, site);
      r.Success? ==> r.value.kind == site.info.kind && r.value.shape == site.Shape()
  {
    hide StoredBytes, Supported, Site.Start, Site.Shape;
  }

  /** A packed load by name answers what it must. */
  lemma {:induction false} LoadRawIs(file: File, t: Data, name: string, atoi: Atoi)
    ensures RawIs(file, t, name, atoi, LoadRaw(file, t, name, atoi))
  {
    hide AsksFor, SiteOf, RawAnswers, StoredBytes, Supported, Locate;
    var r := LoadRaw(file, t, name, atoi);
    forall key, e | AsksFor(name, atoi, key, e)
      ensures (r == Failure(NotFound) <==> forall i: nat :: !Called(file.infos, key, i))
           && forall i: nat :: Called(file.infos, key, i) ==> RawAnswers(file, t, file.infos[i], e, r)
    {
      LocateIs(file.infos, name, atoi, key, e);
      forall i: nat | Called(file.infos, key, i) ensures RawAnswers(file, t, file.infos[i], e, r) {
        RawOfSite(file, t, file.infos[i], e, Locate(file.infos, name, atoi));
      }
    }
  }

  lemma ReadsCut(file: File, t: Data, site: Site, size: nat, start: nat, unpack: Unpack)
    requires start == site.Start(file) && site.info.kind != 0
    ensures ReadsAs(t, site.info.kind, size, start, site.n, unpack, ValuesOf(CutAndUnpack(unpack, file, t, site, size)))
  {}

  lemma ReadsWords(file: File, t: Data, site: Site, size: nat, start: nat, unpack: Unpack)
    requires start == site.Start(file) && site.info.kind == 0 && size == 4 * site.n
    ensures ReadsAs(t, 0, size, start, site.n, unpack, ValuesOf(NumbersAt(file, t, site, unpack)))
  {
    FloatsAt(file, t, site, unpack);
    hide NumbersAt, Site.Start, Unlittle;
  }

  /** The kinds that the numeric load reads itself. */
  lemma PlainNumbers(file: File, t: Data, site: Site, unpack: Unpack, block: nat, bytes: nat)
    requires block > 0 && Packs(site.info.kind, block, bytes) && site.info.kind in [0, 1, 2, 8]
    requires site.info.kind == 2 || site.info.kind == 8 ==> site.n % 32 == 0
    ensures ReadsAs(t, site.info.kind, InBlocks(site.n, block, bytes), file.dataOffset + site.info.offset + InBlocks(site.e * site.n, block, bytes), site.n, unpack,
                    ValuesOf(NumbersAt(file, t, site, unpack)))
  {
    hide *;
    StoredInBlocks(site.info.kind, site.e * site.n, block, bytes);
    PlainSize(site.info.kind, site.n, block, bytes);
    StartIs(file, site);
    if site.info.kind == 0 {
      ReadsWords(file, t, site, InBlocks(site.n, block, bytes), site.Start(file), unpack);
    } else {
      PlainCut(file, t, site, unpack);
      ReadsCut(file, t, site, InBlocks(site.n, block, bytes), site.Start(file), unpack);
    }
  }

  /** Bytes of `n` numbers of such a kind. */
  function PlainBytes(kind: nat, n: nat): nat { if kind == 0 then 4 * n else if kind == 1 then n * 2 else if kind == 8 then n / 32 * 34 else n / 32 * 18 }

  lemma PlainSize(kind: nat, n: nat, block: nat, bytes: nat)
    requires block > 0 && Packs(kind, block, bytes) && kind in [0, 1, 2, 8]
    ensures InBlocks(n, block, bytes) == PlainBytes(kind, n) && (kind == 0 ==> PlainBytes(kind, n) == 4 * n)
  {}

  lemma PlainCut(file: File, t: Data, site: Site, unpack: Unpack)
    requires site.info.kind in [1, 2, 8] && (site.info.kind == 2 || site.info.kind == 8 ==> site.n % 32 == 0)
    ensures NumbersAt(file, t, site, unpack) == CutAndUnpack(unpack, file, t, site, PlainBytes(site.info.kind, site.n))
  {
    hide CutAndUnpack;
  }

  lemma StartIs(file: File, site: Site)
    ensures site.Start(file) == file.dataOffset + site.info.offset + StoredBytes(site.info.kind, site.e * site.n)
  {
    hide StoredBytes;
  }

  /** The kinds whose packed bytes it loads first. */
  lemma PackedNumbers(file: File, t: Data, site: Site, unpack: Unpack, block: nat, bytes: nat)
    requires block > 0 && Packs(site.info.kind, block, bytes) && site.info.kind !in [0, 1, 2, 8]
    ensures NumbersIn(t, site.info.kind, InBlocks(site.n, block, bytes), file.dataOffset + site.info.offset + InBlocks(site.e * site.n, block, bytes), site.n, unpack,
                      ValuesOf(NumbersAt(file, t, site, unpack)))
  {
    SupportedIff(site.info.kind);
    BlocksOfRaw(file, t, site, block, bytes);
    assert IsSupported(site.info.kind) && site.info.kind != 24;
    hide RawAt, InBlocks, Packs, Supported, IsSupported;
  }

  lemma ByteNumbers(file: File, t: Data, site: Site, unpack: Unpack)
    requires site.info.kind == 24
    ensures ReadsAs(t, 24, site.n, file.dataOffset + site.info.offset + 4 * (site.e * site.n), site.n, unpack, ValuesOf(NumbersAt(file, t, site, unpack)))
  {
    assert F.PackedBytes(0, site.e * site.n) == site.e * site.n * 4;
    ReadsCut(file, t, site, site.n, site.Start(file), unpack);
  }

  lemma NumbersOfSite(file: File, t: Data, site: Site, unpack: Unpack)
    ensures NumbersFrom(t, site.info.kind, file.dataOffset + site.info.offset, site.e * site.n, site.n, unpack, ValuesOf(NumbersAt(file, t, site, unpack)))
  {
    var kind := site.info.kind;
    SupportedIff(kind);
    if kind == 24 {
      ByteNumbers(file, t, site, unpack);
    } else if !((kind == 2 || kind == 8) && site.n % 32 != 0) {
      hide Packs, InBlocks, StoredBytes, ReadsAs;
      forall block, bytes | block > 0 && Packs(kind, block, bytes)
        ensures NumbersIn(t, kind, InBlocks(site.n, block, bytes), file.dataOffset + site.info.offset + InBlocks(site.e * site.n, block, bytes), site.n, unpack,
                          ValuesOf(NumbersAt(file, t, site, unpack)))
      {
        if kind in [0, 1, 2, 8] { PlainNumbers(file, t, site, unpack, block, bytes); } else { PackedNumbers(file, t, site, unpack, block, bytes); }
      }
    }
  }

  lemma NumbersOfFound(file: File, t: Data, info: Info, e: int, unpack: Unpack, site: Result<Site, LoadError>)
    requires SiteOf(info, e, site)
    ensures NumbersAnswer(file, t, info, e, unpack, match site case Success(s) => NumbersAt(file, t, s, unpack) case Failure(f) => Failure(f))
  {
    hide NumbersFrom, Product, Reversed, NumbersAt, Site.Shape;
    if site.Success? {
      NumbersOfSite(file, t, site.value, unpack);
      NumbersKeep(file, t, site.value, unpack);
      ShapeReversed(site.value);
      assert 0 * site.value.n == 0;
    }
  }

  lemma NumbersKeep(file: File, t: Data, site: Site, unpack: Unpack)
    ensures var r := NumbersAt(file, t, site, unpack);
      r.Success? ==> r.value.shape == site.Shape()
  {
    hide StoredBytes, Supported, Site.Start, Site.Shape, Words, RawAt;
  }

  /** A numeric load by name answers what it must. */
  lemma {:induction false} LoadF32Is(file: File, t: Data, name: string, atoi: Atoi, unpack: Unpack)
    ensures NumbersAre(file, t, name, atoi, unpack, LoadF32(file, t, name, atoi, unpack))
  {
    hide AsksFor, SiteOf, NumbersAnswer, StoredBytes, Supported, Locate;
    var r := LoadF32(file, t, name, atoi, unpack);
    forall key, e | AsksFor(name, atoi, key, e)
      ensures (r == Failure(NotFound) <==> forall i: nat :: !Called(file.infos, key, i))
           && forall i: nat :: Called(file.infos, key, i) ==> NumbersAnswer(file, t, file.infos[i], e, unpack, r)
    {
      LocateIs(file.infos, name, atoi, key, e);
      forall i: nat | Called(file.infos, key, i) ensures NumbersAnswer(file, t, file.infos[i], e, unpack, r) {
        NumbersOfFound(file, t, file.infos[i], e, unpack, Locate(file.infos, name, atoi));
      }
    }
  }

  lemma BlockOf(kind: nat, block: nat, bytes: nat)
    requires block > 0 && Packs(kind, block, bytes)
    ensures F.Block(QuantOf(kind)) == block
  {}

  /** The slices of a bank that loads partition its bytes exactly when the remainders of the slices together stay below one block of its type. */
  lemma SlicesPartitionBlocks(file: File, t: Data, info: Info, n: nat, count: nat, block: nat, bytes: nat)
    requires block > 0 && Packs(info.kind, block, bytes) && RawAt(file, t, Site(info, count * n, 0, false)).Success?
    ensures Joined(file, t, info, n, count) == Some(RawAt(file, t, Site(info, count * n, 0, false)).value.bytes) <==> count * (n % block) < block
  {
    hide RawAt, Joined, Packs, QuantOf, F.Block;
    BlockOf(info.kind, block, bytes);
    SlicesPartitionBank(file, t, info, n, count);
  }
}
