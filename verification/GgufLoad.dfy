/**
 Loading tensors of a GGUF file: by name, or one expert of a bank by `name#e=index`; as numbers, or
 as packed bytes. Loading gives back the written numbers, and the slices of a bank partition its
 bytes exactly when the block arithmetic allows.
 */
module GgufLoad {
  import opened Layout
  import opened Within
  import opened Bytes
  import opened Entries
  import opened Gguf
  import opened GgufFile
  import F = Formats

  datatype LoadError = NotFound | NotBank | SliceOutOfRange | Unsupported | ShortFile | NotBlocks | NoDequant

  // ----- names -----

  type Atoi = string -> int

  const MARK: string := "#e="

  /** First place at or after `i` where the slice mark stands, or the length. */
  function FindMark(name: string, i: nat): (r: nat)
    ensures i <= |name| ==> i <= r <= |name|
    ensures i <= |name| && r != |name| ==> r + 3 <= |name| && name[r..r + 3] == MARK
    decreases |name| - i
  {
    if i + 3 > |name| then |name| else if name[i..i + 3] == MARK then i else FindMark(name, i + 1)
  }

  predicate Unmarked(name: string) { FindMark(name, 0) == |name| }

  /** The tensor a name refers to, and the expert it selects; negative for none. */
  function ParseSlice(name: string, atoi: Atoi): (string, int) {
    var at := FindMark(name, 0);
    if at == |name| then (name, -1) else (name[..at], atoi(name[at + 3..]))
  }

  // ----- sizes -----

  /** The quantisation format of a tensor type. */
  function QuantOf(kind: nat): (f: nat)
    ensures f <= 17
  {
    match kind
    case 1 => 1
    case 2 => 7
    case 3 => 8
    case 6 => 9
    case 7 => 10
    case 8 => 11
    case 10 => 12
    case 11 => 13
    case 12 => 14
    case 13 => 15
    case 14 => 16
    case 20 => 17
    case _ => 0
  }

  predicate Supported(kind: nat) { kind == 0 || QuantOf(kind) != 0 }

  function ElemBytes(kind: nat): nat {
    match kind
    case 0 => 4
    case 1 => 2
    case 24 => 1
    case 25 => 2
    case 26 => 4
    case 27 => 8
    case 28 => 8
    case 30 => 2
    case _ => 0
  }

  /** Stored bytes of `n` numbers: the packed size, or plain elements when that is 0. */
  function StoredBytes(kind: nat, n: nat): nat {
    var b := F.PackedBytes(QuantOf(kind), n);
    if b == 0 then n * ElemBytes(kind) else b
  }

  /** Number of elements, multiplied up in 64-bit words. */
  function Numel(dims: seq<nat>, k: nat): nat
    requires k <= |dims|
  {
    if k == 0 then 1 else Span(Numel(dims, k - 1), dims[k - 1]) % TWO64
  }

  /** Row-major shape: the stored dimensions reversed, read as signed. */
  function ShapeOf(dims: seq<nat>): (r: seq<int>)
    ensures |r| == |dims| && forall i :: 0 <= i < |dims| ==> r[i] == AsSigned(dims[|dims| - 1 - i])
  {
    seq(|dims|, i requires 0 <= i < |dims| => AsSigned(dims[|dims| - 1 - i]))
  }

  // ----- finding a tensor -----

  function FindInfo(infos: seq<Info>, key: string): Option<Info> {
    if infos == [] then None else if infos[0].name == key then Some(infos[0]) else FindInfo(infos[1..], key)
  }

  /** A tensor or a slice of one: its description, how many numbers, which slice. */
  datatype Site = Site(info: Info, n: nat, e: nat, sliced: bool) {
    function Start(file: File): nat { file.dataOffset + info.offset + StoredBytes(info.kind, e * n) }

    function Shape(): seq<int> {
      var s := ShapeOf(info.dims);
      if sliced && s != [] then s[1..] else s
    }
  }

  function Locate(infos: seq<Info>, name: string, atoi: Atoi): (r: Result<Site, LoadError>) {
    var (key, expert) := ParseSlice(name, atoi);
    match FindInfo(infos, key)
    case None => Failure(NotFound)
    case Some(info) =>
      var full := Numel(info.dims, |info.dims|);
      if expert < 0 then Success(Site(info, full, 0, false))
      else if |info.dims| < 3 then Failure(NotBank)
      else
        var count := info.dims[|info.dims| - 1];
        if count == 0 || full % count != 0 || expert >= count then Failure(SliceOutOfRange)
        else Success(Site(info, full / count, expert, true))
  }

  function Cut(t: Data, start: nat, len: nat): (r: Result<Data, LoadError>)
    ensures r.Success? <==> start + len <= |t|
    ensures r.Success? ==> r.value == t[start..start + len]
  {
    if start + len > |t| then Failure(ShortFile) else Success(t[start..start + len])
  }

  // ----- packed bytes -----

  datatype Raw = Raw(bytes: Data, shape: seq<int>, kind: nat)

  function RawAt(file: File, t: Data, site: Site): Result<Raw, LoadError> {
    var kind := site.info.kind;
    if !Supported(kind) || StoredBytes(kind, site.n) == 0 then Failure(Unsupported)
    else
      match Cut(t, site.Start(file), StoredBytes(kind, site.n))
      case Success(bytes) => Success(Raw(bytes, site.Shape(), kind))
      case Failure(e) => Failure(e)
  }

  function LoadRaw(file: File, t: Data, name: string, atoi: Atoi): Result<Raw, LoadError> {
    match Locate(file.infos, name, atoi)
    case Success(site) => RawAt(file, t, site)
    case Failure(e) => Failure(e)
  }

  // ----- numbers -----

  /** Unpacks bytes of a type into `n` float bit patterns, or fails. */
  type Unpack = (nat, Data, nat) -> Option<seq<nat>>

  /** `n` consecutive 32-bit words. */
  function Words(t: Data, p: nat, n: nat): (r: seq<nat>)
    requires p + 4 * n <= |t|
    ensures |r| == n && forall i :: 0 <= i < n ==> r[i] == Unlittle(t, p + 4 * i, 4)
  {
    seq(n, i requires 0 <= i < n => Unlittle(t, p + 4 * i, 4))
  }

  datatype Tensor32 = Tensor32(data: seq<nat>, shape: seq<int>)

  function Unpacked(unpack: Unpack, site: Site, bytes: Data): Result<Tensor32, LoadError> {
    match unpack(site.info.kind, bytes, site.n)
    case Some(xs) => Success(Tensor32(xs, site.Shape()))
    case None => Failure(NoDequant)
  }

  function CutAndUnpack(unpack: Unpack, file: File, t: Data, site: Site, len: nat): Result<Tensor32, LoadError> {
    match Cut(t, site.Start(file), len)
    case Success(bytes) => Unpacked(unpack, site, bytes)
    case Failure(e) => Failure(e)
  }

  function NumbersAt(file: File, t: Data, site: Site, unpack: Unpack): Result<Tensor32, LoadError> {
    var kind := site.info.kind;
    if kind == 0 then
      match Cut(t, site.Start(file), site.n * 4)
      case Success(bytes) => Success(Tensor32(Words(bytes, 0, site.n), site.Shape()))
      case Failure(e) => Failure(e)
    else if kind == 1 then CutAndUnpack(unpack, file, t, site, site.n * 2)
    else if kind == 8 then if site.n % 32 != 0 then Failure(NotBlocks) else CutAndUnpack(unpack, file, t, site, site.n / 32 * 34)
    else if kind == 2 then if site.n % 32 != 0 then Failure(NotBlocks) else CutAndUnpack(unpack, file, t, site, site.n / 32 * 18)
    else if kind == 24 then CutAndUnpack(unpack, file, t, site, site.n)
    else if Supported(kind) then
      match RawAt(file, t, site)
      case Success(raw) => Unpacked(unpack, site, raw.bytes)
      case Failure(e) => Failure(e)
    else Failure(Unsupported)
  }

  function LoadF32(file: File, t: Data, name: string, atoi: Atoi, unpack: Unpack): Result<Tensor32, LoadError> {
    match Locate(file.infos, name, atoi)
    case Success(site) => NumbersAt(file, t, site, unpack)
    case Failure(e) => Failure(e)
  }

  // ----- the two loads agree -----

  /** Whenever the packed load succeeds, the numeric load unpacks exactly those bytes. */
  lemma {:induction false} LoadsAgree(file: File, t: Data, name: string, atoi: Atoi, unpack: Unpack)
    requires LoadRaw(file, t, name, atoi).Success?
    ensures var raw, site := LoadRaw(file, t, name, atoi).value, Locate(file.infos, name, atoi).value;
      raw.kind == 0 ==> |raw.bytes| == 4 * site.n
    ensures var raw, site := LoadRaw(file, t, name, atoi).value, Locate(file.infos, name, atoi).value;
      LoadF32(file, t, name, atoi, unpack) ==
        if raw.kind == 0 then Success(Tensor32(Words(raw.bytes, 0, site.n), raw.shape))
        else if (raw.kind == 2 || raw.kind == 8) && site.n % 32 != 0 then Failure(NotBlocks)
        else
          match unpack(raw.kind, raw.bytes, site.n)
          case Some(xs) => Success(Tensor32(xs, raw.shape))
          case None => Failure(NoDequant)
  {
    var site := Locate(file.infos, name, atoi).value;
    assert F.PackedBytes(0, site.n) == site.n * 4;
  }

  // ----- slices of a bank -----

  /** The slices before `e`, joined. */
  function Joined(file: File, t: Data, info: Info, n: nat, e: nat): Option<Data> {
    if e == 0 then Some([])
    else
      match Joined(file, t, info, n, e - 1)
      case None => None
      case Some(front) =>
        match RawAt(file, t, Site(info, n, e - 1, true))
        case Success(raw) => Some(front + raw.bytes)
        case Failure(_) => None
  }

  lemma Remainders(e: nat, r: nat, d: nat, b: nat)
    requires d <= e && e * r < b
    ensures d * r < b
  {
    assert e * r == d * r + (e - d) * r;
  }

  lemma PackedUsed(kind: nat, n: nat)
    requires Supported(kind) && StoredBytes(kind, n) > 0
    ensures StoredBytes(kind, n) == F.PackedBytes(QuantOf(kind), n) || QuantOf(kind) <= 1
    ensures StoredBytes(kind, n) == F.PackedBytes(QuantOf(kind), n)
  {}

  lemma Scaled(e: nat, b: nat)
    requires e > 0 && b > 0
    ensures e * b >= b
  {
    assert (e - 1) * b >= 0;
    assert e * b == (e - 1) * b + b;
  }

  /** The sizes of `e` slices together make the size of `e` times as many numbers, exactly when the block arithmetic allows. */
  lemma SizesAdd(kind: nat, e: nat, n: nat)
    requires Supported(kind) && StoredBytes(kind, n) > 0
    ensures StoredBytes(kind, e * n) == e * StoredBytes(kind, n) <==> e * (n % F.Block(QuantOf(kind))) < F.Block(QuantOf(kind))
  {
    var f := QuantOf(kind);
    F.SlicesPartition(f, e, n);
    PackedUsed(kind, n);
    hide F.PackedBytes, F.Block;
    if e == 0 {
      NothingStored(kind);
      assert e * n == 0;
    } else {
      Scaled(e, StoredBytes(kind, n));
      if StoredBytes(kind, e * n) > 0 {
        PackedUsed(kind, e * n);
      } else {
        NotStored(kind, e * n);
      }
    }
  }

  lemma NothingStored(kind: nat)
    ensures StoredBytes(kind, 0) == 0
  {}

  lemma NotStored(kind: nat, n: nat)
    requires StoredBytes(kind, n) == 0
    ensures F.PackedBytes(QuantOf(kind), n) == 0
  {}

  lemma SliceStart(file: File, info: Info, n: nat, e: nat)
    requires Supported(info.kind) && StoredBytes(info.kind, n) > 0 && e * (n % F.Block(QuantOf(info.kind))) < F.Block(QuantOf(info.kind))
    ensures Site(info, n, e, true).Start(file) == file.dataOffset + info.offset + e * StoredBytes(info.kind, n)
  {
    SizesAdd(info.kind, e, n);
  }

  lemma {:induction false} JoinedIsStretch(file: File, t: Data, info: Info, n: nat, count: nat, e: nat)
    requires Supported(info.kind) && StoredBytes(info.kind, n) > 0 && e <= count
    requires count * (n % F.Block(QuantOf(info.kind))) < F.Block(QuantOf(info.kind))
    requires file.dataOffset + info.offset + e * StoredBytes(info.kind, n) <= |t|
    ensures Joined(file, t, info, n, e) ==
      Some(t[file.dataOffset + info.offset..file.dataOffset + info.offset + e * StoredBytes(info.kind, n)])
  {
    var b, base := StoredBytes(info.kind, n), file.dataOffset + info.offset;
    hide F.Block, StoredBytes, Supported;
    if e == 0 {
      assert e * b == 0 && t[base..base] == [];
    } else {
      assert e * b == (e - 1) * b + b;
      JoinedIsStretch(file, t, info, n, count, e - 1);
      Remainders(count, n % F.Block(QuantOf(info.kind)), e - 1, F.Block(QuantOf(info.kind)));
      SliceStart(file, info, n, e - 1);
      var mid := base + (e - 1) * b;
      assert t[base..mid] + t[mid..mid + b] == t[base..mid + b];
    }
  }

  lemma {:induction false} JoinedSize(file: File, t: Data, info: Info, n: nat, e: nat)
    requires Joined(file, t, info, n, e).Some?
    ensures |Joined(file, t, info, n, e).value| == e * StoredBytes(info.kind, n)
  {
    var b := StoredBytes(info.kind, n);
    hide StoredBytes;
    if e == 0 {
      assert e * b == 0;
    } else {
      JoinedSize(file, t, info, n, e - 1);
      assert e * b == (e - 1) * b + b;
    }
  }

  /**
   The slices of a bank that loads partition its bytes exactly when the remainders of the slices, taken
   together, stay below one block; in particular when the block divides the slice.
   */
  lemma {:induction false} SlicesPartitionBank(file: File, t: Data, info: Info, n: nat, count: nat)
    requires RawAt(file, t, Site(info, count * n, 0, false)).Success?
    ensures Joined(file, t, info, n, count) == Some(RawAt(file, t, Site(info, count * n, 0, false)).value.bytes)
       <==> count * (n % F.Block(QuantOf(info.kind))) < F.Block(QuantOf(info.kind))
  {
    BankAt(file, t, info, count * n);
    if StoredBytes(info.kind, n) == 0 {
      hide RawAt, StoredBytes, Supported, F.Block;
      TinySizes(info.kind, count, n);
      TinySlices(file, t, info, n, count);
      return;
    }
    SizesAdd(info.kind, count, n);
    hide StoredBytes, Supported, F.Block, RawAt;
    if count * (n % F.Block(QuantOf(info.kind))) < F.Block(QuantOf(info.kind)) {
      JoinedIsStretch(file, t, info, n, count, count);
    } else if Joined(file, t, info, n, count).Some? {
      JoinedSize(file, t, info, n, count);
    }
  }

  lemma NoFactorZero(e: nat, n: nat)
    ensures e * n != 0 ==> e > 0 && n > 0
  {}

  /** A bank that is stored in some bytes, in slices that are stored in none: each slice is shorter than a block. */
  lemma TinySizes(kind: nat, e: nat, n: nat)
    requires Supported(kind) && StoredBytes(kind, n) == 0 && StoredBytes(kind, e * n) > 0
    ensures e > 0 && e * (n % F.Block(QuantOf(kind))) >= F.Block(QuantOf(kind))
  {
    NothingStored(kind);
    NoFactorZero(e, n);
    NotStored(kind, n);
    PackedUsed(kind, e * n);
    assert QuantOf(kind) >= 7;
    F.BytesOf(QuantOf(kind), n);
    F.BytesOf(QuantOf(kind), e * n);
    hide StoredBytes, QuantOf, Supported, F.PackedBytes, F.Block;
    assert n % F.Block(QuantOf(kind)) == n;
  }

  /** Such slices do not load. */
  lemma TinySlices(file: File, t: Data, info: Info, n: nat, count: nat)
    requires Supported(info.kind) && StoredBytes(info.kind, n) == 0 && count > 0
    ensures Joined(file, t, info, n, count).None?
  {
    hide StoredBytes, QuantOf, Supported;
    assert RawAt(file, t, Site(info, n, count - 1, true)).Failure?;
  }

  lemma BankAt(file: File, t: Data, info: Info, n: nat)
    requires RawAt(file, t, Site(info, n, 0, false)).Success?
    ensures Supported(info.kind) && StoredBytes(info.kind, n) > 0
    ensures var at, b := file.dataOffset + info.offset, StoredBytes(info.kind, n);
      at + b <= |t| && RawAt(file, t, Site(info, n, 0, false)).value.bytes == t[at..at + b]
  {
    NothingStored(info.kind);
    assert 0 * n == 0;
  }

  // ----- naming slices -----

  lemma {:induction false} MarkFound(key: string, rest: string, i: nat)
    requires i <= |key| && FindMark(key, i) == |key|
    ensures FindMark(key + MARK + rest, i) == |key|
    decreases |key| - i
  {
    var name := key + MARK + rest;
    if i == |key| {
      assert name[i..i + 3] == MARK;
    } else {
      assert name[i..i + 3] != MARK by {
        if i + 3 <= |key| {
          assert name[i..i + 3] == key[i..i + 3];
        } else if i + 2 == |key| {
          assert name[i..i + 3][2] == '#';
        } else {
          assert name[i..i + 3][1] == '#';
        }
      }
      if i + 3 > |key| { Short(key, i + 1); }
      MarkFound(key, rest, i + 1);
    }
  }

  lemma Short(key: string, i: nat)
    requires i <= |key| < i + 3
    ensures FindMark(key, i) == |key|
  {}

  lemma Cuts(key: string, digits: string)
    ensures (key + MARK + digits)[..|key|] == key && (key + MARK + digits)[|key| + 3..] == digits
  {
    var name := key + MARK + digits;
    assert name[..|key|] == key;
    assert name[|key| + 3..] == digits;
  }

  lemma {:induction false} PrefixUnmarked(name: string, i: nat)
    requires i <= FindMark(name, 0) && FindMark(name, i) == FindMark(name, 0) <= |name|
    ensures FindMark(name[..FindMark(name, 0)], i) == FindMark(name, 0)
    decreases |name| - i
  {
    var at := FindMark(name, 0);
    if i + 3 <= at {
      assert name[..at][i..i + 3] == name[i..i + 3];
      PrefixUnmarked(name, i + 1);
    }
  }

  /** No tensor of the file carries this name. */
  predicate Absent(infos: seq<Info>, key: string) { forall j :: 0 <= j < |infos| ==> infos[j].name != key }

  lemma {:induction false} FoundUnlessAbsent(infos: seq<Info>, key: string)
    ensures FindInfo(infos, key).None? <==> Absent(infos, key)
  {
    if infos != [] {
      FoundUnlessAbsent(infos[1..], key);
      assert forall j :: 1 <= j < |infos| ==> infos[j] == infos[1..][j - 1];
      assert forall j :: 0 <= j < |infos| - 1 ==> infos[1..][j] == infos[j + 1];
    }
  }

  /**
   A name that holds the mark never names a tensor of its own: it loads from the tensor named by the part before
   the mark, all of it if the number after the mark is negative, and is not found exactly when no tensor has that name.
   */
  lemma {:induction false} MarkedName(file: File, t: Data, name: string, atoi: Atoi, unpack: Unpack)
    requires !Unmarked(name)
    ensures var (key, e) := ParseSlice(name, atoi);
      && Unmarked(key) && |key| < |name|
      && (LoadF32(file, t, name, atoi, unpack) == Failure(NotFound) <==> Absent(file.infos, key))
      && (LoadRaw(file, t, name, atoi) == Failure(NotFound) <==> Absent(file.infos, key))
      && (e < 0 ==> LoadF32(file, t, name, atoi, unpack) == LoadF32(file, t, key, atoi, unpack) && LoadRaw(file, t, name, atoi) == LoadRaw(file, t, key, atoi))
  {
    var (key, e) := ParseSlice(name, atoi);
    PrefixUnmarked(name, 0);
    FoundUnlessAbsent(file.infos, key);
    hide Numel, StoredBytes, FindMark, FindInfo, Absent;
  }

  /** `key#e=digits` names slice number atoi(digits) of the bank that `key` names. */
  lemma SliceNamed(file: File, t: Data, key: string, digits: string, atoi: Atoi, info: Info)
    requires Unmarked(key) && FindInfo(file.infos, key) == Some(info) && |info.dims| >= 3
    requires var full, count := Numel(info.dims, |info.dims|), info.dims[|info.dims| - 1];
      count > 0 && full % count == 0 && 0 <= atoi(digits) < count
    ensures var full, count := Numel(info.dims, |info.dims|), info.dims[|info.dims| - 1];
      && full == count * (full / count)
      && LoadRaw(file, t, key, atoi) == RawAt(file, t, Site(info, full, 0, false))
      && LoadRaw(file, t, key + MARK + digits, atoi) == RawAt(file, t, Site(info, full / count, atoi(digits), true))
  {
    hide RawAt, Numel;
    var name := key + MARK + digits;
    MarkFound(key, digits, 0);
    Cuts(key, digits);
  }

  /** Eight-bit banks: slices past the first start in the wrong place, because their offset is counted in 32-bit numbers. */
  lemma Int8Slices(file: File, info: Info, n: nat, e: nat)
    requires info.kind == 24
    ensures Site(info, n, e, true).Start(file) == file.dataOffset + info.offset + e * n <==> e * n == 0
  {
    assert F.PackedBytes(0, e * n) == e * n * 4;
  }

  // ----- writing and loading -----

  /** A tensor handed to the writer; floats are bit patterns. */
  datatype Source = Source(name: string, dims: seq<nat>, data: seq<nat>)

  function EncBlobs(): Source -> Data { (s: Source) => EncMany(EncWords(), s.data, |s.data|) }

  function Offset(ts: seq<Source>, i: nat): nat
    requires i <= |ts|
  {
    if i == 0 then 0 else Offset(ts, i - 1) + 4 * |ts[i - 1].data|
  }

  /** What the writer records: always 32-bit floats, one after the other. */
  function InfoAt(ts: seq<Source>, i: nat): Info
    requires i < |ts|
  {
    Info(ts[i].name, ts[i].dims, 0, Offset(ts, i) % TWO64)
  }

  function Infos(ts: seq<Source>): (r: seq<Info>)
    ensures |r| == |ts| && forall i :: 0 <= i < |ts| ==> r[i] == InfoAt(ts, i)
  {
    seq(|ts|, i requires 0 <= i < |ts| => InfoAt(ts, i))
  }

  function Zeros(n: nat): (r: Data)
    ensures |r| == n
  {
    seq(n, _ => 0)
  }

  function FileBytes(kvs: seq<Entry>, ts: seq<Source>): Data {
    var h := EncHeader(kvs, Infos(ts));
    h + Zeros(Padding(|h|)) + EncMany(EncBlobs(), ts, |ts|)
  }

  predicate FileFits(kvs: seq<Entry>, ts: seq<Source>) {
    && HeaderFits(kvs, Infos(ts)) && |EncHeader(kvs, Infos(ts))| + 31 < TWO64 && Offset(ts, |ts|) < TWO64
    && forall i :: 0 <= i < |ts| ==> forall d :: 0 <= d < |ts[i].data| ==> ts[i].data[d] < TWO32
  }

  /** The file a reader sees after a write. */
  function ReadBack(m: map<string, Value>, kvs: seq<Entry>, ts: seq<Source>): File {
    var h := |EncHeader(kvs, Infos(ts))|;
    File(3, WrittenMap(m), Infos(ts), h + Padding(h))
  }

  /** Reading the header of a written file, whatever order the entries were written in. */
  lemma HeaderRoundTrip(m: map<string, Value>, kvs: seq<Entry>, ts: seq<Source>)
    requires Lists(m, kvs) && FileFits(kvs, ts)
    ensures ReadHeader(FileBytes(kvs, ts)) == Success(ReadBack(m, kvs, ts))
  {
    hide At, EncHeader, DecHeader, HeaderFits, Lists, EncMany, FirstWins, Padding, Aligned, Zeros, Offset, WrittenMap;
    var h, t := EncHeader(kvs, Infos(ts)), FileBytes(kvs, ts);
    var rest := Zeros(Padding(|h|)) + EncMany(EncBlobs(), ts, |ts|);
    assert t == h + rest;
    StandsFirst(h, rest);
    HeaderReads(t, kvs, Infos(ts));
    MaskIsPadding(|h|);
    ListedMap(m, kvs);
  }

  lemma StandsFirst(w: Data, rest: Data)
    ensures At(w + rest, 0, w)
  {}

  lemma WordsGrow(t: Data, p: nat, n: nat)
    requires p + 4 * n + 4 <= |t|
    ensures Words(t, p, n + 1) == Words(t, p, n) + [Unlittle(t, p + 4 * n, 4)]
  {}

  lemma {:induction false} WordsBack(t: Data, p: nat, xs: seq<nat>, n: nat)
    requires n <= |xs| && (forall d :: 0 <= d < |xs| ==> xs[d] < TWO32) && At(t, p, EncMany(EncWords(), xs, n))
    ensures |EncMany(EncWords(), xs, n)| == 4 * n && p + 4 * n <= |t| && Words(t, p, n) == xs[..n]
  {
    if n == 0 {
      AtBound(t, p, []);
    } else {
      hide At, Words, Unlittle, Little;
      AtJoin(t, p, EncMany(EncWords(), xs, n - 1), U32(xs[n - 1]));
      WordsBack(t, p, xs, n - 1);
      Widths();
      LittleRoundTrip(t, p + 4 * (n - 1), xs[n - 1], 4);
      WordsGrow(t, p, n - 1);
      assert xs[..n] == xs[..n - 1] + [xs[n - 1]];
    }
  }

  lemma {:induction false} BlobSize(s: Source, n: nat)
    requires n <= |s.data|
    ensures |EncMany(EncWords(), s.data, n)| == 4 * n
  {
    if n > 0 { BlobSize(s, n - 1); }
  }

  /** Tensor `i` stands at its recorded offset. */
  lemma {:induction false} BlobStands(t: Data, p: nat, ts: seq<Source>, i: nat, n: nat)
    requires i < n <= |ts| && At(t, p, EncMany(EncBlobs(), ts, n))
    ensures At(t, p + Offset(ts, i), EncBlobs()(ts[i]))
  {
    hide At;
    AtJoin(t, p, EncMany(EncBlobs(), ts, n - 1), EncBlobs()(ts[n - 1]));
    if i < n - 1 {
      BlobStands(t, p, ts, i, n - 1);
    } else {
      BlobsSize(ts, n - 1);
    }
  }

  lemma {:induction false} BlobsSize(ts: seq<Source>, n: nat)
    requires n <= |ts|
    ensures |EncMany(EncBlobs(), ts, n)| == Offset(ts, n)
  {
    if n > 0 {
      BlobsSize(ts, n - 1);
      BlobSize(ts[n - 1], |ts[n - 1].data|);
    }
  }

  lemma {:induction false} OffsetGrows(ts: seq<Source>, i: nat, n: nat)
    requires i <= n <= |ts|
    ensures Offset(ts, i) <= Offset(ts, n)
  {
    if i < n { OffsetGrows(ts, i, n - 1); }
  }

  lemma {:induction false} FoundFirst(infos: seq<Info>, i: nat)
    requires i < |infos| && forall j :: 0 <= j < i ==> infos[j].name != infos[i].name
    ensures FindInfo(infos, infos[i].name) == Some(infos[i])
  {
    if i > 0 {
      assert infos[0].name != infos[i].name;
      assert infos[1..][i - 1] == infos[i];
      FoundFirst(infos[1..], i - 1);
    }
  }

  lemma WordsOfSlice(t: Data, p: nat, n: nat)
    requires p + 4 * n <= |t|
    ensures Words(t[p..p + 4 * n], 0, n) == Words(t, p, n)
  {
    var part := t[p..p + 4 * n];
    forall i | 0 <= i < n ensures Unlittle(part, 4 * i, 4) == Unlittle(t, p + 4 * i, 4) { UnlittleOfSlice(t, p, 4 * n, 4 * i, 4); }
  }

  lemma {:induction false} UnlittleOfSlice(t: Data, p: nat, len: nat, o: nat, n: nat)
    requires p + len <= |t| && o + n <= len
    ensures Unlittle(t[p..p + len], o, n) == Unlittle(t, p + o, n)
    decreases n
  {
    if n > 0 { UnlittleOfSlice(t, p, len, o + 1, n - 1); }
  }

  lemma BlobWords(t: Data, p: nat, ts: seq<Source>, i: nat)
    requires i < |ts| && (forall d :: 0 <= d < |ts[i].data| ==> ts[i].data[d] < TWO32) && At(t, p, EncMany(EncBlobs(), ts, |ts|))
    ensures p + Offset(ts, i) + 4 * |ts[i].data| <= |t| && Words(t, p + Offset(ts, i), |ts[i].data|) == ts[i].data
  {
    hide At, EncMany, Offset;
    BlobStands(t, p, ts, i, |ts|);
    WordsBack(t, p + Offset(ts, i), ts[i].data, |ts[i].data|);
    assert ts[i].data[..|ts[i].data|] == ts[i].data;
  }

  /** Tensor `i` of a written file, as bytes of the file. */
  lemma {:induction false} TensorStands(m: map<string, Value>, kvs: seq<Entry>, ts: seq<Source>, i: nat)
    requires FileFits(kvs, ts) && i < |ts|
    ensures var t, p := FileBytes(kvs, ts), ReadBack(m, kvs, ts).dataOffset + Offset(ts, i);
      p + 4 * |ts[i].data| <= |t| && Words(t, p, |ts[i].data|) == ts[i].data
    ensures Offset(ts, i) < TWO64 && ReadBack(m, kvs, ts).infos == Infos(ts)
  {
    hide EncHeader, Padding, Zeros, At, EncMany, WrittenMap, HeaderFits, Words, Offset;
    var h := EncHeader(kvs, Infos(ts));
    var front := h + Zeros(Padding(|h|));
    StandsLast(front, EncMany(EncBlobs(), ts, |ts|));
    BlobWords(FileBytes(kvs, ts), |front|, ts, i);
    OffsetGrows(ts, i, |ts|);
  }

  lemma StandsLast(front: Data, w: Data)
    ensures At(front + w, |front|, w)
  {}

  lemma FloatsAt(file: File, t: Data, site: Site, unpack: Unpack)
    requires site.info.kind == 0
    ensures var at := site.Start(file);
      NumbersAt(file, t, site, unpack) ==
        if at + 4 * site.n <= |t| then Success(Tensor32(Words(t, at, site.n), site.Shape())) else Failure(ShortFile)
  {
    if site.Start(file) + 4 * site.n <= |t| { WordsOfSlice(t, site.Start(file), site.n); }
  }

  lemma FloatsMatch(file: File, t: Data, site: Site, unpack: Unpack, data: seq<nat>)
    requires site.info.kind == 0 && site.Start(file) + 4 * |data| <= |t| && Words(t, site.Start(file), |data|) == data
    ensures NumbersAt(file, t, site, unpack) == Success(Tensor32(data, site.Shape())) <==> site.n == |data|
  {
    FloatsAt(file, t, site, unpack);
  }

  lemma {:induction false} WrittenSite(file: File, ts: seq<Source>, i: nat, atoi: Atoi)
    requires file.infos == Infos(ts) && i < |ts| && Unmarked(ts[i].name) && Offset(ts, i) < TWO64
    requires forall j :: 0 <= j < i ==> ts[j].name != ts[i].name
    ensures var site := Site(InfoAt(ts, i), Numel(ts[i].dims, |ts[i].dims|), 0, false);
      && Locate(file.infos, ts[i].name, atoi) == Success(site)
      && site.Start(file) == file.dataOffset + Offset(ts, i) && site.Shape() == ShapeOf(ts[i].dims)
  {
    FoundFirst(Infos(ts), i);
    hide FindInfo, FindMark, Numel, Offset, ShapeOf;
    NothingStored(0);
    assert 0 * Numel(ts[i].dims, |ts[i].dims|) == 0;
  }

  lemma LoadedAt(file: File, t: Data, name: string, atoi: Atoi, unpack: Unpack, site: Site, data: seq<nat>)
    requires Locate(file.infos, name, atoi) == Success(site) && site.info.kind == 0
    requires site.Start(file) + 4 * |data| <= |t| && Words(t, site.Start(file), |data|) == data
    ensures LoadF32(file, t, name, atoi, unpack) == Success(Tensor32(data, site.Shape())) <==> site.n == |data|
  {
    hide NumbersAt, Locate;
    FloatsMatch(file, t, site, unpack, data);
  }

  lemma {:induction false} LoadedBack(file: File, t: Data, ts: seq<Source>, i: nat, atoi: Atoi, unpack: Unpack)
    requires file.infos == Infos(ts) && i < |ts| && Unmarked(ts[i].name) && Offset(ts, i) < TWO64
    requires forall j :: 0 <= j < i ==> ts[j].name != ts[i].name
    requires file.dataOffset + Offset(ts, i) + 4 * |ts[i].data| <= |t| && Words(t, file.dataOffset + Offset(ts, i), |ts[i].data|) == ts[i].data
    ensures LoadF32(file, t, ts[i].name, atoi, unpack) == Success(Tensor32(ts[i].data, ShapeOf(ts[i].dims)))
       <==> Numel(ts[i].dims, |ts[i].dims|) == |ts[i].data|
  {
    assert InfoAt(ts, i).kind == 0;
    hide *;
    WrittenSite(file, ts, i, atoi);
    LoadedAt(file, t, ts[i].name, atoi, unpack, Locate(file.infos, ts[i].name, atoi).value, ts[i].data);
  }

  /** The first tensor of its name, whose dimensions multiply to the number of its numbers. */
  predicate Proper(ts: seq<Source>, i: nat) {
    i < |ts| && (forall j :: 0 <= j < i ==> ts[j].name != ts[i].name) && Numel(ts[i].dims, |ts[i].dims|) == |ts[i].data|
  }

  /** Loading tensor `i` of the written file by its name gives back its numbers and its dimensions, reversed. */
  ghost predicate Reloads(m: map<string, Value>, kvs: seq<Entry>, ts: seq<Source>, i: nat, atoi: Atoi, unpack: Unpack)
    requires i < |ts|
  {
    LoadF32(ReadBack(m, kvs, ts), FileBytes(kvs, ts), ts[i].name, atoi, unpack) == Success(Tensor32(ts[i].data, ShapeOf(ts[i].dims)))
  }

  /**
   Loading a written tensor by its name gives back the exact numbers and the reversed dimensions,
   exactly when the dimensions multiply to the number of numbers; a name that holds the slice mark is
   looked up by the part before it, and is not found when no tensor carries that part.
   */
  lemma {:induction false} TensorRoundTrip(m: map<string, Value>, kvs: seq<Entry>, ts: seq<Source>, i: nat, atoi: Atoi, unpack: Unpack)
    requires FileFits(kvs, ts) && i < |ts|
    requires forall j :: 0 <= j < i ==> ts[j].name != ts[i].name
    ensures Unmarked(ts[i].name) ==> (Reloads(m, kvs, ts, i, atoi, unpack) <==> Numel(ts[i].dims, |ts[i].dims|) == |ts[i].data|)
    ensures !Unmarked(ts[i].name) ==>
              (Misses(m, kvs, ts, i, atoi, unpack) <==> forall j :: 0 <= j < |ts| ==> ts[j].name != ParseSlice(ts[i].name, atoi).0)
  {
    hide *;
    if Unmarked(ts[i].name) { PlainReloads(m, kvs, ts, i, atoi, unpack); } else { MarkedMisses(m, kvs, ts, i, atoi, unpack); }
  }

  /** Loading tensor `i` of the written file by its name does not find it. */
  ghost predicate Misses(m: map<string, Value>, kvs: seq<Entry>, ts: seq<Source>, i: nat, atoi: Atoi, unpack: Unpack)
    requires i < |ts|
  {
    LoadF32(ReadBack(m, kvs, ts), FileBytes(kvs, ts), ts[i].name, atoi, unpack) == Failure(NotFound)
  }

  lemma {:induction false} ReloadsMeans(m: map<string, Value>, kvs: seq<Entry>, ts: seq<Source>, i: nat, atoi: Atoi, unpack: Unpack)
    requires i < |ts|
    ensures Reloads(m, kvs, ts, i, atoi, unpack) <==>
            LoadF32(ReadBack(m, kvs, ts), FileBytes(kvs, ts), ts[i].name, atoi, unpack) == Success(Tensor32(ts[i].data, ShapeOf(ts[i].dims)))
  {
    hide LoadF32, ReadBack, FileBytes, ShapeOf;
  }

  lemma {:induction false} PlainReloads(m: map<string, Value>, kvs: seq<Entry>, ts: seq<Source>, i: nat, atoi: Atoi, unpack: Unpack)
    requires FileFits(kvs, ts) && i < |ts| && Unmarked(ts[i].name)
    requires forall j :: 0 <= j < i ==> ts[j].name != ts[i].name
    ensures Reloads(m, kvs, ts, i, atoi, unpack) <==> Numel(ts[i].dims, |ts[i].dims|) == |ts[i].data|
  {
    hide *;
    ReloadsMeans(m, kvs, ts, i, atoi, unpack);
    TensorStands(m, kvs, ts, i);
    LoadedBack(ReadBack(m, kvs, ts), FileBytes(kvs, ts), ts, i, atoi, unpack);
  }

  lemma {:induction false} MarkedMisses(m: map<string, Value>, kvs: seq<Entry>, ts: seq<Source>, i: nat, atoi: Atoi, unpack: Unpack)
    requires i < |ts| && !Unmarked(ts[i].name)
    ensures Misses(m, kvs, ts, i, atoi, unpack) <==> forall j :: 0 <= j < |ts| ==> ts[j].name != ParseSlice(ts[i].name, atoi).0
  {
    hide LoadF32, LoadRaw, FileBytes, FindMark, Numel, ParseSlice, Unmarked, EncHeader, Padding, WrittenMap;
    MarkedName(ReadBack(m, kvs, ts), FileBytes(kvs, ts), ts[i].name, atoi, unpack);
    assert forall j :: 0 <= j < |ts| ==> Infos(ts)[j].name == ts[j].name;
  }

  /** The file of one scalar tensor of this name. */
  function Single(name: string): seq<Source> { [Source(name, [], [0])] }

  /** Every tensor of this name that is written and can be read back, in whatever file, is. */
  ghost predicate AlwaysReloads(name: string) {
    forall m, kvs, ts: seq<Source>, i: nat, atoi, unpack ::
      FileFits(kvs, ts) && Proper(ts, i) && ts[i].name == name ==> Reloads(m, kvs, ts, i, atoi, unpack)
  }

  /** A tensor that is written alone under a marked name is not found again. */
  lemma MarkedIsLost(m: map<string, Value>, name: string, atoi: Atoi, unpack: Unpack)
    requires FileFits([], Single(name)) && !Unmarked(name)
    ensures Proper(Single(name), 0)
    ensures LoadF32(ReadBack(m, [], Single(name)), FileBytes([], Single(name)), name, atoi, unpack) == Failure(NotFound)
  {
    hide LoadF32, FileBytes, FileFits, FindMark;
    TensorRoundTrip(m, [], Single(name), 0, atoi, unpack);
  }

  /** Tensors of a name reload in every file exactly when the name does not hold the slice mark. */
  lemma ReloadsIff(name: string)
    requires FileFits([], Single(name))
    ensures AlwaysReloads(name) <==> Unmarked(name)
  {
    hide LoadF32, FileBytes, FileFits, FindMark, Unmarked;
    if Unmarked(name) {
      forall m, kvs, ts: seq<Source>, i: nat, atoi, unpack | FileFits(kvs, ts) && Proper(ts, i) && ts[i].name == name
        ensures Reloads(m, kvs, ts, i, atoi, unpack)
      {
        TensorRoundTrip(m, kvs, ts, i, atoi, unpack);
      }
    } else {
      var atoi: Atoi, unpack: Unpack := (_: string) => 0, (_: nat, _: Data, _: nat) => None;
      MarkedIsLost(map[], name, atoi, unpack);
      assert !Reloads(map[], [], Single(name), 0, atoi, unpack);
    }
  }

  /** The file of the one tensor `a#e=0`: it can be written, and the tensor cannot be loaded. */
  lemma MarkedExample(m: map<string, Value>, atoi: Atoi, unpack: Unpack)
    ensures FileFits([], Single("a#e=0"))
    ensures LoadF32(ReadBack(m, [], Single("a#e=0")), FileBytes([], Single("a#e=0")), "a#e=0", atoi, unpack) == Failure(NotFound)
  {
    var name := "a#e=0";
    assert FindMark(name, 1) == 1 by { assert name[1..4] == MARK; }
    assert name[0..3] != MARK by { assert name[0..3][0] == 'a'; }
    SingleFits(name);
    MarkedIsLost(m, name, atoi, unpack);
  }

  lemma SingleFits(name: string)
    requires TextFits(name) && |name| < TWO32
    ensures FileFits([], Single(name))
  {
    var ts := Single(name);
    var info := InfoAt(ts, 0);
    assert Offset(ts, 0) == 0 && Offset(ts, 1) == 4;
    assert info == Info(name, [], 0, 0);
    Widths();
    assert |EncText(name)| == 8 + |name|;
    assert EncMany(EncId(), info.dims, 0) == [];
    assert |EncInfo(info)| == 8 + |name| + 16;
    assert EncMany(EncInfos(), Infos(ts), 1) == EncMany(EncInfos(), Infos(ts), 0) + EncInfo(info);
    assert |EncStart([], Infos(ts))| == 24;
    assert |EncHeader([], Infos(ts))| == 48 + |name|;
  }
}
