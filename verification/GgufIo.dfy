/**
 The GGUF container as the program runs it: a byte writer and a byte reader with a moving position,
 the recursive value reader, the file writer, and the two tensor loads. Each is proved to do what
 the functions of Gguf, GgufFile and GgufLoad say.
 */
module GgufIo {
  import opened Layout
  import opened Within
  import opened Bytes
  import opened Entries
  import opened Gguf
  import opened GgufFile
  import opened GgufLoad
  import opened GgufBlocks

  // ----- writing -----

  class ByteWriter {
    var data: Data

    constructor ()
      ensures data == []
    {
      data := [];
    }

    /** A value of `n` bytes, copied as it stands in memory. */
    method PutPod(v: nat, n: nat)
      modifies this
      ensures data == old(data) + Little(v, n)
    {
      data := data + Little(v, n);
    }

    method PutText(s: string)
      modifies this
      ensures data == old(data) + EncText(s)
    {
      hide Little;
      PutPod(|s|, 8);
      if s != [] { data := data + ToBytes(s); }
    }

    method PadTo32()
      modifies this
      ensures data == old(data) + Zeros(Padding(|old(data)|))
    {
      hide Zeros, Padding;
      ghost var k := 0;
      NoZeros(old(data));
      while |data| % 32 != 0
        invariant data == old(data) + Zeros(k)
        invariant k + Padding(|data|) == Padding(|old(data)|)
        decreases Padding(|data|)
      {
        OneZero(old(data), k);
        PaddingStep(|data|);
        data := data + [0];
        k := k + 1;
      }
      PaddingDone(|data|);
    }

    method PutTexts(xs: seq<string>)
      modifies this
      ensures data == old(data) + EncArray(8, EncTexts(), xs)
    {
      PutArrayStart(8, |xs|);
      for i := 0 to |xs|
        invariant data == old(data) + (ArrayStart(8, |xs|) + EncMany(EncTexts(), xs, i))
      {
        PutText(xs[i]);
        Grows(old(data), ArrayStart(8, |xs|), EncMany(EncTexts(), xs, i), EncText(xs[i]));
      }
    }

    method PutInt32s(xs: seq<int>)
      modifies this
      ensures data == old(data) + EncArray(5, EncInt32s(), xs)
    {
      PutArrayStart(5, |xs|);
      for i := 0 to |xs|
        invariant data == old(data) + (ArrayStart(5, |xs|) + EncMany(EncInt32s(), xs, i))
      {
        PutPod(Folded(xs[i], 4), 4);
        Grows(old(data), ArrayStart(5, |xs|), EncMany(EncInt32s(), xs, i), U32(Folded(xs[i], 4)));
      }
    }

    method PutInt64s(xs: seq<int>)
      modifies this
      ensures data == old(data) + EncArray(11, EncDim(), xs)
    {
      PutArrayStart(11, |xs|);
      for i := 0 to |xs|
        invariant data == old(data) + (ArrayStart(11, |xs|) + EncMany(EncDim(), xs, i))
      {
        PutPod(AsUnsigned(xs[i]), 8);
        Grows(old(data), ArrayStart(11, |xs|), EncMany(EncDim(), xs, i), I64(xs[i]));
      }
    }

    method PutFloats(xs: seq<nat>)
      modifies this
      ensures data == old(data) + EncArray(6, EncWords(), xs)
    {
      PutArrayStart(6, |xs|);
      for i := 0 to |xs|
        invariant data == old(data) + (ArrayStart(6, |xs|) + EncMany(EncWords(), xs, i))
      {
        PutPod(xs[i], 4);
        Grows(old(data), ArrayStart(6, |xs|), EncMany(EncWords(), xs, i), U32(xs[i]));
      }
    }

    method PutArrayStart(kind: nat, n: nat)
      modifies this
      ensures data == old(data) + ArrayStart(kind, n)
    {
      hide Little;
      PutPod(9, 4);
      PutPod(kind, 4);
      PutPod(n, 8);
    }

    /** The writer's choice by kind; what it does not handle becomes an empty string. */
    method PutValue(v: Value)
      modifies this
      ensures data == old(data) + EncValue(v)
    {
      hide Little, EncText, EncArray;
      match v
      case StrV(s) => PutTaggedText(s);
      case U32V(u) => PutTagged(4, u, 4);
      case I32V(i) => PutTagged(5, Folded(i, 4), 4);
      case F32V(bits) => PutTagged(6, bits, 4);
      case BoolV(b) => PutTagged(7, if b then 1 else 0, 1);
      case U64V(u) => PutTagged(10, u, 8);
      case StrsV(xs) => PutTexts(xs);
      case I32sV(xs) => PutInt32s(xs);
      case I64sV(xs) => PutInt64s(xs);
      case F32sV(xs) => PutFloats(xs);
      case _ => PutTaggedText("");
    }

    method PutTagged(kind: nat, v: nat, n: nat)
      modifies this
      ensures data == old(data) + (U32(kind) + Little(v, n))
    {
      hide Little;
      PutPod(kind, 4);
      PutPod(v, n);
    }

    method PutTaggedText(s: string)
      modifies this
      ensures data == old(data) + (U32(8) + EncText(s))
    {
      hide Little, EncText;
      PutPod(8, 4);
      PutText(s);
    }

    method PutEntries(kvs: seq<Entry>)
      modifies this
      ensures data == old(data) + EncMany(EncEntries(), kvs, |kvs|)
    {
      hide EncText, EncValue;
      for i := 0 to |kvs|
        invariant data == old(data) + EncMany(EncEntries(), kvs, i)
      {
        PutText(kvs[i].0);
        PutValue(kvs[i].1);
        Joins(old(data), EncMany(EncEntries(), kvs, i), EncText(kvs[i].0), EncValue(kvs[i].1));
      }
    }

    method PutInfo(info: Info)
      modifies this
      ensures data == old(data) + EncInfo(info)
    {
      hide Little, EncText;
      PutText(info.name);
      PutPod(|info.dims| % TWO32, 4);
      ghost var front := EncText(info.name) + U32(|info.dims| % TWO32);
      for d := 0 to |info.dims|
        invariant data == old(data) + (front + EncMany(EncId(), info.dims, d))
      {
        PutPod(info.dims[d], 8);
        Grows(old(data), front, EncMany(EncId(), info.dims, d), U64(info.dims[d]));
      }
      PutPod(info.kind, 4);
      PutPod(info.offset, 8);
    }

    /** Descriptions with running offsets. */
    method PutInfos(ts: seq<Source>)
      modifies this
      ensures data == old(data) + EncMany(EncInfos(), Infos(ts), |ts|)
    {
      hide EncInfo, Infos;
      ghost var at := 0;
      var offset := 0;
      for i := 0 to |ts|
        invariant at == Offset(ts, i) && offset == at % TWO64
        invariant data == old(data) + EncMany(EncInfos(), Infos(ts), i)
      {
        assert Infos(ts)[i] == Info(ts[i].name, ts[i].dims, 0, offset);
        PutInfo(Info(ts[i].name, ts[i].dims, 0, offset));
        Grows(old(data), [], EncMany(EncInfos(), Infos(ts), i), EncInfo(Infos(ts)[i]));
        WrapsOnce(at, 4 * |ts[i].data|);
        at := at + 4 * |ts[i].data|;
        offset := (offset + 4 * |ts[i].data|) % TWO64;
      }
    }

    method PutBlobs(ts: seq<Source>)
      modifies this
      ensures data == old(data) + EncMany(EncBlobs(), ts, |ts|)
    {
      for i := 0 to |ts|
        invariant data == old(data) + EncMany(EncBlobs(), ts, i)
      {
        ghost var before := data;
        PutBlob(ts[i].data);
        Grows(old(data), [], EncMany(EncBlobs(), ts, i), EncBlobs()(ts[i]));
      }
    }

    method PutBlob(xs: seq<nat>)
      modifies this
      ensures data == old(data) + EncMany(EncWords(), xs, |xs|)
    {
      for i := 0 to |xs|
        invariant data == old(data) + EncMany(EncWords(), xs, i)
      {
        PutPod(xs[i], 4);
        Grows(old(data), [], EncMany(EncWords(), xs, i), U32(xs[i]));
      }
    }
  }

  lemma NoZeros(before: Data)
    ensures before + Zeros(0) == before
  {}

  lemma OneZero(before: Data, k: nat)
    ensures before + Zeros(k) + [0] == before + Zeros(k + 1)
  {
    assert Zeros(k + 1) == Zeros(k) + [0];
  }

  lemma {:induction false} PaddingStep(n: nat)
    requires n % 32 != 0
    ensures Padding(n) == Padding(n + 1) + 1
  {
    var q, r := n / 32, n % 32;
    assert n + 1 == 32 * q + (r + 1);
    assert (n + 1) % 32 == if r == 31 then 0 else r + 1;
  }

  lemma PaddingDone(n: nat)
    requires n % 32 == 0
    ensures Padding(n) == 0
  {}

  function ArrayStart(kind: nat, n: nat): Data { U32(9) + U32(kind) + U64(n) }

  lemma {:induction false} WrapsOnce(a: nat, b: nat)
    ensures (a % TWO64 + b) % TWO64 == (a + b) % TWO64
  {
    assert a + b == TWO64 * (a / TWO64) + (a % TWO64 + b);
  }

  lemma Joins(before: Data, front: Data, a: Data, b: Data)
    ensures before + front + a + b == before + (front + (a + b))
  {}

  /** Writes a file; the metadata may go out in any order. */
  method GgufWrite(kv: map<string, Value>, ts: seq<Source>) returns (bytes: Data, kvs: seq<Entry>)
    ensures Lists(kv, kvs) && bytes == FileBytes(kvs, ts)
  {
    hide Little, Lists, EncMany, Padding, Zeros;
    var w := new ByteWriter();
    w.data := w.data + MAGIC;
    w.PutPod(3, 4);
    w.PutPod(|ts|, 8);
    w.PutPod(|kv|, 8);
    kvs := WalkEntries(kv);
    ListsLength(kv, kvs);
    assert w.data == EncStart(kvs, Infos(ts));
    w.PutEntries(kvs);
    w.PutInfos(ts);
    assert w.data == EncHeader(kvs, Infos(ts));
    w.PadTo32();
    w.PutBlobs(ts);
    bytes := w.data;
  }

  // ----- reading -----

  class ByteReader {
    const data: Data
    var pos: nat

    constructor (data: Data)
      ensures this.data == data && pos == 0
    {
      this.data, pos := data, 0;
    }

    method Seek(p: nat)
      modifies this
      ensures pos == p
    {
      pos := p;
    }

    /** A value of `n` bytes, copied as it stands in memory. */
    method ReadPod(n: nat) returns (r: Result<nat, DecodeError>)
      modifies this
      ensures Follows(DecFixed(data, old(pos), n), r, pos)
    {
      if pos + n > |data| { return Failure(Truncated); }
      var v := Unlittle(data, pos, n);
      pos := pos + n;
      return Success(v);
    }

    method ReadBytes(n: nat) returns (r: Result<Data, LoadError>)
      modifies this
      ensures r == Cut(data, old(pos), n)
    {
      if pos + n > |data| { return Failure(ShortFile); }
      r := Success(data[pos..pos + n]);
      pos := pos + n;
    }

    method ReadText() returns (r: Result<string, DecodeError>)
      modifies this
      ensures Follows(DecText(data, old(pos)), r, pos)
    {
      hide Unlittle;
      var n := ReadPod(8);
      if n.Failure? { return Failure(n.error); }
      if pos + n.value > |data| { return Failure(Truncated); }
      var s := FromBytes(data, pos, n.value);
      pos := pos + n.value;
      return Success(s);
    }

    method ReadValue(kind: nat) returns (r: Result<Value, DecodeError>)
      requires pos <= |data|
      modifies this
      ensures Follows(DecValue(data, old(pos), kind), r, pos)
      decreases |data| - pos, 1
    {
      hide DecText, DecFixed, DecArray;
      if kind == 8 {
        var s := ReadText();
        if s.Failure? { return Failure(s.error); }
        return Success(StrV(s.value));
      }
      if kind == 9 {
        r := ReadArray();
        return;
      }
      if Width(kind) == 0 { return Failure(UnknownValueType); }
      var u := ReadPod(Width(kind));
      if u.Failure? { return Failure(u.error); }
      return Success(Scalar(kind, u.value));
    }

    method ReadArray() returns (r: Result<Value, DecodeError>)
      requires pos <= |data|
      modifies this
      ensures Follows(DecArray(data, old(pos)), r, pos)
      decreases |data| - pos, 0
    {
      hide DecText, DecFixed, DecValue, DecMany;
      var et := ReadPod(4);
      if et.Failure? { return Failure(et.error); }
      var n := ReadPod(8);
      if n.Failure? { return Failure(n.error); }
      if et.value == 8 {
        var xs := ReadTexts(n.value);
        if xs.Failure? { return Failure(xs.error); }
        return Success(StrsV(xs.value));
      }
      if et.value == 5 {
        var xs := ReadInt32s(n.value);
        if xs.Failure? { return Failure(xs.error); }
        return Success(I32sV(xs.value));
      }
      if et.value == 11 {
        var xs := ReadInt64s(n.value);
        if xs.Failure? { return Failure(xs.error); }
        return Success(I64sV(xs.value));
      }
      if et.value == 6 {
        var xs := ReadWords(n.value);
        if xs.Failure? { return Failure(xs.error); }
        return Success(F32sV(xs.value));
      }
      r := SkipValues(et.value, n.value);
    }

    method SkipValues(kind: nat, n: nat) returns (r: Result<Value, DecodeError>)
      requires pos <= |data|
      modifies this
      ensures Follows(DecSkip(data, old(pos), kind, n), r, pos)
      decreases |data| - pos, 2
    {
      hide DecValue;
      ghost var start := pos;
      for i := 0 to n
        invariant start <= pos <= |data| && DecSkip(data, start, kind, n) == DecSkip(data, pos, kind, n - i)
      {
        var v := ReadValue(kind);
        if v.Failure? { return Failure(v.error); }
      }
      return Success(NoValue);
    }

    method ReadTexts(n: nat) returns (r: Result<seq<string>, DecodeError>)
      modifies this
      ensures Follows(DecMany(DecStrings(), data, old(pos), n), r, pos)
    {
      hide DecText;
      ghost var start := pos;
      var xs: seq<string> := [];
      for i := 0 to n
        invariant DecMany(DecStrings(), data, start, i) == Got(xs, pos)
      {
        var x := ReadText();
        if x.Failure? {
          ManyStops(DecStrings(), data, start, i + 1, n);
          return Failure(x.error);
        }
        xs := xs + [x.value];
      }
      return Success(xs);
    }

    method ReadInt32s(n: nat) returns (r: Result<seq<int>, DecodeError>)
      modifies this
      ensures Follows(DecMany(DecInt32s(), data, old(pos), n), r, pos)
    {
      hide DecFixed;
      ghost var start := pos;
      var xs: seq<int> := [];
      for i := 0 to n
        invariant DecMany(DecInt32s(), data, start, i) == Got(xs, pos)
      {
        var x := ReadPod(4);
        if x.Failure? {
          ManyStops(DecInt32s(), data, start, i + 1, n);
          return Failure(x.error);
        }
        xs := xs + [Unfolded(x.value, 4)];
      }
      return Success(xs);
    }

    method ReadInt64s(n: nat) returns (r: Result<seq<int>, DecodeError>)
      modifies this
      ensures Follows(DecMany(DecDim(), data, old(pos), n), r, pos)
    {
      hide DecFixed;
      ghost var start := pos;
      var xs: seq<int> := [];
      for i := 0 to n
        invariant DecMany(DecDim(), data, start, i) == Got(xs, pos)
      {
        var x := ReadPod(8);
        if x.Failure? {
          ManyStops(DecDim(), data, start, i + 1, n);
          return Failure(x.error);
        }
        xs := xs + [AsSigned(x.value)];
      }
      return Success(xs);
    }

    method ReadWords(n: nat) returns (r: Result<seq<nat>, DecodeError>)
      modifies this
      ensures Follows(DecMany(DecWords(), data, old(pos), n), r, pos)
    {
      hide DecFixed;
      ghost var start := pos;
      var xs: seq<nat> := [];
      for i := 0 to n
        invariant DecMany(DecWords(), data, start, i) == Got(xs, pos)
      {
        var x := ReadPod(4);
        if x.Failure? {
          ManyStops(DecWords(), data, start, i + 1, n);
          return Failure(x.error);
        }
        xs := xs + [x.value];
      }
      return Success(xs);
    }

    method ReadDims(n: nat) returns (r: Result<seq<nat>, DecodeError>)
      modifies this
      ensures Follows(DecMany(DecId(), data, old(pos), n), r, pos)
    {
      hide DecFixed;
      ghost var start := pos;
      var xs: seq<nat> := [];
      for i := 0 to n
        invariant DecMany(DecId(), data, start, i) == Got(xs, pos)
      {
        var x := ReadPod(8);
        if x.Failure? {
          ManyStops(DecId(), data, start, i + 1, n);
          return Failure(x.error);
        }
        xs := xs + [x.value];
      }
      return Success(xs);
    }

    method ReadInfo() returns (r: Result<Info, DecodeError>)
      modifies this
      ensures Follows(DecInfo(data, old(pos)), r, pos)
    {
      hide DecText, DecFixed, DecMany;
      var name := ReadText();
      if name.Failure? { return Failure(name.error); }
      var n := ReadPod(4);
      if n.Failure? { return Failure(n.error); }
      var dims := ReadDims(n.value);
      if dims.Failure? { return Failure(dims.error); }
      var kind := ReadPod(4);
      if kind.Failure? { return Failure(kind.error); }
      var offset := ReadPod(8);
      if offset.Failure? { return Failure(offset.error); }
      return Success(Info(name.value, dims.value, kind.value, offset.value));
    }

    method ReadInfos(n: nat) returns (r: Result<seq<Info>, DecodeError>)
      modifies this
      ensures Follows(DecMany(DecInfos(), data, old(pos), n), r, pos)
    {
      hide DecInfo;
      ghost var start := pos;
      var xs: seq<Info> := [];
      for i := 0 to n
        invariant DecMany(DecInfos(), data, start, i) == Got(xs, pos)
      {
        var x := ReadInfo();
        if x.Failure? {
          ManyStops(DecInfos(), data, start, i + 1, n);
          return Failure(x.error);
        }
        xs := xs + [x.value];
      }
      return Success(xs);
    }

    method ReadEntry() returns (r: Result<Entry, DecodeError>)
      modifies this
      ensures Follows(DecEntry(data, old(pos)), r, pos)
    {
      hide DecText, DecFixed, DecValue;
      var k := ReadText();
      if k.Failure? { return Failure(k.error); }
      var kind := ReadPod(4);
      if kind.Failure? { return Failure(kind.error); }
      var v := ReadValue(kind.value);
      if v.Failure? { return Failure(v.error); }
      return Success((k.value, v.value));
    }

    /** The entries into a map in which the first of a repeated key stays. */
    method ReadEntries(n: nat) returns (r: Result<map<string, Value>, DecodeError>)
      modifies this
      ensures match DecMany(DecEntries(), data, old(pos), n)
              case Got(xs, e) => r == Success(FirstWins(xs, |xs|)) && pos == e
              case Bad(error) => r == Failure(error)
    {
      hide DecEntry, FirstWins;
      ghost var start := pos;
      ghost var xs: seq<Entry> := [];
      var m: map<string, Value> := map[];
      NothingWins();
      for i := 0 to n
        invariant DecMany(DecEntries(), data, start, i) == Got(xs, pos) && |xs| == i
        invariant m == FirstWins(xs, i)
      {
        var x := ReadEntry();
        if x.Failure? {
          ManyStops(DecEntries(), data, start, i + 1, n);
          return Failure(x.error);
        }
        FirstWinsGrows(xs, x.value);
        if x.value.0 !in m { m := m[x.value.0 := x.value.1]; }
        xs := xs + [x.value];
      }
      return Success(m);
    }
  }

  lemma NothingWins()
    ensures FirstWins([], 0) == map[]
  {}

  lemma {:induction false} FirstWinsPrefix(xs: seq<Entry>, ys: seq<Entry>, n: nat)
    requires n <= |xs| && n <= |ys| && xs[..n] == ys[..n]
    ensures FirstWins(xs, n) == FirstWins(ys, n)
  {
    if n > 0 {
      assert xs[n - 1] == xs[..n][n - 1] == ys[n - 1];
      assert xs[..n - 1] == xs[..n][..n - 1] && ys[..n - 1] == ys[..n][..n - 1];
      FirstWinsPrefix(xs, ys, n - 1);
    }
  }

  lemma FirstWinsGrows(xs: seq<Entry>, x: Entry)
    ensures var m := FirstWins(xs, |xs|); FirstWins(xs + [x], |xs| + 1) == if x.0 in m then m else m[x.0 := x.1]
  {
    FirstWinsPrefix(xs, xs + [x], |xs|);
  }

  method GgufReadHeader(data: Data) returns (r: Result<File, DecodeError>)
    ensures r == ReadHeader(data)
  {
    hide DecFixed, DecMany, FirstWins, Aligned;
    var reader := new ByteReader(data);
    if |data| < 4 { return Failure(Truncated); }
    if data[..4] != MAGIC { return Failure(NotGguf); }
    reader.Seek(4);
    var version := reader.ReadPod(4);
    if version.Failure? { return Failure(version.error); }
    var tensors := reader.ReadPod(8);
    if tensors.Failure? { return Failure(tensors.error); }
    var entries := reader.ReadPod(8);
    if entries.Failure? { return Failure(entries.error); }
    var kv := reader.ReadEntries(entries.value);
    if kv.Failure? { return Failure(kv.error); }
    var infos := reader.ReadInfos(tensors.value);
    if infos.Failure? { return Failure(infos.error); }
    return Success(File(version.value, kv.value, infos.value, Aligned(reader.pos)));
  }

  // ----- loading -----

  method FindMarkFrom(name: string) returns (at: nat)
    ensures at == FindMark(name, 0)
  {
    at := 0;
    while at + 3 <= |name| && name[at..at + 3] != MARK
      invariant at <= |name| && FindMark(name, 0) == FindMark(name, at)
    {
      at := at + 1;
    }
    if at + 3 > |name| { at := |name|; }
  }

  method CountElements(dims: seq<nat>) returns (n: nat)
    ensures n == Numel(dims, |dims|)
  {
    n := 1;
    for k := 0 to |dims|
      invariant n == Numel(dims, k)
    {
      SpanIsProduct(n, dims[k]);
      n := n * dims[k] % TWO64;
    }
  }

  method Search(infos: seq<Info>, key: string) returns (r: Option<Info>)
    ensures r == FindInfo(infos, key)
  {
    for i := 0 to |infos|
      invariant FindInfo(infos, key) == FindInfo(infos[i..], key)
    {
      assert infos[i..][0] == infos[i] && infos[i..][1..] == infos[i + 1..];
      if infos[i].name == key { return Some(infos[i]); }
    }
    assert infos[|infos|..] == [];
    r := None;
  }

  /** The common start of both loads. */
  method LocateTensor(file: File, name: string, atoi: Atoi) returns (r: Result<Site, LoadError>)
    ensures r == Locate(file.infos, name, atoi)
  {
    hide FindMark, Numel, FindInfo;
    var at := FindMarkFrom(name);
    var key, expert := name, -1;
    if at != |name| {
      expert := atoi(name[at + 3..]);
      key := name[..at];
    }
    var found := Search(file.infos, key);
    if found.None? { return Failure(NotFound); }
    var info := found.value;
    var full := CountElements(info.dims);
    if expert < 0 { return Success(Site(info, full, 0, false)); }
    if |info.dims| < 3 { return Failure(NotBank); }
    var count := info.dims[|info.dims| - 1];
    if count == 0 || full % count != 0 || expert >= count { return Failure(SliceOutOfRange); }
    return Success(Site(info, full / count, expert, true));
  }

  method LoadTensorRaw(file: File, data: Data, name: string, atoi: Atoi) returns (r: Result<Raw, LoadError>)
    ensures r == LoadRaw(file, data, name, atoi)
    ensures RawIs(file, data, name, atoi, r)
  {
    hide Locate, StoredBytes, RawIs;
    LoadRawIs(file, data, name, atoi);
    var site := LocateTensor(file, name, atoi);
    if site.Failure? { return Failure(site.error); }
    var kind := site.value.info.kind;
    if !Supported(kind) { return Failure(Unsupported); }
    var size := StoredBytes(kind, site.value.n);
    if size == 0 { return Failure(Unsupported); }
    var reader := new ByteReader(data);
    reader.Seek(site.value.Start(file));
    var bytes := reader.ReadBytes(size);
    if bytes.Failure? { return Failure(bytes.error); }
    return Success(Raw(bytes.value, site.value.Shape(), kind));
  }

  method LoadTensorF32(file: File, data: Data, name: string, atoi: Atoi, unpack: Unpack) returns (r: Result<Tensor32, LoadError>)
    ensures r == LoadF32(file, data, name, atoi, unpack)
    ensures NumbersAre(file, data, name, atoi, unpack, r)
  {
    hide Locate, StoredBytes, Words, RawIs, NumbersAre;
    LoadF32Is(file, data, name, atoi, unpack);
    var located := LocateTensor(file, name, atoi);
    if located.Failure? { return Failure(located.error); }
    var site := located.value;
    var kind, n := site.info.kind, site.n;
    var reader := new ByteReader(data);
    reader.Seek(site.Start(file));
    if kind == 0 {
      var bytes := reader.ReadBytes(n * 4);
      if bytes.Failure? { return Failure(bytes.error); }
      return Success(Tensor32(Words(bytes.value, 0, n), site.Shape()));
    }
    if (kind == 8 || kind == 2) && n % 32 != 0 { return Failure(NotBlocks); }
    if kind == 1 || kind == 8 || kind == 2 || kind == 24 {
      var size := if kind == 1 then n * 2 else if kind == 8 then n / 32 * 34 else if kind == 2 then n / 32 * 18 else n;
      var bytes := reader.ReadBytes(size);
      if bytes.Failure? { return Failure(bytes.error); }
      r := Unpacked(unpack, site, bytes.value);
      return;
    }
    if !Supported(kind) { return Failure(Unsupported); }
    var raw := LoadTensorRaw(file, data, name, atoi);
    if raw.Failure? { return Failure(raw.error); }
    r := Unpacked(unpack, site, raw.value.bytes);
  }
}
