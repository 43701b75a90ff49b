/**
 The binary codec as the program runs it: a writer that appends to a buffer, a reader that
 advances a position, and the loops that move a graph through them. Each method is proved to do
 what the functions of BinaryIr say.
 */
module BinaryIo {
  import opened Layout
  import opened Within
  import opened Bytes
  import opened Entries
  import opened Ir
  import B = BinaryIr

  // ----- writing -----

  class Writer {
    var data: Data

    constructor ()
      ensures data == []
    {
      data := [];
    }

    /** The low `n` bytes of `v`, one at a time. */
    method Fixed(v: nat, n: nat)
      modifies this
      ensures data == old(data) + Little(v, n)
    {
      var rest := v;
      for i := 0 to n
        invariant data + Little(rest, n - i) == old(data) + Little(v, n)
      {
        assert data + Little(rest, n - i) == data + [rest % 256] + Little(rest / 256, n - i - 1);
        data := data + [rest % 256];
        rest := rest / 256;
      }
    }

    method PutU8(v: nat)
      modifies this
      ensures data == old(data) + U8(v)
    {
      Fixed(v, 1);
    }

    method PutU32(v: nat)
      modifies this
      ensures data == old(data) + U32(v)
    {
      Fixed(v, 4);
    }

    method PutU64(v: nat)
      modifies this
      ensures data == old(data) + U64(v)
    {
      Fixed(v, 8);
    }

    method PutI64(x: int)
      modifies this
      ensures data == old(data) + I64(x)
    {
      PutU64(AsUnsigned(x));
    }

    method PutStr(s: string)
      modifies this
      ensures data == old(data) + B.EncStr(s)
    {
      PutU32(|s| % TWO32);
      data := data + ToBytes(s);
    }

    method PutIds(xs: seq<nat>)
      modifies this
      ensures data == old(data) + B.EncList(EncId(), xs)
    {
      PutU32(|xs| % TWO32);
      for i := 0 to |xs|
        invariant data == old(data) + (B.Len(|xs|) + EncMany(EncId(), xs, i))
      {
        PutU64(xs[i]);
        Grows(old(data), B.Len(|xs|), EncMany(EncId(), xs, i), U64(xs[i]));
      }
    }

    method PutDims(xs: seq<int>)
      modifies this
      ensures data == old(data) + B.EncList(EncDim(), xs)
    {
      PutU32(|xs| % TWO32);
      for i := 0 to |xs|
        invariant data == old(data) + (B.Len(|xs|) + EncMany(EncDim(), xs, i))
      {
        PutI64(xs[i]);
        Grows(old(data), B.Len(|xs|), EncMany(EncDim(), xs, i), I64(xs[i]));
      }
    }

    method PutAttr(a: Attribute)
      requires a.Agrees()
      modifies this
      ensures data == old(data) + B.EncAttr(a)
    {
      hide Little, B.EncStr, B.EncList;
      PutStr(a.key);
      PutU8(B.KindCode(a.kind));
      match a.kind {
        case StringKind => PutStr(a.value.s);
        case IntKind => PutI64(a.value.i);
        case FloatKind => PutU64(a.value.bits);
        case BoolKind => PutU8(if a.value.b then 1 else 0);
        case IntsKind => PutDims(a.value.ints);
        case FloatsKind => PutIds(a.value.floats);
      }
    }

    method PutAttrs(xs: seq<Attribute>) returns (ok: bool)
      modifies this
      ensures ok <==> forall i :: 0 <= i < |xs| ==> xs[i].Agrees()
      ensures ok ==> data == old(data) + B.EncList(B.EncAttrs(), xs)
    {
      hide B.EncAttr;
      PutU32(|xs| % TWO32);
      for i := 0 to |xs|
        invariant data == old(data) + (B.Len(|xs|) + EncMany(B.EncAttrs(), xs, i))
        invariant forall k :: 0 <= k < i ==> xs[k].Agrees()
      {
        if !xs[i].Agrees() { return false; }
        PutAttr(xs[i]);
        Grows(old(data), B.Len(|xs|), EncMany(B.EncAttrs(), xs, i), B.EncAttr(xs[i]));
      }
      return true;
    }

    method PutTensor(x: Tensor)
      modifies this
      ensures data == old(data) + B.EncTensor(x)
    {
      hide Little, B.EncStr, B.EncList;
      PutU64(x.id);
      PutStr(x.name);
      PutU8(x.dtype);
      PutDims(x.dims);
      PutU8(x.hint);
      PutU8(if x.isWeight then 1 else 0);
      PutStr(x.weightRef);
    }

    method PutTensors(xs: seq<Tensor>)
      modifies this
      ensures data == old(data) + B.EncList(B.EncTensors(), xs)
    {
      hide B.EncTensor;
      PutU32(|xs| % TWO32);
      for i := 0 to |xs|
        invariant data == old(data) + (B.Len(|xs|) + EncMany(B.EncTensors(), xs, i))
      {
        PutTensor(xs[i]);
        Grows(old(data), B.Len(|xs|), EncMany(B.EncTensors(), xs, i), B.EncTensor(xs[i]));
      }
    }

    method PutNode(n: Node) returns (ok: bool)
      modifies this
      ensures ok <==> forall i :: 0 <= i < |n.attributes| ==> n.attributes[i].Agrees()
      ensures ok ==> data == old(data) + B.EncNode(n)
    {
      hide Little, B.EncStr, B.EncList;
      PutU64(n.id);
      PutStr(n.name);
      PutStr(n.opName);
      PutStr(n.opVersion);
      PutIds(n.inputs);
      PutIds(n.outputs);
      ok := PutAttrs(n.attributes);
    }

    method PutNodes(xs: seq<Node>) returns (ok: bool)
      modifies this
      ensures ok <==> forall i :: 0 <= i < |xs| ==> NodeAgrees(xs[i])
      ensures ok ==> data == old(data) + B.EncList(B.EncNodes(), xs)
    {
      hide B.EncNode;
      PutU32(|xs| % TWO32);
      for i := 0 to |xs|
        invariant data == old(data) + (B.Len(|xs|) + EncMany(B.EncNodes(), xs, i))
        invariant forall k :: 0 <= k < i ==> NodeAgrees(xs[k])
      {
        var fine := PutNode(xs[i]);
        if !fine { return false; }
        Grows(old(data), B.Len(|xs|), EncMany(B.EncNodes(), xs, i), B.EncNode(xs[i]));
      }
      return true;
    }

    method PutEntries(xs: seq<B.Entry>)
      modifies this
      ensures data == old(data) + B.EncList(B.EncEntry(), xs)
    {
      hide B.EncStr;
      PutU32(|xs| % TWO32);
      for i := 0 to |xs|
        invariant data == old(data) + (B.Len(|xs|) + EncMany(B.EncEntry(), xs, i))
      {
        PutStr(xs[i].0);
        PutStr(xs[i].1);
        Grows(old(data), B.Len(|xs|), EncMany(B.EncEntry(), xs, i), B.EncStr(xs[i].0) + B.EncStr(xs[i].1));
      }
    }
  }

  predicate NodeAgrees(n: Node) { forall i :: 0 <= i < |n.attributes| ==> n.attributes[i].Agrees() }

  method WriteFront(w: Writer, g: Graph)
    requires w.data == []
    modifies w
    ensures w.data == B.EncHeader(g.version) + B.EncNames(g)
  {
    hide Little, B.EncStr;
    w.data := w.data + B.MAGIC;
    w.PutU32(B.CODEC);
    w.PutU32(g.version.major);
    w.PutU32(g.version.minor);
    w.PutStr(g.name);
    w.PutStr(g.producer);
    w.PutStr(g.domain);
  }

  datatype WriteError = BadVariant

  /** Writing fails only on an attribute whose tag and value disagree: the variant access throws. */
  method GraphToBinary(g: Graph) returns (r: Result<Data, WriteError>)
    ensures r.Success? <==> forall i :: 0 <= i < |g.nodes| ==> NodeAgrees(g.nodes[i])
    ensures r.Success? ==> exists meta :: Lists(g.metadata, meta) && r.value == B.EncGraph(g, meta)
  {
    hide Little, B.EncStr, B.EncList, Lists, B.EncHeader, B.EncNames;
    var w := new Writer();
    WriteFront(w, g);
    w.PutTensors(g.tensors);
    var ok := w.PutNodes(g.nodes);
    if !ok { return Failure(BadVariant); }
    assert w.data == B.EncHeader(g.version) + B.EncNames(g) + B.EncBody(g);
    w.PutIds(g.inputs);
    w.PutIds(g.outputs);
    var meta := WalkEntries(g.metadata);
    w.PutEntries(meta);
    assert w.data == B.EncGraph(g, meta);
    return Success(w.data);
  }

  // ----- reading -----

  class Reader {
    const data: Data
    var pos: nat

    constructor (data: Data)
      ensures this.data == data && pos == 0
    {
      this.data, pos := data, 0;
    }

    /** `n` bytes, least significant first, each weighted by its place. */
    method Fixed(n: nat) returns (r: Result<nat, DecodeError>)
      modifies this
      ensures Follows(DecFixed(data, old(pos), n), r, pos)
    {
      if pos + n > |data| { return Failure(Truncated); }
      var x: nat, w: nat := 0, 1;
      for i := 0 to n
        invariant pos == old(pos) + i && pos + (n - i) <= |data|
        invariant Unlittle(data, old(pos), n) == x + w * Unlittle(data, pos, n - i)
      {
        var b: nat := data[pos];
        NextByte(data, pos, n - i, w);
        hide *;
        x := x + w * b;
        w := w * 256;
        pos := pos + 1;
      }
      return Success(x);
    }

    method GetU8() returns (r: Result<nat, DecodeError>)
      modifies this
      ensures Follows(DecU8(data, old(pos)), r, pos)
    {
      r := Fixed(1);
    }

    method GetU32() returns (r: Result<nat, DecodeError>)
      modifies this
      ensures Follows(DecU32(data, old(pos)), r, pos)
    {
      r := Fixed(4);
    }

    method GetU64() returns (r: Result<nat, DecodeError>)
      modifies this
      ensures Follows(DecU64(data, old(pos)), r, pos)
    {
      r := Fixed(8);
    }

    method GetI64() returns (r: Result<int, DecodeError>)
      modifies this
      ensures Follows(DecI64(data, old(pos)), r, pos)
    {
      var u := GetU64();
      if u.Failure? { return Failure(u.error); }
      return Success(AsSigned(u.value));
    }

    method GetStr() returns (r: Result<string, DecodeError>)
      modifies this
      ensures Follows(B.DecStr(data, old(pos)), r, pos)
    {
      var n := GetU32();
      if n.Failure? { return Failure(n.error); }
      if pos + n.value > |data| { return Failure(Truncated); }
      var s := FromBytes(data, pos, n.value);
      pos := pos + n.value;
      return Success(s);
    }

    method GetIds() returns (r: Result<seq<nat>, DecodeError>)
      modifies this
      ensures Follows(B.DecList(DecId(), data, old(pos)), r, pos)
    {
      hide DecFixed;
      var n := GetU32();
      if n.Failure? { return Failure(n.error); }
      ghost var start := pos;
      var xs: seq<nat> := [];
      for i := 0 to n.value
        invariant DecMany(DecId(), data, start, i) == Got(xs, pos)
      {
        var x := GetU64();
        if x.Failure? {
          ManyStops(DecId(), data, start, i + 1, n.value);
          return Failure(x.error);
        }
        xs := xs + [x.value];
      }
      return Success(xs);
    }

    method GetDims() returns (r: Result<seq<int>, DecodeError>)
      modifies this
      ensures Follows(B.DecList(DecDim(), data, old(pos)), r, pos)
    {
      hide DecFixed, DecI64;
      var n := GetU32();
      if n.Failure? { return Failure(n.error); }
      ghost var start := pos;
      var xs: seq<int> := [];
      for i := 0 to n.value
        invariant DecMany(DecDim(), data, start, i) == Got(xs, pos)
      {
        var x := GetI64();
        if x.Failure? {
          ManyStops(DecDim(), data, start, i + 1, n.value);
          return Failure(x.error);
        }
        xs := xs + [x.value];
      }
      return Success(xs);
    }

    method GetAttr() returns (r: Result<Attribute, DecodeError>)
      modifies this
      ensures Follows(B.DecAttr(data, old(pos)), r, pos)
    {
      hide DecFixed, B.DecStr, B.DecPayload;
      var key := GetStr();
      if key.Failure? { return Failure(key.error); }
      var code := GetU8();
      if code.Failure? { return Failure(code.error); }
      var payload := GetPayload(code.value);
      if payload.Failure? { return Failure(payload.error); }
      return Success(Attribute(key.value, payload.value.0, payload.value.1));
    }

    method GetPayload(code: nat) returns (r: Result<(AttrKind, AttrValue), DecodeError>)
      modifies this
      ensures Follows(B.DecPayload(data, old(pos), code), r, pos)
    {
      hide DecFixed, B.DecStr, B.DecList;
      match code {
        case 0 =>
          var s := GetStr();
          if s.Failure? { return Failure(s.error); }
          return Success((StringKind, StringValue(s.value)));
        case 1 =>
          var i := GetI64();
          if i.Failure? { return Failure(i.error); }
          return Success((IntKind, IntValue(i.value)));
        case 2 =>
          var bits := GetU64();
          if bits.Failure? { return Failure(bits.error); }
          return Success((FloatKind, FloatValue(bits.value)));
        case 3 =>
          var b := GetU8();
          if b.Failure? { return Failure(b.error); }
          return Success((BoolKind, BoolValue(b.value != 0)));
        case 4 =>
          var ints := GetDims();
          if ints.Failure? { return Failure(ints.error); }
          return Success((IntsKind, IntsValue(ints.value)));
        case 5 =>
          var floats := GetIds();
          if floats.Failure? { return Failure(floats.error); }
          return Success((FloatsKind, FloatsValue(floats.value)));
        case _ => return Failure(UnknownAttribute);
      }
    }

    method GetAttrs() returns (r: Result<seq<Attribute>, DecodeError>)
      modifies this
      ensures Follows(B.DecList(B.DecAttrs(), data, old(pos)), r, pos)
    {
      hide DecFixed, B.DecAttr;
      var n := GetU32();
      if n.Failure? { return Failure(n.error); }
      ghost var start := pos;
      var xs: seq<Attribute> := [];
      for i := 0 to n.value
        invariant DecMany(B.DecAttrs(), data, start, i) == Got(xs, pos)
      {
        var x := GetAttr();
        if x.Failure? {
          ManyStops(B.DecAttrs(), data, start, i + 1, n.value);
          return Failure(x.error);
        }
        xs := xs + [x.value];
      }
      return Success(xs);
    }

    method GetTensor() returns (r: Result<Tensor, DecodeError>)
      modifies this
      ensures Follows(B.DecTensor(data, old(pos)), r, pos)
    {
      hide DecFixed, B.DecStr, B.DecList;
      var id := GetU64();
      if id.Failure? { return Failure(id.error); }
      var name := GetStr();
      if name.Failure? { return Failure(name.error); }
      var dtype := GetU8();
      if dtype.Failure? { return Failure(dtype.error); }
      var dims := GetDims();
      if dims.Failure? { return Failure(dims.error); }
      var hint := GetU8();
      if hint.Failure? { return Failure(hint.error); }
      var isW := GetU8();
      if isW.Failure? { return Failure(isW.error); }
      var ref := GetStr();
      if ref.Failure? { return Failure(ref.error); }
      return Success(Tensor(id.value, name.value, dtype.value, dims.value, hint.value, isW.value != 0, ref.value, 0));
    }

    method GetTensors() returns (r: Result<seq<Tensor>, DecodeError>)
      modifies this
      ensures Follows(B.DecList(B.DecTensors(), data, old(pos)), r, pos)
    {
      hide DecFixed, B.DecTensor;
      var n := GetU32();
      if n.Failure? { return Failure(n.error); }
      ghost var start := pos;
      var xs: seq<Tensor> := [];
      for i := 0 to n.value
        invariant DecMany(B.DecTensors(), data, start, i) == Got(xs, pos)
      {
        var x := GetTensor();
        if x.Failure? {
          ManyStops(B.DecTensors(), data, start, i + 1, n.value);
          return Failure(x.error);
        }
        xs := xs + [x.value];
      }
      return Success(xs);
    }

    method GetNode() returns (r: Result<Node, DecodeError>)
      modifies this
      ensures Follows(B.DecNode(data, old(pos)), r, pos)
    {
      hide DecFixed, B.DecStr, B.DecList;
      var id := GetU64();
      if id.Failure? { return Failure(id.error); }
      var name := GetStr();
      if name.Failure? { return Failure(name.error); }
      var opName := GetStr();
      if opName.Failure? { return Failure(opName.error); }
      var opVersion := GetStr();
      if opVersion.Failure? { return Failure(opVersion.error); }
      var inputs := GetIds();
      if inputs.Failure? { return Failure(inputs.error); }
      var outputs := GetIds();
      if outputs.Failure? { return Failure(outputs.error); }
      var attributes := GetAttrs();
      if attributes.Failure? { return Failure(attributes.error); }
      return Success(Node(id.value, name.value, opName.value, opVersion.value, inputs.value, outputs.value, attributes.value));
    }

    method GetNodes() returns (r: Result<seq<Node>, DecodeError>)
      modifies this
      ensures Follows(B.DecList(B.DecNodes(), data, old(pos)), r, pos)
    {
      hide DecFixed, B.DecNode;
      var n := GetU32();
      if n.Failure? { return Failure(n.error); }
      ghost var start := pos;
      var xs: seq<Node> := [];
      for i := 0 to n.value
        invariant DecMany(B.DecNodes(), data, start, i) == Got(xs, pos)
      {
        var x := GetNode();
        if x.Failure? {
          ManyStops(B.DecNodes(), data, start, i + 1, n.value);
          return Failure(x.error);
        }
        xs := xs + [x.value];
      }
      return Success(xs);
    }

    /** The entries, and the map that assigning them one by one builds. */
    method GetMetadata() returns (r: Result<map<string, string>, DecodeError>)
      modifies this
      ensures match B.DecList(B.DecEntries(), data, old(pos))
              case Got(xs, e) => r == Success(B.AsMap(xs, |xs|)) && pos == e
              case Bad(error) => r == Failure(error)
    {
      hide DecFixed, B.DecStr;
      var n := GetU32();
      if n.Failure? { return Failure(n.error); }
      ghost var start := pos;
      ghost var xs: seq<B.Entry> := [];
      var m: map<string, string> := map[];
      for i := 0 to n.value
        invariant DecMany(B.DecEntries(), data, start, i) == Got(xs, pos) && |xs| == i
        invariant m == B.AsMap(xs, i)
      {
        var k := GetStr();
        if k.Failure? {
          ManyStops(B.DecEntries(), data, start, i + 1, n.value);
          return Failure(k.error);
        }
        var v := GetStr();
        if v.Failure? {
          ManyStops(B.DecEntries(), data, start, i + 1, n.value);
          return Failure(v.error);
        }
        m := m[k.value := v.value];
        AsMapGrows(xs, (k.value, v.value));
        xs := xs + [(k.value, v.value)];
      }
      return Success(m);
    }
  }

  lemma NextByte(t: Data, p: nat, n: nat, w: nat)
    requires 0 < n && p + n <= |t|
    ensures w * t[p] >= 0
    ensures w * Unlittle(t, p, n) == w * t[p] + w * 256 * Unlittle(t, p + 1, n - 1)
  {
    var b, rest := t[p], Unlittle(t, p + 1, n - 1);
    assert Unlittle(t, p, n) == b + 256 * rest;
    hide Unlittle;
    assert w * (b + 256 * rest) == w * b + w * (256 * rest);
    assert w * (256 * rest) == w * 256 * rest;
  }

  lemma AsMapGrows(xs: seq<B.Entry>, x: B.Entry)
    ensures B.AsMap(xs + [x], |xs| + 1) == B.AsMap(xs, |xs|)[x.0 := x.1]
  {
    AsMapPrefix(xs, xs + [x], |xs|);
  }

  lemma {:induction false} AsMapPrefix(xs: seq<B.Entry>, ys: seq<B.Entry>, n: nat)
    requires n <= |xs| && n <= |ys| && xs[..n] == ys[..n]
    ensures B.AsMap(xs, n) == B.AsMap(ys, n)
  {
    if n > 0 {
      assert xs[n - 1] == xs[..n][n - 1] == ys[n - 1];
      assert xs[..n - 1] == xs[..n][..n - 1] && ys[..n - 1] == ys[..n][..n - 1];
      AsMapPrefix(xs, ys, n - 1);
    }
  }

  method ReadHeader(r: Reader) returns (v: Result<Version, DecodeError>)
    requires r.pos == 0
    modifies r
    ensures Follows(B.DecHeader(r.data), v, r.pos)
  {
    if |r.data| < 16 || r.data[..4] != B.MAGIC { return Failure(NotUaii); }
    for i := 0 to 4
      invariant r.pos == i
    {
      var _ := r.GetU8();
    }
    var codec := r.GetU32();
    if codec.value != B.CODEC { return Failure(UnsupportedCodec); }
    var major := r.GetU32();
    var minor := r.GetU32();
    if !Compatible(Version(major.value, minor.value)) { return Failure(Incompatible); }
    return Success(Version(major.value, minor.value));
  }

  method GraphFromBinary(data: Data) returns (r: Result<Graph, DecodeError>)
    ensures match B.DecGraph(data) case Got(g, _) => r == Success(g) case Bad(e) => r == Failure(e)
  {
    hide B.DecHeader, B.DecStr, B.DecList, DecFixed, B.AsMap;
    var reader := new Reader(data);
    var version := ReadHeader(reader);
    if version.Failure? { return Failure(version.error); }
    var name := reader.GetStr();
    if name.Failure? { return Failure(name.error); }
    var producer := reader.GetStr();
    if producer.Failure? { return Failure(producer.error); }
    var domain := reader.GetStr();
    if domain.Failure? { return Failure(domain.error); }
    var tensors := reader.GetTensors();
    if tensors.Failure? { return Failure(tensors.error); }
    var nodes := reader.GetNodes();
    if nodes.Failure? { return Failure(nodes.error); }
    var inputs := reader.GetIds();
    if inputs.Failure? { return Failure(inputs.error); }
    var outputs := reader.GetIds();
    if outputs.Failure? { return Failure(outputs.error); }
    var metadata := reader.GetMetadata();
    if metadata.Failure? { return Failure(metadata.error); }
    return Success(Graph(version.value, name.value, producer.value, domain.value, tensors.value, nodes.value, inputs.value, outputs.value, metadata.value));
  }
}
