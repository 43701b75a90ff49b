/**
 The file formats in their own bytes and names: integers byte by byte, one small record of each kind
 in the binary IR and in GGUF, the keys and defaults of the JSON form, and which of two entries with
 one key a reader keeps.
 */
module Wire {
  import opened Layout
  import opened Bytes
  import opened Ir
  import B = BinaryIr
  import G = Gguf
  import GF = GgufFile
  import J = GraphJson
  import N = Names
  import opened Json

  // ----- integers -----

  lemma Digit(v: nat, n: nat)
    requires n > 0
    ensures Little(v, n) == [v % 256] + Little(v / 256, n - 1)
  {}

  lemma Digits(v: nat, n: nat)
    ensures Little(v, n + 4) == [v % 256, v / 256 % 256, v / 256 / 256 % 256, v / 256 / 256 / 256 % 256] + Little(v / 256 / 256 / 256 / 256, n)
  {
    hide Little;
    var a, b, c := v / 256, v / 256 / 256, v / 256 / 256 / 256;
    Digit(v, n + 4);
    Digit(a, n + 3);
    Digit(b, n + 2);
    Digit(c, n + 1);
  }

  /** Integers are written with the least significant byte first. */
  lemma LittleDigits(v: nat)
    ensures U8(v) == [v % 256]
    ensures U32(v) == [v % 256, v / 256 % 256, v / 256 / 256 % 256, v / 256 / 256 / 256 % 256]
    ensures U64(v) == U32(v) + U32(v / 256 / 256 / 256 / 256)
  {
    Digits(v, 0);
    Digits(v, 4);
    Digits(v / 256 / 256 / 256 / 256, 0);
  }

  /** Small unsigned numbers. */
  lemma Small(v: nat)
    requires v < 256
    ensures U8(v) == [v] && U32(v) == [v, 0, 0, 0] && U64(v) == [v, 0, 0, 0, 0, 0, 0, 0]
  {
    LittleDigits(v);
    LittleDigits(0);
  }

  /** Signed numbers are written in two's complement. */
  lemma SignedDigits(x: int)
    requires InInt64(x)
    ensures I64(x) == U64(if x < 0 then x + 0x1_0000_0000_0000_0000 else x)
  {
    hide U64;
    if x < 0 { assert x % TWO64 == x + TWO64; }
  }

  // ----- the binary IR -----

  lemma Letter(c: char)
    requires c as int < 256
    ensures B.EncStr([c]) == [1, 0, 0, 0] + [c as int]
  {
    Small(1);
    assert ToBytes([c]) == [c as int];
  }

  lemma Few<T>(e: T -> Data, x: T)
    ensures EncMany(e, [], 0) == [] && EncMany(e, [x], 1) == e(x)
    ensures B.EncList(e, []) == [0, 0, 0, 0] && B.EncList(e, [x]) == [1, 0, 0, 0] + e(x)
  {
    Small(0);
    Small(1);
    assert EncMany(e, [x], 0) == [];
    assert [] + e(x) == e(x);
    assert B.Len(0) + [] == [0, 0, 0, 0];
  }

  /** A tensor: id, name, element type, dimensions, storage hint, weight flag, weight name. */
  lemma TensorBytes(quant: nat)
    ensures B.EncTensor(Tensor(7, "w", 1, [3], 2, true, "r", quant)) ==
            ([7, 0, 0, 0, 0, 0, 0, 0] + ([1, 0, 0, 0] + [119]) + [1])
            + ([1, 0, 0, 0] + [3, 0, 0, 0, 0, 0, 0, 0])
            + ([2] + [1] + ([1, 0, 0, 0] + [114]))
  {
    hide U8, U64, EncMany, B.EncStr, B.EncList;
    Small(7);
    Small(1);
    Small(2);
    Letter('w');
    Letter('r');
    Few(EncDim(), 3);
    assert EncDim()(3) == U64(3);
    Small(3);
  }

  /** An attribute: key, kind, payload. */
  lemma AttributeBytes()
    ensures B.EncAttr(Attribute("k", StringKind, StringValue("v"))) == ([1, 0, 0, 0] + [107]) + [0] + ([1, 0, 0, 0] + [118])
    ensures B.EncAttr(Attribute("k", IntKind, IntValue(5))) == ([1, 0, 0, 0] + [107]) + [1] + [5, 0, 0, 0, 0, 0, 0, 0]
    ensures B.EncAttr(Attribute("k", FloatKind, FloatValue(6))) == ([1, 0, 0, 0] + [107]) + [2] + [6, 0, 0, 0, 0, 0, 0, 0]
    ensures B.EncAttr(Attribute("k", BoolKind, BoolValue(true))) == ([1, 0, 0, 0] + [107]) + [3] + [1]
    ensures B.EncAttr(Attribute("k", IntsKind, IntsValue([5]))) == ([1, 0, 0, 0] + [107]) + [4] + ([1, 0, 0, 0] + [5, 0, 0, 0, 0, 0, 0, 0])
    ensures B.EncAttr(Attribute("k", FloatsKind, FloatsValue([6]))) == ([1, 0, 0, 0] + [107]) + [5] + ([1, 0, 0, 0] + [6, 0, 0, 0, 0, 0, 0, 0])
  {
    hide U8, U64, EncMany, B.EncStr, B.EncList;
    Letter('k');
    Letter('v');
    Small(0);
    Small(1);
    Small(2);
    Small(3);
    Small(4);
    Small(5);
    Small(6);
    Few(EncDim(), 5);
    Few(EncId(), 6);
    assert EncDim()(5) == U64(5);
  }

  /** A node: id, name, operator, version, inputs, outputs, attributes. */
  lemma NodeBytes()
    ensures B.EncNode(Node(9, "n", "o", "1", [4], [5], [])) ==
            ([9, 0, 0, 0, 0, 0, 0, 0] + ([1, 0, 0, 0] + [110]) + ([1, 0, 0, 0] + [111])) + ([1, 0, 0, 0] + [49])
            + (([1, 0, 0, 0] + [4, 0, 0, 0, 0, 0, 0, 0]) + ([1, 0, 0, 0] + [5, 0, 0, 0, 0, 0, 0, 0]) + [0, 0, 0, 0])
  {
    hide U8, U64, EncMany, B.EncStr, B.EncList;
    Letter('n');
    Letter('o');
    Letter('1');
    Small(9);
    Small(4);
    Small(5);
    Few(EncId(), 4);
    Few(EncId(), 5);
    Few(B.EncAttrs(), Attribute("", BoolKind, BoolValue(true)));
  }

  /** A graph: magic, codec and version numbers, its three names, tensors, nodes, inputs, outputs, metadata. */
  lemma GraphBytes(meta: map<string, string>)
    ensures B.EncGraph(Graph(Version(1, 0), "a", "b", "c", [], [], [4], [5], meta), [("k", "v")]) ==
            (([85, 65, 73, 82] + [1, 0, 0, 0] + ([1, 0, 0, 0] + [0, 0, 0, 0]))
             + (([1, 0, 0, 0] + [97]) + ([1, 0, 0, 0] + [98]) + ([1, 0, 0, 0] + [99]))
             + ([0, 0, 0, 0] + [0, 0, 0, 0]))
            + (([1, 0, 0, 0] + [4, 0, 0, 0, 0, 0, 0, 0]) + ([1, 0, 0, 0] + [5, 0, 0, 0, 0, 0, 0, 0])
               + ([1, 0, 0, 0] + (([1, 0, 0, 0] + [107]) + ([1, 0, 0, 0] + [118]))))
  {
    hide U8, U32, U64, EncMany, B.EncStr, B.EncList;
    Letter('a');
    Letter('b');
    Letter('c');
    Letter('k');
    Letter('v');
    Small(0);
    Small(1);
    Small(4);
    Small(5);
    Few(EncId(), 4);
    Few(EncId(), 5);
    Few(B.EncEntry(), ("k", "v"));
    Few(B.EncTensors(), Tensor(0, "", 0, [], 0, false, "", 0));
    Few(B.EncNodes(), Node(0, "", "", "", [], [], []));
  }

  /** One version is readable: 1.0. */
  lemma Readable(v: Version)
    ensures Compatible(v) <==> v == Version(1, 0)
  {}

  /** Which bytes are refused at their start: other magic numbers and short files, other codec numbers, other versions than 1.0. */
  lemma StartChecks(t: Data)
    ensures |t| < 16 || t[..4] != [85, 65, 73, 82] ==> B.DecGraph(t) == Bad(NotUaii)
    ensures |t| >= 16 && t[..4] == [85, 65, 73, 82] && Unlittle(t, 4, 4) != 1 ==> B.DecGraph(t) == Bad(UnsupportedCodec)
    ensures |t| >= 16 && t[..4] == [85, 65, 73, 82] && Unlittle(t, 4, 4) == 1 && !(Unlittle(t, 8, 4) == 1 && Unlittle(t, 12, 4) == 0) ==>
              B.DecGraph(t) == Bad(Incompatible)
    ensures |t| >= 16 && t[..4] == [85, 65, 73, 82] && Unlittle(t, 4, 4) == 1 && Unlittle(t, 8, 4) == 1 && Unlittle(t, 12, 4) == 0 ==>
              B.DecHeader(t) == Got(Version(1, 0), 16)
  {
    hide Unlittle, B.DecStr, B.DecList, B.AsMap, Pow256;
  }

  /** An attribute's kind is one of six numbers. */
  lemma KindsKnown(t: Data, p: nat, code: nat)
    ensures code > 5 <==> B.DecPayload(t, p, code) == Bad(UnknownAttribute)
  {
    hide B.DecStr, B.DecList, DecFixed;
    NotUnknown(t, p);
  }

  lemma {:induction false} ManyNotUnknown<T>(d: (Data, nat) -> Dec<T>, t: Data, p: nat, n: nat)
    requires forall q: nat :: d(t, q) != Bad(UnknownAttribute)
    ensures DecMany(d, t, p, n) != Bad(UnknownAttribute)
  {
    if n > 0 { ManyNotUnknown(d, t, p, n - 1); }
  }

  lemma NotUnknown(t: Data, p: nat)
    ensures B.DecStr(t, p) != Bad(UnknownAttribute) && DecI64(t, p) != Bad(UnknownAttribute) && DecU64(t, p) != Bad(UnknownAttribute) && DecU8(t, p) != Bad(UnknownAttribute)
    ensures B.DecList(DecDim(), t, p) != Bad(UnknownAttribute) && B.DecList(DecId(), t, p) != Bad(UnknownAttribute)
  {
    var n := DecU32(t, p);
    if n.Got? {
      ManyNotUnknown(DecDim(), t, n.end, n.value);
      ManyNotUnknown(DecId(), t, n.end, n.value);
    }
    hide DecMany, Unlittle;
  }

  // ----- GGUF -----

  lemma Text1(c: char)
    requires c as int < 256
    ensures G.EncText([c]) == [1, 0, 0, 0, 0, 0, 0, 0] + [c as int]
  {
    Small(1);
    assert ToBytes([c]) == [c as int];
  }

  lemma Array1<T>(kind: nat, e: T -> Data, x: T)
    requires kind < 256
    ensures G.EncArray(kind, e, [x]) == [9, 0, 0, 0] + [kind, 0, 0, 0] + [1, 0, 0, 0, 0, 0, 0, 0] + e(x)
  {
    hide U32, U64;
    Small(9);
    Small(kind);
    Small(1);
    Few(e, x);
  }

  lemma Fives()
    ensures U8(1) == [1] && U32(5) == [5, 0, 0, 0] && U64(5) == [5, 0, 0, 0, 0, 0, 0, 0] && G.Folded(5, 4) == 5
  {
    Widths();
    hide U8, U32, U64, Pow256;
    Small(1);
    Small(5);
  }

  /** The scalar metadata values that are written, each after its type. */
  lemma ValueBytes()
    ensures G.EncValue(G.U32V(5)) == [4, 0, 0, 0] + [5, 0, 0, 0] && G.EncValue(G.I32V(5)) == [5, 0, 0, 0] + [5, 0, 0, 0]
    ensures G.EncValue(G.F32V(5)) == [6, 0, 0, 0] + [5, 0, 0, 0] && G.EncValue(G.BoolV(true)) == [7, 0, 0, 0] + [1]
    ensures G.EncValue(G.StrV("s")) == [8, 0, 0, 0] + ([1, 0, 0, 0, 0, 0, 0, 0] + [115])
    ensures G.EncValue(G.U64V(5)) == [10, 0, 0, 0] + [5, 0, 0, 0, 0, 0, 0, 0]
  {
    hide U8, U32, U64, EncMany, G.EncText, G.EncArray, G.Folded;
    Fives();
    Small(4);
    Small(6);
    Small(7);
    Small(8);
    Small(10);
    Text1('s');
  }

  lemma OneItem()
    ensures G.EncInt32s()(5) == [5, 0, 0, 0] && G.EncWords()(5) == [5, 0, 0, 0] && EncDim()(5) == [5, 0, 0, 0, 0, 0, 0, 0]
    ensures G.EncTexts()("s") == [1, 0, 0, 0, 0, 0, 0, 0] + [115]
  {
    hide U8, U32, U64, G.EncText, G.Folded;
    Fives();
    Text1('s');
    assert EncDim()(5) == U64(5);
  }

  /** The arrays, after their element type and length. */
  lemma ArrayBytes()
    ensures G.EncValue(G.I32sV([5])) == [9, 0, 0, 0] + [5, 0, 0, 0] + [1, 0, 0, 0, 0, 0, 0, 0] + [5, 0, 0, 0]
    ensures G.EncValue(G.F32sV([5])) == [9, 0, 0, 0] + [6, 0, 0, 0] + [1, 0, 0, 0, 0, 0, 0, 0] + [5, 0, 0, 0]
    ensures G.EncValue(G.StrsV(["s"])) == [9, 0, 0, 0] + [8, 0, 0, 0] + [1, 0, 0, 0, 0, 0, 0, 0] + ([1, 0, 0, 0, 0, 0, 0, 0] + [115])
    ensures G.EncValue(G.I64sV([5])) == [9, 0, 0, 0] + [11, 0, 0, 0] + [1, 0, 0, 0, 0, 0, 0, 0] + [5, 0, 0, 0, 0, 0, 0, 0]
  {
    hide U8, U32, U64, EncMany, G.EncText, G.EncArray, G.EncInt32s, G.EncWords, G.EncTexts, EncDim;
    OneItem();
    Array1(5, G.EncInt32s(), 5);
    Array1(6, G.EncWords(), 5);
    Array1(8, G.EncTexts(), "s");
    Array1(11, EncDim(), 5);
  }

  /** A tensor description: name, number of dimensions, dimensions, type, offset. */
  lemma InfoBytes()
    ensures G.EncInfo(G.Info("w", [3], 14, 32)) ==
            ([1, 0, 0, 0, 0, 0, 0, 0] + [119]) + [1, 0, 0, 0] + [3, 0, 0, 0, 0, 0, 0, 0] + [14, 0, 0, 0] + [32, 0, 0, 0, 0, 0, 0, 0]
  {
    hide U8, U32, U64, EncMany, G.EncText;
    Text1('w');
    Small(1);
    Small(3);
    Small(14);
    Small(32);
    Few(EncId(), 3);
    assert 1 % TWO32 == 1;
  }

  /** The start of a file: magic, version 3, number of tensors, number of metadata entries. */
  lemma StartBytes(kv: (string, G.Value))
    ensures GF.EncStart([kv], []) == [71, 71, 85, 70] + [3, 0, 0, 0] + [0, 0, 0, 0, 0, 0, 0, 0] + [1, 0, 0, 0, 0, 0, 0, 0]
  {
    hide U32, U64;
    Small(0);
    Small(1);
    Small(3);
  }

  lemma {:induction false} Read(t: Data, v: nat, n: nat)
    requires t == Little(v, n) && v < Pow256(n)
    ensures Unlittle(t, 0, n) == v
  {
    LittleRoundTrip(t, 0, v, n);
  }

  lemma Bytes12()
    ensures Unlittle([200], 0, 1) == 200 && Unlittle([2], 0, 1) == 2 && Unlittle([1, 255], 0, 2) == 65281
  {
    assert Unlittle([200], 1, 0) == 0 && Unlittle([2], 1, 0) == 0;
    assert Unlittle([1, 255], 2, 0) == 0;
    assert Unlittle([1, 255], 1, 1) == 255;
  }

  /** Bytes, halves and flags, as they are read by their type numbers. */
  lemma NarrowRead()
    ensures G.DecValue([200], 0, 0) == Got(G.U8V(200), 1) && G.DecValue([200], 0, 1) == Got(G.I8V(-56), 1)
    ensures G.DecValue([1, 255], 0, 2) == Got(G.U16V(65281), 2) && G.DecValue([1, 255], 0, 3) == Got(G.I16V(-255), 2)
    ensures G.DecValue([2], 0, 7) == Got(G.BoolV(true), 1)
  {
    Widths();
    assert Pow256(2) == 65536;
    Bytes12();
    hide Unlittle, Pow256;
  }

  /** The 32-bit and 64-bit values. */
  lemma WideRead()
    ensures G.DecValue(U32(5), 0, 4) == Got(G.U32V(5), 4) && G.DecValue(U32(5), 0, 5) == Got(G.I32V(5), 4) && G.DecValue(U32(5), 0, 6) == Got(G.F32V(5), 4)
    ensures G.DecValue(U64(5), 0, 10) == Got(G.U64V(5), 8) && G.DecValue(U64(5), 0, 11) == Got(G.I64V(5), 8) && G.DecValue(U64(5), 0, 12) == Got(G.F64V(5), 8)
  {
    Widths();
    Read(U32(5), 5, 4);
    Read(U64(5), 5, 8);
    hide Unlittle, Little, Pow256;
  }

  /** Types above twelve are refused. */
  lemma TypesKnown(t: Data, p: nat, kind: nat)
    requires p <= |t| && kind > 12
    ensures G.DecValue(t, p, kind) == Bad(UnknownValueType)
  {}

  // ----- repeated keys -----

  /** GGUF keeps the first of the entries with one key. */
  lemma {:induction false} FirstStays(xs: seq<GF.Entry>, n: nat, i: nat)
    requires i < n <= |xs| && forall j :: 0 <= j < i ==> xs[j].0 != xs[i].0
    ensures xs[i].0 in GF.FirstWins(xs, n) && GF.FirstWins(xs, n)[xs[i].0] == xs[i].1
    ensures i == n - 1 ==> xs[i].0 !in GF.FirstWins(xs, n - 1)
  {
    if i == n - 1 { NotYet(xs, i, i); } else { FirstStays(xs, n - 1, i); }
  }

  lemma {:induction false} NotYet(xs: seq<GF.Entry>, n: nat, i: nat)
    requires n <= i < |xs| && forall j :: 0 <= j < n ==> xs[j].0 != xs[i].0
    ensures xs[i].0 !in GF.FirstWins(xs, n)
  {
    if n > 0 { NotYet(xs, n - 1, i); }
  }

  /** The binary IR keeps the last. */
  lemma {:induction false} LastStays(xs: seq<B.Entry>, n: nat, i: nat)
    requires i < n <= |xs| && forall j :: i < j < n ==> xs[j].0 != xs[i].0
    ensures xs[i].0 in B.AsMap(xs, n) && B.AsMap(xs, n)[xs[i].0] == xs[i].1
  {
    if i < n - 1 { LastStays(xs, n - 1, i); }
  }

  // ----- the JSON form -----

  /** The keys of a tensor, and what stands under each. */
  lemma TensorKeys(f: Doubles, t: Tensor)
    ensures var fs := J.TensorFields(f, t);
      && |fs| == 8 && fs[0].key == "id" && fs[1].key == "name" && fs[2].key == "dtype" && fs[3].key == "shape"
      && fs[4].key == "storage_hint" && fs[5].key == "is_weight" && fs[6].key == "weight_ref" && fs[7].key == "quant_format"
      && fs[1].value == Str(t.name) && fs[5].value == Bool(t.isWeight) && fs[6].value == Str(t.weightRef)
  {}

  lemma NodeKeys(f: Doubles, n: Node)
    ensures var fs := J.NodeFields(f, n);
      && |fs| == 7 && fs[0].key == "id" && fs[1].key == "name" && fs[2].key == "op_name" && fs[3].key == "op_version"
      && fs[4].key == "inputs" && fs[5].key == "outputs" && fs[6].key == "attributes"
      && fs[1].value == Str(n.name) && fs[2].value == Str(n.opName) && fs[3].value == Str(n.opVersion)
      && |fs[4].value.items| == |n.inputs| && |fs[5].value.items| == |n.outputs| && |fs[6].value.items| == |n.attributes|
  {}

  lemma GraphKeys(f: Doubles, g: Graph, meta: seq<Field>)
    ensures var fs := J.GraphFields(f, g, meta);
      && |fs| == 9 && fs[0].key == "ir_version" && fs[1].key == "name" && fs[2].key == "producer" && fs[3].key == "domain"
      && fs[4].key == "tensors" && fs[5].key == "nodes" && fs[6].key == "inputs" && fs[7].key == "outputs" && fs[8].key == "metadata"
      && fs[1].value == Str(g.name) && fs[2].value == Str(g.producer) && fs[3].value == Str(g.domain) && fs[8].value == Obj(meta)
      && |fs[4].value.items| == |g.tensors| && |fs[5].value.items| == |g.nodes| && |fs[6].value.items| == |g.inputs| && |fs[7].value.items| == |g.outputs|
  {}

  lemma AttributeKeys(f: Doubles)
    ensures forall a: Attribute :: a.Agrees() ==>
      var fs := J.AttrFields(f, a);
      && |fs| == 3 && fs[0].key == "key" && fs[1].key == "type" && fs[2].key == "value" && fs[0].value == Str(a.key)
      && fs[1].value == Str(match a.kind case StringKind => "string" case IntKind => "int" case FloatKind => "float" case BoolKind => "bool"
                                         case IntsKind => "int_array" case FloatsKind => "float_array")
  {}

  lemma OnlyId(d: Double)
    ensures Get([Field("id", Num(d))], "id") == Some(Num(d))
    ensures forall k :: k != "id" ==> Get([Field("id", Num(d))], k) == None
  {}

  lemma NoKeys()
    ensures forall k :: Get([], k) == None
  {}

  /** A tensor with nothing but an id. */
  lemma TensorDefaults(f: Doubles, d: Double)
    ensures J.DecodeTensor(f)(Obj([Field("id", Num(d))])) == Success(Tensor(J.ToU64(f, d), "", 0, [], 0, false, "", 0))
  {
    hide Get, J.ToU64, J.DecodeArray, N.ParseDType, N.ParseHint, N.ParseQuant;
    OnlyId(d);
  }

  /** A node with nothing but an id: its operator has version "1". */
  lemma NodeDefaults(f: Doubles, d: Double)
    ensures J.DecodeNode(f)(Obj([Field("id", Num(d))])) == Success(Node(J.ToU64(f, d), "", "", "1", [], [], []))
  {
    hide Get, J.ToU64, J.DecodeArray;
    OnlyId(d);
  }

  /** An empty object is a graph: of the current version and the domain "uaii". It is no tensor and no node: these need an id. */
  lemma GraphDefaults(f: Doubles)
    ensures J.DecodeGraph(f, Obj([])) == Success(Graph(Version(1, 0), "", "", "uaii", [], [], [], [], map[]))
    ensures J.DecodeTensor(f)(Obj([])) == Failure(J.IdRequired) && J.DecodeNode(f)(Obj([])) == Failure(J.IdRequired)
  {
    hide Get, J.DecodeArray, N.ParseDType, N.ParseHint, N.ParseQuant, J.DecodeMeta;
    NoKeys();
  }

  /** An unknown element type is refused. */
  lemma UnknownDType(f: Doubles, d: Double, s: string)
    requires N.ParseDType(s) == None
    ensures J.DecodeTensor(f)(Obj([Field("dtype", Str(s)), Field("id", Num(d))])) == Failure(J.BadDType)
  {
    hide Get, J.ToU64, J.DecodeArray, N.ParseDType, N.ParseHint, N.ParseQuant, J.DecodeOptional;
    TwoKeys("dtype", Str(s), d);
  }

  /** An unknown storage hint is refused. */
  lemma UnknownHint(f: Doubles, d: Double, s: string)
    requires N.ParseHint(s) == None
    ensures J.DecodeTensor(f)(Obj([Field("id", Num(d)), Field("storage_hint", Str(s))])) == Failure(J.BadHint)
  {
    hide Get, J.ToU64, J.DecodeArray, N.ParseDType, N.ParseHint, N.ParseQuant;
    KeysTwo("storage_hint", Str(s), d);
  }

  /** An unknown quantisation format is ignored. */
  lemma UnknownFormat(f: Doubles, d: Double, s: string)
    requires N.ParseQuant(s) == None
    ensures J.DecodeTensor(f)(Obj([Field("id", Num(d)), Field("quant_format", Str(s))])) == Success(Tensor(J.ToU64(f, d), "", 0, [], 0, false, "", 0))
  {
    hide Get, J.ToU64, J.DecodeArray, N.ParseDType, N.ParseHint, N.ParseQuant;
    KeysTwo("quant_format", Str(s), d);
  }

  /** A field that is not a string where one is looked for is ignored. */
  lemma OtherKind(f: Doubles, d: Double)
    ensures J.DecodeTensor(f)(Obj([Field("dtype", Null), Field("id", Num(d))])) == Success(Tensor(J.ToU64(f, d), "", 0, [], 0, false, "", 0))
  {
    hide Get, J.ToU64, J.DecodeArray, N.ParseDType, N.ParseHint, N.ParseQuant;
    TwoKeys("dtype", Null, d);
  }

  lemma TwoKeys(key: string, v: Value, d: Double)
    requires key != "id"
    ensures var fs := [Field(key, v), Field("id", Num(d))];
      Get(fs, key) == Some(v) && Get(fs, "id") == Some(Num(d)) && forall k :: k != "id" && k != key ==> Get(fs, k) == None
  {
    var fs := [Field(key, v), Field("id", Num(d))];
    assert fs[1..] == [Field("id", Num(d))];
    OnlyId(d);
  }

  lemma KeysTwo(key: string, v: Value, d: Double)
    requires key != "id"
    ensures var fs := [Field("id", Num(d)), Field(key, v)];
      Get(fs, key) == Some(v) && Get(fs, "id") == Some(Num(d)) && forall k :: k != "id" && k != key ==> Get(fs, k) == None
  {
    var fs := [Field("id", Num(d)), Field(key, v)];
    assert fs[1..] == [Field(key, v)];
    assert forall k :: Get([Field(key, v)], k) == if k == key then Some(v) else None;
  }
}
