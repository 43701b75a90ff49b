/**
 The binary graph format: magic, codec and IR versions, then length-prefixed fields. Decoding
 undoes encoding in every field the format carries, ignores whatever follows an encoding, and
 rejects every strict prefix of one.
 */
module BinaryIr {
  import opened Layout
  import opened Within
  import opened Bytes
  import opened Entries
  import opened Ir

  /** Lengths are cut to 32 bits when written. */
  function Len(n: nat): Data { U32(n % TWO32) }

  function EncStr(s: string): Data { Len(|s|) + ToBytes(s) }

  function DecStr(t: Data, p: nat): Dec<string> {
    var (n, p1) :- DecU32(t, p);
    DecChars(t, p1, n)
  }

  function EncList<T>(e: T -> Data, xs: seq<T>): Data { Len(|xs|) + EncMany(e, xs, |xs|) }

  function DecList<T>(d: (Data, nat) -> Dec<T>, t: Data, p: nat): Dec<seq<T>> {
    var (n, p1) :- DecU32(t, p);
    DecMany(d, t, p1, n)
  }

  predicate StrFits(s: string) { IsBytes(s) && |s| < TWO32 }

  lemma StrReads(t: Data, p: nat, s: string)
    requires StrFits(s) && At(t, p, EncStr(s))
    ensures DecStr(t, p) == Got(s, p + |EncStr(s)|)
  {
    AtJoin(t, p, Len(|s|), ToBytes(s));
    U32Reads(t, p, |s|);
    BytesRoundTrip(t, p + 4, s);
  }

  lemma StrSteady(t: Data, s: Data, p: nat)
    requires DecStr(t, p).Got?
    ensures p <= DecStr(t, p).end <= |t| && DecStr(t + s, p) == DecStr(t, p)
  {
    FixedStable(t, s, p, 4);
    var (n, p1) := DecU32(t, p).Extract();
    FromBytesStable(t, s, p1, n);
  }

  lemma ListReads<T(!new)>(e: T -> Data, d: (Data, nat) -> Dec<T>, t: Data, p: nat, xs: seq<T>)
    requires |xs| < TWO32 && (forall i :: 0 <= i < |xs| ==> ReadsBack(e, d, t, xs[i])) && At(t, p, EncList(e, xs))
    ensures DecList(d, t, p) == Got(xs, p + |EncList(e, xs)|)
  {
    AtJoin(t, p, Len(|xs|), EncMany(e, xs, |xs|));
    U32Reads(t, p, |xs|);
    ManyRead(e, d, t, p + 4, xs, |xs|);
    assert xs[..|xs|] == xs;
  }

  lemma ListSteady<T(!new)>(d: (Data, nat) -> Dec<T>, t: Data, s: Data, p: nat)
    requires Steady(d, t, s) && DecList(d, t, p).Got?
    ensures p <= DecList(d, t, p).end <= |t| && DecList(d, t + s, p) == DecList(d, t, p)
  {
    FixedStable(t, s, p, 4);
    var (n, p1) := DecU32(t, p).Extract();
    ManySteady(d, t, s, p1, n);
  }

  // ----- element codecs -----

  predicate IdsFit(xs: seq<nat>) { |xs| < TWO32 && forall i :: 0 <= i < |xs| ==> xs[i] < TWO64 }

  predicate DimsFit(xs: seq<int>) { |xs| < TWO32 && forall i :: 0 <= i < |xs| ==> InInt64(xs[i]) }

  lemma IdsRead(t: Data, p: nat, xs: seq<nat>)
    requires IdsFit(xs) && At(t, p, EncList(EncId(), xs))
    ensures DecList(DecId(), t, p) == Got(xs, p + |EncList(EncId(), xs)|)
  {
    forall i | 0 <= i < |xs| ensures ReadsBack(EncId(), DecId(), t, xs[i]) {
      forall q: nat | At(t, q, EncId()(xs[i])) ensures DecId()(t, q) == Got(xs[i], q + |EncId()(xs[i])|) { U64Reads(t, q, xs[i]); }
    }
    ListReads(EncId(), DecId(), t, p, xs);
  }

  lemma DimsRead(t: Data, p: nat, xs: seq<int>)
    requires DimsFit(xs) && At(t, p, EncList(EncDim(), xs))
    ensures DecList(DecDim(), t, p) == Got(xs, p + |EncList(EncDim(), xs)|)
  {
    forall i | 0 <= i < |xs| ensures ReadsBack(EncDim(), DecDim(), t, xs[i]) {
      forall q: nat | At(t, q, EncDim()(xs[i])) ensures DecDim()(t, q) == Got(xs[i], q + |EncDim()(xs[i])|) { I64Reads(t, q, xs[i]); }
    }
    ListReads(EncDim(), DecDim(), t, p, xs);
  }

  // ----- attributes -----

  function KindCode(k: AttrKind): nat {
    match k
    case StringKind => 0
    case IntKind => 1
    case FloatKind => 2
    case BoolKind => 3
    case IntsKind => 4
    case FloatsKind => 5
  }

  function EncPayload(a: Attribute): Data
    requires a.Agrees()
  {
    match a.kind
    case StringKind => EncStr(a.value.s)
    case IntKind => I64(a.value.i)
    case FloatKind => U64(a.value.bits)
    case BoolKind => U8(if a.value.b then 1 else 0)
    case IntsKind => EncList(EncDim(), a.value.ints)
    case FloatsKind => EncList(EncId(), a.value.floats)
  }

  function EncAttr(a: Attribute): Data
    requires a.Agrees()
  {
    EncStr(a.key) + U8(KindCode(a.kind)) + EncPayload(a)
  }

  /** The payload that goes with a tag byte. */
  function DecPayload(t: Data, p: nat, code: nat): Dec<(AttrKind, AttrValue)> {
    if code == 0 then
      var (s, e) :- DecStr(t, p);
      Got((StringKind, StringValue(s)), e)
    else if code == 1 then
      var (i, e) :- DecI64(t, p);
      Got((IntKind, IntValue(i)), e)
    else if code == 2 then
      var (bits, e) :- DecU64(t, p);
      Got((FloatKind, FloatValue(bits)), e)
    else if code == 3 then
      var (b, e) :- DecU8(t, p);
      Got((BoolKind, BoolValue(b != 0)), e)
    else if code == 4 then
      var (xs, e) :- DecList(DecDim(), t, p);
      Got((IntsKind, IntsValue(xs)), e)
    else if code == 5 then
      var (xs, e) :- DecList(DecId(), t, p);
      Got((FloatsKind, FloatsValue(xs)), e)
    else Bad(UnknownAttribute)
  }

  function DecAttr(t: Data, p: nat): Dec<Attribute> {
    var (key, p1) :- DecStr(t, p);
    var (code, p2) :- DecU8(t, p1);
    var (payload, p3) :- DecPayload(t, p2, code);
    Got(Attribute(key, payload.0, payload.1), p3)
  }

  /** The tag names the held alternative, and everything fits its field. */
  predicate AttrFits(a: Attribute) {
    && a.Agrees() && StrFits(a.key)
    && match a.value
       case StringValue(s) => StrFits(s)
       case IntValue(i) => InInt64(i)
       case FloatValue(bits) => bits < TWO64
       case BoolValue(_) => true
       case IntsValue(xs) => DimsFit(xs)
       case FloatsValue(xs) => IdsFit(xs)
  }

  lemma PayloadReads(t: Data, p: nat, a: Attribute)
    requires AttrFits(a) && At(t, p, EncPayload(a))
    ensures DecPayload(t, p, KindCode(a.kind)) == Got((a.kind, a.value), p + |EncPayload(a)|)
  {
    hide At, EncStr, DecStr, EncList, DecList;
    match a.kind
    case StringKind => StrReads(t, p, a.value.s);
    case IntKind => I64Reads(t, p, a.value.i);
    case FloatKind => U64Reads(t, p, a.value.bits);
    case BoolKind => U8Reads(t, p, if a.value.b then 1 else 0);
    case IntsKind => DimsRead(t, p, a.value.ints);
    case FloatsKind => IdsRead(t, p, a.value.floats);
  }

  lemma AttrReads(t: Data, p: nat, a: Attribute)
    requires AttrFits(a) && At(t, p, EncAttr(a))
    ensures DecAttr(t, p) == Got(a, p + |EncAttr(a)|)
  {
    hide At, EncStr, DecStr, EncPayload, DecPayload;
    AtJoin3(t, p, EncStr(a.key), U8(KindCode(a.kind)), EncPayload(a));
    StrReads(t, p, a.key);
    U8Reads(t, p + |EncStr(a.key)|, KindCode(a.kind));
    PayloadReads(t, p + |EncStr(a.key)| + 1, a);
  }

  lemma PayloadSteady(t: Data, s: Data, p: nat, code: nat)
    requires DecPayload(t, p, code).Got?
    ensures p <= DecPayload(t, p, code).end <= |t| && DecPayload(t + s, p, code) == DecPayload(t, p, code)
  {
    hide DecStr, DecList, DecFixed;
    if code == 0 {
      StrSteady(t, s, p);
    } else if code == 1 {
      FixedStable(t, s, p, 8);
    } else if code == 2 {
      FixedStable(t, s, p, 8);
    } else if code == 3 {
      FixedStable(t, s, p, 1);
    } else if code == 4 {
      DimsSteady(t, s);
      ListSteady(DecDim(), t, s, p);
    } else {
      IdsSteady(t, s);
      ListSteady(DecId(), t, s, p);
    }
  }

  lemma AttrSteady(t: Data, s: Data, p: nat)
    requires DecAttr(t, p).Got?
    ensures p <= DecAttr(t, p).end <= |t| && DecAttr(t + s, p) == DecAttr(t, p)
  {
    hide DecStr, DecPayload, DecFixed;
    var (key, p1) := DecStr(t, p).Extract();
    var (code, p2) := DecU8(t, p1).Extract();
    StrSteady(t, s, p);
    FixedStable(t, s, p1, 1);
    PayloadSteady(t, s, p2, code);
  }

  // ----- tensors -----

  function EncTensor(x: Tensor): Data {
    (U64(x.id) + EncStr(x.name) + U8(x.dtype)) + EncList(EncDim(), x.dims) + (U8(x.hint) + U8(if x.isWeight then 1 else 0) + EncStr(x.weightRef))
  }

  /** The format has no field for the quantisation format: it reads back as the first one. */
  function DecTensor(t: Data, p: nat): Dec<Tensor> {
    var (id, p1) :- DecU64(t, p);
    var (name, p2) :- DecStr(t, p1);
    var (dtype, p3) :- DecU8(t, p2);
    var (dims, p4) :- DecList(DecDim(), t, p3);
    var (hint, p5) :- DecU8(t, p4);
    var (isW, p6) :- DecU8(t, p5);
    var (ref, p7) :- DecStr(t, p6);
    Got(Tensor(id, name, dtype, dims, hint, isW != 0, ref, 0), p7)
  }

  predicate TensorFits(x: Tensor) {
    x.id < TWO64 && StrFits(x.name) && x.dtype < TWO8 && DimsFit(x.dims) && x.hint < TWO8 && StrFits(x.weightRef)
  }

  /** The tensor as the format carries it. */
  function Carried(x: Tensor): Tensor { x.(quant := 0) }

  lemma {:induction false} TensorReads(t: Data, p: nat, x: Tensor)
    requires TensorFits(x) && At(t, p, EncTensor(x))
    ensures DecTensor(t, p) == Got(Carried(x), p + |EncTensor(x)|)
  {
    hide At, EncStr, DecStr, EncList, DecList, StrFits, DimsFit, Little, Unlittle;
    var a, b, c := U64(x.id) + EncStr(x.name) + U8(x.dtype), EncList(EncDim(), x.dims), U8(x.hint) + U8(if x.isWeight then 1 else 0) + EncStr(x.weightRef);
    AtJoin3(t, p, a, b, c);
    AtJoin3(t, p, U64(x.id), EncStr(x.name), U8(x.dtype));
    U64Reads(t, p, x.id);
    StrReads(t, p + 8, x.name);
    U8Reads(t, p + 8 + |EncStr(x.name)|, x.dtype);
    DimsRead(t, p + |a|, x.dims);
    var q := p + |a| + |b|;
    AtJoin3(t, q, U8(x.hint), U8(if x.isWeight then 1 else 0), EncStr(x.weightRef));
    U8Reads(t, q, x.hint);
    U8Reads(t, q + 1, if x.isWeight then 1 else 0);
    StrReads(t, q + 2, x.weightRef);
  }

  lemma TensorSteady(t: Data, s: Data, p: nat)
    requires DecTensor(t, p).Got?
    ensures p <= DecTensor(t, p).end <= |t| && DecTensor(t + s, p) == DecTensor(t, p)
  {
    hide DecStr, DecList, DecFixed;
    var p1 := DecU64(t, p).end;
    FixedStable(t, s, p, 8);
    StrSteady(t, s, p1);
    var p2 := DecStr(t, p1).end;
    FixedStable(t, s, p2, 1);
    var p3 := DecU8(t, p2).end;
    DimsSteady(t, s);
    ListSteady(DecDim(), t, s, p3);
    var p4 := DecList(DecDim(), t, p3).end;
    FixedStable(t, s, p4, 1);
    var p5 := DecU8(t, p4).end;
    FixedStable(t, s, p5, 1);
    var p6 := DecU8(t, p5).end;
    StrSteady(t, s, p6);
  }

  // ----- nodes -----

  function EncAttrs(): Attribute -> Data { (a: Attribute) => if a.Agrees() then EncAttr(a) else [] }
  function DecAttrs(): (Data, nat) -> Dec<Attribute> { (t: Data, p: nat) => DecAttr(t, p) }

  function EncNode(n: Node): Data {
    (U64(n.id) + EncStr(n.name) + EncStr(n.opName)) + EncStr(n.opVersion)
    + (EncList(EncId(), n.inputs) + EncList(EncId(), n.outputs) + EncList(EncAttrs(), n.attributes))
  }

  function DecNode(t: Data, p: nat): Dec<Node> {
    var (id, p1) :- DecU64(t, p);
    var (name, p2) :- DecStr(t, p1);
    var (opName, p3) :- DecStr(t, p2);
    var (opVersion, p4) :- DecStr(t, p3);
    var (inputs, p5) :- DecList(DecId(), t, p4);
    var (outputs, p6) :- DecList(DecId(), t, p5);
    var (attributes, p7) :- DecList(DecAttrs(), t, p6);
    Got(Node(id, name, opName, opVersion, inputs, outputs, attributes), p7)
  }

  predicate AttrsFit(xs: seq<Attribute>) { |xs| < TWO32 && forall i :: 0 <= i < |xs| ==> AttrFits(xs[i]) }

  predicate NodeFits(n: Node) {
    n.id < TWO64 && StrFits(n.name) && StrFits(n.opName) && StrFits(n.opVersion) && IdsFit(n.inputs) && IdsFit(n.outputs) && AttrsFit(n.attributes)
  }

  lemma AttrsRead(t: Data, p: nat, xs: seq<Attribute>)
    requires AttrsFit(xs) && At(t, p, EncList(EncAttrs(), xs))
    ensures DecList(DecAttrs(), t, p) == Got(xs, p + |EncList(EncAttrs(), xs)|)
  {
    hide At, EncList, DecList, EncAttr, DecAttr;
    forall i | 0 <= i < |xs| ensures ReadsBack(EncAttrs(), DecAttrs(), t, xs[i]) {
      forall q: nat | At(t, q, EncAttrs()(xs[i])) ensures DecAttrs()(t, q) == Got(xs[i], q + |EncAttrs()(xs[i])|) { AttrReads(t, q, xs[i]); }
    }
    ListReads(EncAttrs(), DecAttrs(), t, p, xs);
  }

  lemma AttrsSteady(t: Data, s: Data)
    ensures Steady(DecAttrs(), t, s)
  {
    forall q: nat | DecAttrs()(t, q).Got? ensures q <= DecAttrs()(t, q).end <= |t| && DecAttrs()(t + s, q) == DecAttrs()(t, q) { AttrSteady(t, s, q); }
  }

  lemma {:induction false} NodeReads(t: Data, p: nat, n: Node)
    requires NodeFits(n) && At(t, p, EncNode(n))
    ensures DecNode(t, p) == Got(n, p + |EncNode(n)|)
  {
    hide At, EncStr, DecStr, EncList, DecList, StrFits, IdsFit, AttrsFit;
    var a, b := U64(n.id) + EncStr(n.name) + EncStr(n.opName), EncStr(n.opVersion);
    var ins, outs, attrs := EncList(EncId(), n.inputs), EncList(EncId(), n.outputs), EncList(EncAttrs(), n.attributes);
    AtJoin3(t, p, a, b, ins + outs + attrs);
    AtJoin3(t, p, U64(n.id), EncStr(n.name), EncStr(n.opName));
    U64Reads(t, p, n.id);
    StrReads(t, p + 8, n.name);
    StrReads(t, p + 8 + |EncStr(n.name)|, n.opName);
    StrReads(t, p + |a|, n.opVersion);
    var q := p + |a| + |b|;
    AtJoin3(t, q, ins, outs, attrs);
    IdsRead(t, q, n.inputs);
    IdsRead(t, q + |ins|, n.outputs);
    AttrsRead(t, q + |ins| + |outs|, n.attributes);
  }

  lemma NodeSteady(t: Data, s: Data, p: nat)
    requires DecNode(t, p).Got?
    ensures p <= DecNode(t, p).end <= |t| && DecNode(t + s, p) == DecNode(t, p)
  {
    hide DecStr, DecList, DecFixed;
    FixedStable(t, s, p, 8);
    var p1 := DecU64(t, p).end;
    StrSteady(t, s, p1);
    var p2 := DecStr(t, p1).end;
    StrSteady(t, s, p2);
    var p3 := DecStr(t, p2).end;
    StrSteady(t, s, p3);
    var p4 := DecStr(t, p3).end;
    IdsSteady(t, s);
    ListSteady(DecId(), t, s, p4);
    var p5 := DecList(DecId(), t, p4).end;
    ListSteady(DecId(), t, s, p5);
    var p6 := DecList(DecId(), t, p5).end;
    AttrsSteady(t, s);
    ListSteady(DecAttrs(), t, s, p6);
  }

  // ----- metadata -----

  type Entry = (string, string)

  function EncEntry(): Entry -> Data { (x: Entry) => EncStr(x.0) + EncStr(x.1) }

  function DecEntry(t: Data, p: nat): Dec<Entry> {
    var (k, p1) :- DecStr(t, p);
    var (v, p2) :- DecStr(t, p1);
    Got((k, v), p2)
  }

  function DecEntries(): (Data, nat) -> Dec<Entry> { (t: Data, p: nat) => DecEntry(t, p) }

  /** The map that assigning the first `n` entries builds. */
  function AsMap(xs: seq<Entry>, n: nat): map<string, string>
    requires n <= |xs|
  {
    if n == 0 then map[] else AsMap(xs, n - 1)[xs[n - 1].0 := xs[n - 1].1]
  }

  lemma {:induction false} AsMapHolds(m: map<string, string>, xs: seq<Entry>, n: nat)
    requires n <= |xs| && forall i :: 0 <= i < |xs| ==> xs[i].0 in m && m[xs[i].0] == xs[i].1
    ensures forall k :: k in AsMap(xs, n) <==> exists i :: 0 <= i < n && xs[i].0 == k
    ensures forall k :: k in AsMap(xs, n) ==> k in m && AsMap(xs, n)[k] == m[k]
  {
    if n > 0 { AsMapHolds(m, xs, n - 1); }
  }

  lemma ListedMap(m: map<string, string>, xs: seq<Entry>)
    requires Lists(m, xs)
    ensures AsMap(xs, |xs|) == m
  {
    AsMapHolds(m, xs, |xs|);
  }

  predicate EntriesFit(xs: seq<Entry>) { |xs| < TWO32 && forall i :: 0 <= i < |xs| ==> StrFits(xs[i].0) && StrFits(xs[i].1) }

  lemma EntriesRead(t: Data, p: nat, xs: seq<Entry>)
    requires EntriesFit(xs) && At(t, p, EncList(EncEntry(), xs))
    ensures DecList(DecEntries(), t, p) == Got(xs, p + |EncList(EncEntry(), xs)|)
  {
    hide At, EncList, DecList, EncStr, DecStr, StrFits;
    forall i | 0 <= i < |xs| ensures ReadsBack(EncEntry(), DecEntries(), t, xs[i]) {
      forall q: nat | At(t, q, EncEntry()(xs[i])) ensures DecEntries()(t, q) == Got(xs[i], q + |EncEntry()(xs[i])|) {
        AtJoin(t, q, EncStr(xs[i].0), EncStr(xs[i].1));
        StrReads(t, q, xs[i].0);
        StrReads(t, q + |EncStr(xs[i].0)|, xs[i].1);
      }
    }
    ListReads(EncEntry(), DecEntries(), t, p, xs);
  }

  lemma EntriesSteady(t: Data, s: Data)
    ensures Steady(DecEntries(), t, s)
  {
    hide DecStr;
    forall q: nat | DecEntries()(t, q).Got? ensures q <= DecEntries()(t, q).end <= |t| && DecEntries()(t + s, q) == DecEntries()(t, q) {
      StrSteady(t, s, q);
      StrSteady(t, s, DecStr(t, q).end);
    }
  }

  // ----- graphs -----

  const MAGIC: Data := [85, 65, 73, 82]   // "UAIR"

  const CODEC: nat := 1

  function EncTensors(): Tensor -> Data { (x: Tensor) => EncTensor(x) }
  function DecTensors(): (Data, nat) -> Dec<Tensor> { (t: Data, p: nat) => DecTensor(t, p) }
  function EncNodes(): Node -> Data { (x: Node) => EncNode(x) }
  function DecNodes(): (Data, nat) -> Dec<Node> { (t: Data, p: nat) => DecNode(t, p) }

  function EncHeader(v: Version): Data { MAGIC + U32(CODEC) + (U32(v.major) + U32(v.minor)) }

  function EncNames(g: Graph): Data { EncStr(g.name) + EncStr(g.producer) + EncStr(g.domain) }

  function EncBody(g: Graph): Data { EncList(EncTensors(), g.tensors) + EncList(EncNodes(), g.nodes) }

  function EncEnds(g: Graph, meta: seq<Entry>): Data {
    EncList(EncId(), g.inputs) + EncList(EncId(), g.outputs) + EncList(EncEntry(), meta)
  }

  function EncGraph(g: Graph, meta: seq<Entry>): Data { (EncHeader(g.version) + EncNames(g) + EncBody(g)) + EncEnds(g, meta) }

  /** The version of a file that starts like one. */
  function DecHeader(t: Data): Dec<Version> {
    if |t| < 16 || t[..4] != MAGIC then Bad(NotUaii)
    else
      var (codec, p1) :- DecU32(t, 4);
      if codec != CODEC then Bad(UnsupportedCodec)
      else
        var (major, p2) :- DecU32(t, p1);
        var (minor, p3) :- DecU32(t, p2);
        if !Compatible(Version(major, minor)) then Bad(Incompatible) else Got(Version(major, minor), p3)
  }

  function DecGraph(t: Data): Dec<Graph> {
    var (version, p0) :- DecHeader(t);
    var (name, p1) :- DecStr(t, p0);
    var (producer, p2) :- DecStr(t, p1);
    var (domain, p3) :- DecStr(t, p2);
    var (tensors, p4) :- DecList(DecTensors(), t, p3);
    var (nodes, p5) :- DecList(DecNodes(), t, p4);
    var (inputs, p6) :- DecList(DecId(), t, p5);
    var (outputs, p7) :- DecList(DecId(), t, p6);
    var (meta, p8) :- DecList(DecEntries(), t, p7);
    Got(Graph(version, name, producer, domain, tensors, nodes, inputs, outputs, AsMap(meta, |meta|)), p8)
  }

  predicate TensorsFit(xs: seq<Tensor>) { |xs| < TWO32 && forall i :: 0 <= i < |xs| ==> TensorFits(xs[i]) }

  predicate NodesFit(xs: seq<Node>) { |xs| < TWO32 && forall i :: 0 <= i < |xs| ==> NodeFits(xs[i]) }

  /** Everything fits its field and the version is one the reader accepts. */
  predicate GraphFits(g: Graph) {
    && Compatible(g.version)
    && StrFits(g.name) && StrFits(g.producer) && StrFits(g.domain) && TensorsFit(g.tensors) && NodesFit(g.nodes)
    && IdsFit(g.inputs) && IdsFit(g.outputs)
  }

  /** The graph as the format carries it: every quantisation format is reset. */
  function CarriedGraph(g: Graph): (r: Graph)
    ensures r == g.(tensors := r.tensors) && |r.tensors| == |g.tensors|
    ensures forall i :: 0 <= i < |g.tensors| ==> r.tensors[i] == Carried(g.tensors[i])
  {
    g.(tensors := seq(|g.tensors|, i requires 0 <= i < |g.tensors| => Carried(g.tensors[i])))
  }

  lemma TensorsRead(t: Data, p: nat, xs: seq<Tensor>, ys: seq<Tensor>)
    requires TensorsFit(xs) && |ys| == |xs| && (forall i :: 0 <= i < |xs| ==> ys[i] == Carried(xs[i]))
    requires At(t, p, EncList(EncTensors(), xs))
    ensures DecList(DecTensors(), t, p) == Got(ys, p + |EncList(EncTensors(), xs)|)
  {
    hide At, EncList, DecList, EncTensor, DecTensor, TensorFits;
    forall i | 0 <= i < |ys| ensures ReadsBack(EncTensors(), DecTensors(), t, ys[i]) {
      forall q: nat | At(t, q, EncTensors()(ys[i])) ensures DecTensors()(t, q) == Got(ys[i], q + |EncTensors()(ys[i])|) {
        SameEncoding(xs[i]);
        TensorReads(t, q, xs[i]);
      }
    }
    SameEncodings(xs, ys, |xs|);
    assert EncList(EncTensors(), xs) == EncList(EncTensors(), ys) by { SameLists(xs, ys); }
    ListReads(EncTensors(), DecTensors(), t, p, ys);
  }

  lemma SameEncoding(x: Tensor)
    ensures EncTensor(Carried(x)) == EncTensor(x)
  {}

  lemma {:induction false} SameEncodings(xs: seq<Tensor>, ys: seq<Tensor>, n: nat)
    requires n <= |xs| == |ys| && forall i :: 0 <= i < |xs| ==> ys[i] == Carried(xs[i])
    ensures EncMany(EncTensors(), ys, n) == EncMany(EncTensors(), xs, n)
  {
    hide EncTensor, Carried;
    if n > 0 {
      SameEncodings(xs, ys, n - 1);
      SameEncoding(xs[n - 1]);
    }
  }

  lemma SameLists(xs: seq<Tensor>, ys: seq<Tensor>)
    requires |xs| == |ys| && EncMany(EncTensors(), ys, |xs|) == EncMany(EncTensors(), xs, |xs|)
    ensures EncList(EncTensors(), xs) == EncList(EncTensors(), ys)
  {}

  lemma NodesRead(t: Data, p: nat, xs: seq<Node>)
    requires NodesFit(xs) && At(t, p, EncList(EncNodes(), xs))
    ensures DecList(DecNodes(), t, p) == Got(xs, p + |EncList(EncNodes(), xs)|)
  {
    hide At, EncList, DecList, EncNode, DecNode, NodeFits;
    forall i | 0 <= i < |xs| ensures ReadsBack(EncNodes(), DecNodes(), t, xs[i]) {
      forall q: nat | At(t, q, EncNodes()(xs[i])) ensures DecNodes()(t, q) == Got(xs[i], q + |EncNodes()(xs[i])|) { NodeReads(t, q, xs[i]); }
    }
    ListReads(EncNodes(), DecNodes(), t, p, xs);
  }

  lemma TensorsSteady(t: Data, s: Data)
    ensures Steady(DecTensors(), t, s)
  {
    hide DecTensor;
    forall q: nat | DecTensors()(t, q).Got? ensures q <= DecTensors()(t, q).end <= |t| && DecTensors()(t + s, q) == DecTensors()(t, q) { TensorSteady(t, s, q); }
  }

  lemma NodesSteady(t: Data, s: Data)
    ensures Steady(DecNodes(), t, s)
  {
    hide DecNode;
    forall q: nat | DecNodes()(t, q).Got? ensures q <= DecNodes()(t, q).end <= |t| && DecNodes()(t + s, q) == DecNodes()(t, q) { NodeSteady(t, s, q); }
  }

  lemma HeaderReads(t: Data, v: Version)
    requires Compatible(v) && At(t, 0, EncHeader(v))
    ensures DecHeader(t) == Got(v, 16)
  {
    AtJoin3(t, 0, MAGIC, U32(CODEC), U32(v.major) + U32(v.minor));
    AtJoin(t, 8, U32(v.major), U32(v.minor));
    AtSlice(t, 0, MAGIC);
    U32Reads(t, 4, CODEC);
    U32Reads(t, 8, v.major);
    U32Reads(t, 12, v.minor);
  }

  lemma NamesRead(t: Data, p: nat, g: Graph)
    requires GraphFits(g) && At(t, p, EncNames(g))
    ensures var p1 := p + |EncStr(g.name)|;
      var p2 := p1 + |EncStr(g.producer)|;
      && DecStr(t, p) == Got(g.name, p1) && DecStr(t, p1) == Got(g.producer, p2) && DecStr(t, p2) == Got(g.domain, p + |EncNames(g)|)
  {
    hide At, EncStr, DecStr, StrFits;
    AtJoin3(t, p, EncStr(g.name), EncStr(g.producer), EncStr(g.domain));
    StrReads(t, p, g.name);
    StrReads(t, p + |EncStr(g.name)|, g.producer);
    StrReads(t, p + |EncStr(g.name)| + |EncStr(g.producer)|, g.domain);
  }

  lemma BodyReads(t: Data, p: nat, g: Graph)
    requires GraphFits(g) && At(t, p, EncBody(g))
    ensures var p1 := p + |EncList(EncTensors(), g.tensors)|;
      DecList(DecTensors(), t, p) == Got(CarriedGraph(g).tensors, p1) && DecList(DecNodes(), t, p1) == Got(g.nodes, p + |EncBody(g)|)
  {
    hide At, EncList, DecList, EncTensors, DecTensors, EncNodes, DecNodes, TensorsFit, NodesFit;
    AtJoin(t, p, EncList(EncTensors(), g.tensors), EncList(EncNodes(), g.nodes));
    TensorsRead(t, p, g.tensors, CarriedGraph(g).tensors);
    NodesRead(t, p + |EncList(EncTensors(), g.tensors)|, g.nodes);
  }

  lemma EndsRead(t: Data, p: nat, g: Graph, meta: seq<Entry>)
    requires GraphFits(g) && EntriesFit(meta) && At(t, p, EncEnds(g, meta))
    ensures var p1 := p + |EncList(EncId(), g.inputs)|;
      var p2 := p1 + |EncList(EncId(), g.outputs)|;
      && DecList(DecId(), t, p) == Got(g.inputs, p1) && DecList(DecId(), t, p1) == Got(g.outputs, p2)
      && DecList(DecEntries(), t, p2) == Got(meta, p + |EncEnds(g, meta)|)
  {
    hide At, EncList, DecList, IdsFit, EntriesFit;
    AtJoin3(t, p, EncList(EncId(), g.inputs), EncList(EncId(), g.outputs), EncList(EncEntry(), meta));
    IdsRead(t, p, g.inputs);
    IdsRead(t, p + |EncList(EncId(), g.inputs)|, g.outputs);
    EntriesRead(t, p + |EncList(EncId(), g.inputs)| + |EncList(EncId(), g.outputs)|, meta);
  }

  /**
   Any byte sequence that starts with an encoding decodes to the encoded graph in every field the
   format carries, whatever order the metadata was walked in and whatever follows.
   */
  lemma {:induction false} DecodeUndoesEncode(g: Graph, meta: seq<Entry>, rest: Data)
    requires GraphFits(g) && EntriesFit(meta) && Lists(g.metadata, meta)
    ensures DecGraph(EncGraph(g, meta) + rest) == Got(CarriedGraph(g), |EncGraph(g, meta)|)
  {
    hide At, EncHeader, DecHeader, EncNames, EncBody, EncEnds, DecStr, DecList, EntriesFit, Lists, GraphFits;
    var t := EncGraph(g, meta) + rest;
    StandsAtStart(EncGraph(g, meta), rest);
    var h, n, b := EncHeader(g.version), EncNames(g), EncBody(g);
    AtJoin(t, 0, h + n + b, EncEnds(g, meta));
    AtJoin3(t, 0, h, n, b);
    FitsVersion(g);
    HeaderReads(t, g.version);
    NamesRead(t, 16, g);
    BodyReads(t, 16 + |n|, g);
    EndsRead(t, 16 + |n| + |b|, g, meta);
    ListedMap(g.metadata, meta);
  }

  /** The round trip is the identity exactly when no tensor has a quantisation format other than the plain one. */
  lemma {:induction false} RoundTripIsIdentity(g: Graph, meta: seq<Entry>, rest: Data)
    requires GraphFits(g) && EntriesFit(meta) && Lists(g.metadata, meta)
    ensures DecGraph(EncGraph(g, meta) + rest) == Got(g, |EncGraph(g, meta)|) <==> forall i :: 0 <= i < |g.tensors| ==> g.tensors[i].quant == 0
  {
    hide EncGraph, DecGraph, EntriesFit, Lists, GraphFits;
    DecodeUndoesEncode(g, meta, rest);
    if forall i :: 0 <= i < |g.tensors| ==> g.tensors[i].quant == 0 {
      assert CarriedGraph(g).tensors == g.tensors;
    } else {
      var i :| 0 <= i < |g.tensors| && g.tensors[i].quant != 0;
      assert CarriedGraph(g).tensors[i] != g.tensors[i];
    }
  }

  lemma StandsAtStart(a: Data, rest: Data)
    ensures At(a + rest, 0, a)
  {}

  lemma FitsVersion(g: Graph)
    requires GraphFits(g)
    ensures Compatible(g.version) && |EncHeader(g.version)| == 16
  {}

  // ----- prefixes and suffixes -----

  lemma HeaderSteady(t: Data, s: Data)
    requires DecHeader(t).Got?
    ensures DecHeader(t + s) == DecHeader(t) && DecHeader(t).end == 16 <= |t|
  {
    assert (t + s)[..4] == t[..4];
    FixedStable(t, s, 4, 4);
    FixedStable(t, s, 8, 4);
    FixedStable(t, s, 12, 4);
  }

  /** Appending bytes never changes what a readable file means. */
  lemma GraphSteady(t: Data, s: Data)
    requires DecGraph(t).Got?
    ensures DecGraph(t + s) == DecGraph(t) && DecGraph(t).end <= |t|
  {
    hide DecHeader, DecStr, DecList, AsMap;
    HeaderSteady(t, s);
    StrSteady(t, s, 16);
    var p1 := DecStr(t, 16).end;
    StrSteady(t, s, p1);
    var p2 := DecStr(t, p1).end;
    StrSteady(t, s, p2);
    var p3 := DecStr(t, p2).end;
    TensorsSteady(t, s);
    ListSteady(DecTensors(), t, s, p3);
    var p4 := DecList(DecTensors(), t, p3).end;
    NodesSteady(t, s);
    ListSteady(DecNodes(), t, s, p4);
    var p5 := DecList(DecNodes(), t, p4).end;
    IdsSteady(t, s);
    ListSteady(DecId(), t, s, p5);
    var p6 := DecList(DecId(), t, p5).end;
    ListSteady(DecId(), t, s, p6);
    var p7 := DecList(DecId(), t, p6).end;
    EntriesSteady(t, s);
    ListSteady(DecEntries(), t, s, p7);
  }

  /** Every strict prefix of an encoding is rejected. */
  lemma PrefixesRejected(g: Graph, meta: seq<Entry>, n: nat)
    requires GraphFits(g) && EntriesFit(meta) && Lists(g.metadata, meta) && n < |EncGraph(g, meta)|
    ensures DecGraph(EncGraph(g, meta)[..n]).Bad?
  {
    hide DecGraph, EncGraph, Lists, GraphFits, EntriesFit;
    var whole := EncGraph(g, meta);
    assert whole + [] == whole;
    DecodeUndoesEncode(g, meta, []);
    assert whole[..n] + whole[n..] == whole;
    if DecGraph(whole[..n]).Got? { GraphSteady(whole[..n], whole[n..]); }
  }
}
