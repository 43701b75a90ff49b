/**
 Graphs as JSON text: encoding builds a value tree and prints it in the pretty form, decoding
 parses the text and rebuilds the graph with the defaults and checks of the reader. Decoding
 undoes encoding whenever every number is an integer below the printer's limit.
 */
module GraphJson {
  import opened Layout
  import opened Ir
  import opened Json
  import opened Names
  import R = JsonRoundTrip
  import JsonParser

  datatype CodecError =
    | NotJson(error: JsonError)
    | BadVariant
    | ExpectedObject | ExpectedArray | ExpectedNumber
    | VersionRequired | IdRequired | BadDType | BadHint | BadAttribute

  type Res<+T> = Result<T, CodecError>

  // ----- small pieces -----

  function Int(f: Doubles, n: int): Value { Num(f.fromInt(n)) }

  /** Conversion of a JSON number to an integer. */
  function ToInt(f: Doubles, d: Double): int { if f.asInt(d).Some? then f.asInt(d).value else f.trunc(d) }

  const TWO32: nat := 0x1_0000_0000
  const TWO64: nat := 0x1_0000_0000_0000_0000

  function ToU32(f: Doubles, d: Double): nat { ToInt(f, d) % TWO32 }

  function ToU64(f: Doubles, d: Double): nat { ToInt(f, d) % TWO64 }

  lemma IntIsExact(f: Doubles, n: int)
    requires f.Lawful() && -LIMIT < n < LIMIT
    ensures Plain(f, Int(f, n)) && R.Exact(f, Int(f, n)) && ToInt(f, f.fromInt(n)) == n
    ensures 0 <= n ==> ToU64(f, f.fromInt(n)) == n
    ensures 0 <= n < TWO32 ==> ToU32(f, f.fromInt(n)) == n
  {
    assert f.asInt(f.fromInt(n)) == Some(n);
  }

  /** Assigning several keys of an empty ordered map, in order. */
  function Assign(fs: seq<Field>): (r: seq<Field>) {
    if fs == [] then [] else Insert(Assign(fs[..|fs| - 1]), fs[|fs| - 1].key, fs[|fs| - 1].value)
  }

  predicate DistinctKeys(fs: seq<Field>) { forall i, j :: 0 <= i < j < |fs| ==> fs[i].key != fs[j].key }

  lemma {:induction false} AssignAscending(fs: seq<Field>)
    ensures Ascending(Assign(fs))
  {
    if fs != [] {
      AssignAscending(fs[..|fs| - 1]);
      InsertAscending(Assign(fs[..|fs| - 1]), fs[|fs| - 1].key, fs[|fs| - 1].value);
    }
  }

  /** Distinct assigned keys read back. */
  lemma {:induction false} GetAssigned(fs: seq<Field>, i: nat)
    requires DistinctKeys(fs) && i < |fs|
    ensures Get(Assign(fs), fs[i].key) == Some(fs[i].value)
  {
    var k := |fs| - 1;
    AssignAscending(fs[..k]);
    GetInsert(Assign(fs[..k]), fs[k].key, fs[k].value, fs[i].key);
    if i < k { GetAssigned(fs[..k], i); }
  }

  /** Every assigned value keeps what all values had. */
  lemma {:induction false} AssignExact(f: Doubles, fs: seq<Field>)
    requires forall i :: 0 <= i < |fs| ==> Plain(f, fs[i].value) && R.Exact(f, fs[i].value)
    ensures forall i :: 0 <= i < |Assign(fs)| ==> Plain(f, Assign(fs)[i].value) && R.Exact(f, Assign(fs)[i].value)
  {
    if fs != [] {
      var k := |fs| - 1;
      AssignExact(f, fs[..k]);
      InsertExact(f, Assign(fs[..k]), fs[k].key, fs[k].value);
    }
  }

  lemma {:induction false} InsertExact(f: Doubles, fs: seq<Field>, key: string, v: Value)
    requires Plain(f, v) && R.Exact(f, v) && forall i :: 0 <= i < |fs| ==> Plain(f, fs[i].value) && R.Exact(f, fs[i].value)
    ensures forall i :: 0 <= i < |Insert(fs, key, v)| ==> Plain(f, Insert(fs, key, v)[i].value) && R.Exact(f, Insert(fs, key, v)[i].value)
  {
    if fs != [] && fs[0].key != key && !Less(key, fs[0].key) { InsertExact(f, fs[1..], key, v); }
  }

  function Object(fs: seq<Field>): Value { Obj(Assign(fs)) }

  lemma ObjectExact(f: Doubles, fs: seq<Field>)
    requires forall i :: 0 <= i < |fs| ==> Plain(f, fs[i].value) && R.Exact(f, fs[i].value)
    ensures Plain(f, Object(fs)) && R.Exact(f, Object(fs))
  {
    AssignAscending(fs);
    AssignExact(f, fs);
  }

  /** Element-wise decoding up to element `n`, stopping at the first failure. */
  function DecodeAll<T>(items: seq<Value>, d: Value -> Res<T>, n: nat): (r: Res<seq<T>>)
    requires n <= |items|
    ensures r.Success? ==> |r.value| == n && forall i :: 0 <= i < n ==> d(items[i]) == Success(r.value[i])
    ensures r.Success? <==> forall i :: 0 <= i < n ==> d(items[i]).Success?
  {
    if n == 0 then Success([])
    else
      var front := DecodeAll(items, d, n - 1);
      if front.Failure? then front
      else
        var last := d(items[n - 1]);
        if last.Failure? then Failure(last.error) else Success(front.value + [last.value])
  }

  /** The reader's loops over arrays. */
  method DecodeEach<T>(items: seq<Value>, d: Value -> Res<T>) returns (r: Res<seq<T>>)
    ensures r == DecodeAll(items, d, |items|)
  {
    var out: seq<T> := [];
    for i := 0 to |items|
      invariant DecodeAll(items, d, i) == Success(out)
    {
      var x := d(items[i]);
      if x.Failure? {
        DecodeStops(items, d, i + 1, |items|);
        return Failure(x.error);
      }
      out := out + [x.value];
    }
    return Success(out);
  }

  lemma {:induction false} DecodeStops<T>(items: seq<Value>, d: Value -> Res<T>, i: nat, n: nat)
    requires i <= n <= |items| && DecodeAll(items, d, i).Failure?
    ensures DecodeAll(items, d, n) == DecodeAll(items, d, i)
  {
    if i < n { DecodeStops(items, d, i, n - 1); }
  }

  function DecodeArray<T>(v: Value, d: Value -> Res<T>): Res<seq<T>> {
    if !v.Arr? then Failure(ExpectedArray) else DecodeAll(v.items, d, |v.items|)
  }

  /** A missing key gives the default. */
  function DecodeOptional<T>(v: Option<Value>, d: Value -> Res<seq<T>>): Res<seq<T>> {
    match v
    case None => Success([])
    case Some(x) => d(x)
  }

  function DecodeDim(f: Doubles): Value -> Res<int> { (v: Value) => if v.Num? then Success(ToInt(f, v.d)) else Failure(ExpectedNumber) }

  function DecodeId(f: Doubles): Value -> Res<nat> { (v: Value) => if v.Num? then Success(ToU64(f, v.d)) else Failure(ExpectedNumber) }

  function DecodeBits(): Value -> Res<nat> { (v: Value) => if v.Num? then Success(v.d) else Failure(ExpectedNumber) }

  function Text(v: Option<Value>, default: string): string { if v.Some? && v.value.Str? then v.value.s else default }

  function Array<T>(xs: seq<T>, e: T -> Value): (r: Value)
    ensures r.Arr? && |r.items| == |xs| && forall i :: 0 <= i < |xs| ==> r.items[i] == e(xs[i])
  {
    Arr(seq(|xs|, i requires 0 <= i < |xs| => e(xs[i])))
  }

  function EncodeInt(f: Doubles): int -> Value { n => Int(f, n) }

  function EncodeBits(): nat -> Value { (d: nat) => Num(d) }

  /** An array whose elements decode one by one decodes as a whole. */
  lemma ArrayRoundTrip<S, T>(xs: seq<S>, e: S -> Value, d: Value -> Res<T>, ys: seq<T>)
    requires |ys| == |xs| && forall i :: 0 <= i < |xs| ==> d(e(xs[i])) == Success(ys[i])
    ensures DecodeArray(Array(xs, e), d) == Success(ys)
  {
    var items := Array(xs, e).items;
    var r := DecodeAll(items, d, |items|);
    assert r.value == ys;
  }

  predicate Small(n: int) { -LIMIT < n < LIMIT }

  lemma IntsRoundTrip(f: Doubles, xs: seq<int>)
    requires f.Lawful() && forall i :: 0 <= i < |xs| ==> Small(xs[i])
    ensures DecodeArray(Array(xs, EncodeInt(f)), DecodeDim(f)) == Success(xs)
    ensures Plain(f, Array(xs, EncodeInt(f))) && R.Exact(f, Array(xs, EncodeInt(f)))
  {
    forall i | 0 <= i < |xs| ensures DecodeDim(f)(EncodeInt(f)(xs[i])) == Success(xs[i]) && R.Exact(f, Int(f, xs[i])) && Plain(f, Int(f, xs[i])) {
      IntIsExact(f, xs[i]);
    }
    ArrayRoundTrip(xs, EncodeInt(f), DecodeDim(f), xs);
  }

  lemma IdsRoundTrip(f: Doubles, xs: seq<nat>)
    requires f.Lawful() && forall i :: 0 <= i < |xs| ==> Small(xs[i])
    ensures DecodeArray(Array(xs, EncodeInt(f)), DecodeId(f)) == Success(xs)
    ensures Plain(f, Array(xs, EncodeInt(f))) && R.Exact(f, Array(xs, EncodeInt(f)))
  {
    forall i | 0 <= i < |xs| ensures DecodeId(f)(EncodeInt(f)(xs[i])) == Success(xs[i]) && R.Exact(f, Int(f, xs[i])) && Plain(f, Int(f, xs[i])) {
      IntIsExact(f, xs[i]);
    }
    ArrayRoundTrip(xs, EncodeInt(f), DecodeId(f), xs);
  }

  // ----- attributes -----

  function KindName(k: AttrKind): string {
    match k
    case StringKind => "string"
    case IntKind => "int"
    case FloatKind => "float"
    case BoolKind => "bool"
    case IntsKind => "int_array"
    case FloatsKind => "float_array"
  }

  function EncodePayload(f: Doubles, a: Attribute): Value
    requires a.Agrees()
  {
    match a.kind
    case StringKind => Str(a.value.s)
    case IntKind => Int(f, a.value.i)
    case FloatKind => Num(a.value.bits)
    case BoolKind => Bool(a.value.b)
    case IntsKind => Array(a.value.ints, EncodeInt(f))
    case FloatsKind => Array(a.value.floats, EncodeBits())
  }

  function AttrFields(f: Doubles, a: Attribute): seq<Field>
    requires a.Agrees()
  {
    [Field("key", Str(a.key)), Field("type", Str(KindName(a.kind))), Field("value", EncodePayload(f, a))]
  }

  function DecodePayload(f: Doubles, t: string, v: Value): Res<(AttrKind, AttrValue)> {
    if t == "string" then if v.Str? then Success((StringKind, StringValue(v.s))) else Failure(BadAttribute)
    else if t == "int" then if v.Num? then Success((IntKind, IntValue(ToInt(f, v.d)))) else Failure(BadAttribute)
    else if t == "float" then if v.Num? then Success((FloatKind, FloatValue(v.d))) else Failure(BadAttribute)
    else if t == "bool" then if v.Bool? then Success((BoolKind, BoolValue(v.b))) else Failure(BadAttribute)
    else if t == "int_array" then
      var xs := DecodeArray(v, DecodeDim(f));
      if xs.Failure? then Failure(xs.error) else Success((IntsKind, IntsValue(xs.value)))
    else if t == "float_array" then
      var xs := DecodeArray(v, DecodeBits());
      if xs.Failure? then Failure(xs.error) else Success((FloatsKind, FloatsValue(xs.value)))
    else Failure(BadAttribute)
  }

  function DecodeAttr(f: Doubles): Value -> Res<Attribute> {
    (v: Value) =>
      if !v.Obj? then Failure(ExpectedObject)
      else
        var key, kind, value := Get(v.fields, "key"), Get(v.fields, "type"), Get(v.fields, "value");
        if key.None? || !key.value.Str? || kind.None? || !kind.value.Str? || value.None? then Failure(BadAttribute)
        else
          var p := DecodePayload(f, kind.value.s, value.value);
          if p.Failure? then Failure(p.error) else Success(Attribute(key.value.s, p.value.0, p.value.1))
  }

  /** Numbers in the attribute are integers below the limit, with no negative zero. */
  ghost predicate AttrFits(f: Doubles, a: Attribute) {
    && a.Agrees()
    && match a.value
       case IntValue(i) => Small(i)
       case FloatValue(d) => f.asInt(d).Some? && f.fromInt(f.asInt(d).value) == d
       case IntsValue(xs) => forall i :: 0 <= i < |xs| ==> Small(xs[i])
       case FloatsValue(xs) => forall i :: 0 <= i < |xs| ==> f.asInt(xs[i]).Some? && f.fromInt(f.asInt(xs[i]).value) == xs[i]
       case _ => true
  }

  lemma PayloadRoundTrip(f: Doubles, a: Attribute)
    requires f.Lawful() && AttrFits(f, a)
    ensures DecodePayload(f, KindName(a.kind), EncodePayload(f, a)) == Success((a.kind, a.value))
    ensures Plain(f, EncodePayload(f, a)) && R.Exact(f, EncodePayload(f, a))
  {
    match a.kind
    case IntKind => IntIsExact(f, a.value.i);
    case IntsKind => IntsRoundTrip(f, a.value.ints);
    case FloatsKind => ArrayRoundTrip(a.value.floats, EncodeBits(), DecodeBits(), a.value.floats);
    case _ =>
  }

  lemma AttrRoundTrip(f: Doubles, a: Attribute)
    requires f.Lawful() && AttrFits(f, a)
    ensures DecodeAttr(f)(Object(AttrFields(f, a))) == Success(a)
    ensures Plain(f, Object(AttrFields(f, a))) && R.Exact(f, Object(AttrFields(f, a)))
  {
    hide EncodePayload, DecodePayload, KindName, Assign;
    var fs := AttrFields(f, a);
    assert DistinctKeys(fs);
    GetAssigned(fs, 0);
    GetAssigned(fs, 1);
    GetAssigned(fs, 2);
    PayloadRoundTrip(f, a);
    ObjectExact(f, fs);
  }

  // ----- tensors -----

  function TensorFields(f: Doubles, t: Tensor): seq<Field> {
    [Field("id", Int(f, t.id)), Field("name", Str(t.name)), Field("dtype", Str(DTypeName(t.dtype))),
     Field("shape", Array(t.dims, EncodeInt(f))), Field("storage_hint", Str(HintName(t.hint))), Field("is_weight", Bool(t.isWeight)),
     Field("weight_ref", Str(t.weightRef)), Field("quant_format", Str(QuantName(t.quant)))]
  }

  function DecodeNamed(v: Option<Value>, parse: string -> Option<nat>, e: CodecError): Res<nat> {
    if v.None? || !v.value.Str? then Success(0)
    else
      match parse(v.value.s)
      case None => Failure(e)
      case Some(c) => Success(c)
  }

  function DecodeTensor(f: Doubles): Value -> Res<Tensor> {
    (v: Value) =>
      if !v.Obj? then Failure(ExpectedObject)
      else
        var o := v.fields;
        var id := Get(o, "id");
        if id.None? || !id.value.Num? then Failure(IdRequired)
        else
          var dtype := DecodeNamed(Get(o, "dtype"), (s: string) => ParseDType(s), BadDType);
          if dtype.Failure? then Failure(dtype.error)
          else
            var dims := DecodeOptional(Get(o, "shape"), (x: Value) => DecodeArray(x, DecodeDim(f)));
            if dims.Failure? then Failure(dims.error)
            else
              var hint := DecodeNamed(Get(o, "storage_hint"), (s: string) => ParseHint(s), BadHint);
              if hint.Failure? then Failure(hint.error)
              else
                var w := Get(o, "is_weight");
                var q := Get(o, "quant_format");
                Success(Tensor(ToU64(f, id.value.d), Text(Get(o, "name"), ""), dtype.value, dims.value, hint.value,
                               w.Some? && w.value.Bool? && w.value.b, Text(Get(o, "weight_ref"), ""),
                               if q.Some? && q.value.Str? && ParseQuant(q.value.s).Some? then ParseQuant(q.value.s).value else 0))
  }

  predicate TensorFits(t: Tensor) {
    Small(t.id) && t.dtype < DTYPES && t.hint < HINTS && t.quant < QUANTS && forall i :: 0 <= i < |t.dims| ==> Small(t.dims[i])
  }

  lemma TensorKeys(f: Doubles, t: Tensor)
    ensures DistinctKeys(TensorFields(f, t))
  {
    assert "dtype"[0] != "shape"[0] && "quant_format"[0] != "storage_hint"[0];
  }

  lemma TensorReads(f: Doubles, t: Tensor)
    ensures var o := Assign(TensorFields(f, t));
      && Get(o, "id") == Some(Int(f, t.id)) && Get(o, "name") == Some(Str(t.name)) && Get(o, "dtype") == Some(Str(DTypeName(t.dtype)))
      && Get(o, "shape") == Some(Array(t.dims, EncodeInt(f))) && Get(o, "storage_hint") == Some(Str(HintName(t.hint)))
      && Get(o, "is_weight") == Some(Bool(t.isWeight)) && Get(o, "weight_ref") == Some(Str(t.weightRef))
      && Get(o, "quant_format") == Some(Str(QuantName(t.quant)))
  {
    hide Assign, Get, DTypeName, HintName, QuantName, DistinctKeys, EncodeInt;
    var fs := TensorFields(f, t);
    TensorKeys(f, t);
    GetAssigned(fs, 0);
    GetAssigned(fs, 1);
    GetAssigned(fs, 2);
    GetAssigned(fs, 3);
    GetAssigned(fs, 4);
    GetAssigned(fs, 5);
    GetAssigned(fs, 6);
    GetAssigned(fs, 7);
  }

  lemma TensorExact(f: Doubles, t: Tensor)
    requires f.Lawful() && TensorFits(t)
    ensures Plain(f, Object(TensorFields(f, t))) && R.Exact(f, Object(TensorFields(f, t)))
  {
    hide Object, EncodeInt;
    IntIsExact(f, t.id);
    IntsRoundTrip(f, t.dims);
    ObjectExact(f, TensorFields(f, t));
  }

  lemma TensorRoundTrip(f: Doubles, t: Tensor)
    requires f.Lawful() && TensorFits(t)
    ensures DecodeTensor(f)(Object(TensorFields(f, t))) == Success(t)
  {
    hide Assign, Get, TensorFields, DTypeName, HintName, QuantName, ParseDType, ParseHint, ParseQuant, ToU64, EncodeInt, DecodeArray, Array;
    TensorReads(f, t);
    IntIsExact(f, t.id);
    IntsRoundTrip(f, t.dims);
    DTypeRoundTrip(t.dtype);
    HintRoundTrip(t.hint);
    QuantRoundTrip(t.quant);
  }

  // ----- nodes -----

  predicate AllAgree(attrs: seq<Attribute>) { forall i :: 0 <= i < |attrs| ==> attrs[i].Agrees() }

  function EncodeAttr(f: Doubles): Attribute -> Value {
    (a: Attribute) => if a.Agrees() then Object(AttrFields(f, a)) else Null
  }

  function NodeFields(f: Doubles, n: Node): seq<Field> {
    [Field("id", Int(f, n.id)), Field("name", Str(n.name)), Field("op_name", Str(n.opName)), Field("op_version", Str(n.opVersion)),
     Field("inputs", Array(n.inputs, EncodeInt(f))), Field("outputs", Array(n.outputs, EncodeInt(f))),
     Field("attributes", Array(n.attributes, EncodeAttr(f)))]
  }

  function DecodeNode(f: Doubles): Value -> Res<Node> {
    (v: Value) =>
      if !v.Obj? then Failure(ExpectedObject)
      else
        var o := v.fields;
        var id := Get(o, "id");
        if id.None? || !id.value.Num? then Failure(IdRequired)
        else
          var ins := DecodeOptional(Get(o, "inputs"), (x: Value) => DecodeArray(x, DecodeId(f)));
          if ins.Failure? then Failure(ins.error)
          else
            var outs := DecodeOptional(Get(o, "outputs"), (x: Value) => DecodeArray(x, DecodeId(f)));
            if outs.Failure? then Failure(outs.error)
            else
              var attrs := DecodeOptional(Get(o, "attributes"), (x: Value) => DecodeArray(x, DecodeAttr(f)));
              if attrs.Failure? then Failure(attrs.error)
              else Success(Node(ToU64(f, id.value.d), Text(Get(o, "name"), ""), Text(Get(o, "op_name"), ""), Text(Get(o, "op_version"), "1"),
                                ins.value, outs.value, attrs.value))
  }

  ghost predicate NodeFits(f: Doubles, n: Node) {
    && Small(n.id) && (forall i :: 0 <= i < |n.inputs| ==> Small(n.inputs[i])) && (forall i :: 0 <= i < |n.outputs| ==> Small(n.outputs[i]))
    && forall i :: 0 <= i < |n.attributes| ==> AttrFits(f, n.attributes[i])
  }

  lemma NodeKeys(f: Doubles, n: Node)
    ensures DistinctKeys(NodeFields(f, n))
  {
    assert "attributes"[0] != "op_version"[0] && "op_name"[1] != "outputs"[1];
  }

  lemma AttrsRoundTrip(f: Doubles, attrs: seq<Attribute>)
    requires f.Lawful() && forall i :: 0 <= i < |attrs| ==> AttrFits(f, attrs[i])
    ensures DecodeArray(Array(attrs, EncodeAttr(f)), DecodeAttr(f)) == Success(attrs)
    ensures Plain(f, Array(attrs, EncodeAttr(f))) && R.Exact(f, Array(attrs, EncodeAttr(f)))
  {
    forall i | 0 <= i < |attrs|
      ensures DecodeAttr(f)(EncodeAttr(f)(attrs[i])) == Success(attrs[i])
      ensures Plain(f, EncodeAttr(f)(attrs[i])) && R.Exact(f, EncodeAttr(f)(attrs[i]))
    {
      AttrRoundTrip(f, attrs[i]);
    }
    ArrayRoundTrip(attrs, EncodeAttr(f), DecodeAttr(f), attrs);
  }

  lemma NodeReads(f: Doubles, n: Node)
    ensures var o := Assign(NodeFields(f, n));
      && Get(o, "id") == Some(Int(f, n.id)) && Get(o, "name") == Some(Str(n.name)) && Get(o, "op_name") == Some(Str(n.opName))
      && Get(o, "op_version") == Some(Str(n.opVersion)) && Get(o, "inputs") == Some(Array(n.inputs, EncodeInt(f)))
      && Get(o, "outputs") == Some(Array(n.outputs, EncodeInt(f))) && Get(o, "attributes") == Some(Array(n.attributes, EncodeAttr(f)))
  {
    hide Assign, Get, DistinctKeys, EncodeInt, EncodeAttr;
    var fs := NodeFields(f, n);
    NodeKeys(f, n);
    GetAssigned(fs, 0);
    GetAssigned(fs, 1);
    GetAssigned(fs, 2);
    GetAssigned(fs, 3);
    GetAssigned(fs, 4);
    GetAssigned(fs, 5);
    GetAssigned(fs, 6);
  }

  lemma NodeExact(f: Doubles, n: Node)
    requires f.Lawful() && NodeFits(f, n)
    ensures Plain(f, Object(NodeFields(f, n))) && R.Exact(f, Object(NodeFields(f, n)))
  {
    hide Object, EncodeInt, EncodeAttr, AttrFits, DecodeArray, DecodeAttr;
    IntIsExact(f, n.id);
    IdsRoundTrip(f, n.inputs);
    IdsRoundTrip(f, n.outputs);
    AttrsRoundTrip(f, n.attributes);
    ObjectExact(f, NodeFields(f, n));
  }

  lemma NodeRoundTrip(f: Doubles, n: Node)
    requires f.Lawful() && NodeFits(f, n)
    ensures DecodeNode(f)(Object(NodeFields(f, n))) == Success(n)
  {
    hide Assign, Get, NodeFields, ToU64, EncodeInt, EncodeAttr, DecodeAttr, DecodeArray, AttrFits, Array;
    NodeReads(f, n);
    IntIsExact(f, n.id);
    IdsRoundTrip(f, n.inputs);
    IdsRoundTrip(f, n.outputs);
    AttrsRoundTrip(f, n.attributes);
  }

  // ----- metadata -----

  /** The fields hold exactly the map's entries, in key order. */
  ghost predicate MetaFields(m: map<string, string>, fs: seq<Field>) {
    && Ascending(fs)
    && (forall i :: 0 <= i < |fs| ==> fs[i].key in m && fs[i].value == Str(m[fs[i].key]))
    && (forall k :: k in m ==> exists i :: 0 <= i < |fs| && fs[i].key == k)
  }

  /** Assigning every entry of the map, in whatever order it is walked, gives its sorted fields. */
  method EncodeMeta(m: map<string, string>) returns (fs: seq<Field>)
    ensures MetaFields(m, fs)
  {
    fs := [];
    var left := m.Keys;
    while left != {}
      invariant left <= m.Keys && Ascending(fs)
      invariant forall i :: 0 <= i < |fs| ==> fs[i].key in m.Keys - left && fs[i].value == Str(m[fs[i].key])
      invariant forall k :: k in m.Keys - left ==> exists i :: 0 <= i < |fs| && fs[i].key == k
      decreases |left|
    {
      var k :| k in left;
      MetaStep(m, m.Keys - left, fs, k);
      assert m.Keys - left + {k} == m.Keys - (left - {k});
      fs := Insert(fs, k, Str(m[k]));
      left := left - {k};
    }
    assert m.Keys - left == m.Keys;
  }

  lemma {:induction false} InsertHolds(fs: seq<Field>, key: string, v: Value)
    ensures exists i :: 0 <= i < |Insert(fs, key, v)| && Insert(fs, key, v)[i] == Field(key, v)
    ensures forall i :: 0 <= i < |Insert(fs, key, v)| ==> Insert(fs, key, v)[i] == Field(key, v) || Insert(fs, key, v)[i] in fs
    ensures forall x :: x in fs && x.key != key ==> x in Insert(fs, key, v)
  {
    var r := Insert(fs, key, v);
    if fs == [] || fs[0].key == key || Less(key, fs[0].key) {
      assert r[0] == Field(key, v);
    } else {
      InsertHolds(fs[1..], key, v);
      var i :| 0 <= i < |Insert(fs[1..], key, v)| && Insert(fs[1..], key, v)[i] == Field(key, v);
      assert r[i + 1] == Field(key, v);
      assert fs == [fs[0]] + fs[1..];
    }
  }

  lemma MetaStep(m: map<string, string>, done: set<string>, fs: seq<Field>, k: string)
    requires done <= m.Keys && k in m && k !in done && Ascending(fs)
    requires forall i :: 0 <= i < |fs| ==> fs[i].key in done && fs[i].value == Str(m[fs[i].key])
    requires forall x :: x in done ==> exists i :: 0 <= i < |fs| && fs[i].key == x
    ensures var r := Insert(fs, k, Str(m[k]));
      && Ascending(r)
      && (forall i :: 0 <= i < |r| ==> r[i].key in done + {k} && r[i].value == Str(m[r[i].key]))
      && (forall x :: x in done + {k} ==> exists i :: 0 <= i < |r| && r[i].key == x)
  {
    InsertAscending(fs, k, Str(m[k]));
    InsertHolds(fs, k, Str(m[k]));
    var r := Insert(fs, k, Str(m[k]));
    forall x | x in done + {k} ensures exists i :: 0 <= i < |r| && r[i].key == x {
      if x != k {
        var j :| 0 <= j < |fs| && fs[j].key == x;
        assert fs[j] in r;
      }
    }
  }

  /** The string-valued fields among the first `n`; others are ignored. */
  function DecodeMeta(fs: seq<Field>, n: nat): map<string, string>
    requires n <= |fs|
  {
    if n == 0 then map[]
    else
      var m, x := DecodeMeta(fs, n - 1), fs[n - 1];
      if x.value.Str? then m[x.key := x.value.s] else m
  }

  lemma {:induction false} DecodeMetaHolds(m: map<string, string>, fs: seq<Field>, n: nat)
    requires n <= |fs| && forall i :: 0 <= i < |fs| ==> fs[i].key in m && fs[i].value == Str(m[fs[i].key])
    ensures forall k :: k in DecodeMeta(fs, n) <==> exists i :: 0 <= i < n && fs[i].key == k
    ensures forall k :: k in DecodeMeta(fs, n) ==> k in m && DecodeMeta(fs, n)[k] == m[k]
  {
    if n > 0 { DecodeMetaHolds(m, fs, n - 1); }
  }

  lemma MetaRoundTrip(f: Doubles, m: map<string, string>, fs: seq<Field>)
    requires MetaFields(m, fs)
    ensures DecodeMeta(fs, |fs|) == m
    ensures Plain(f, Obj(fs)) && R.Exact(f, Obj(fs))
  {
    hide Ascending, DecodeMeta;
    DecodeMetaHolds(m, fs, |fs|);
  }

  // ----- graphs -----

  function VersionFields(f: Doubles, v: Version): seq<Field> { [Field("major", Int(f, v.major)), Field("minor", Int(f, v.minor))] }

  function EncodeTensor(f: Doubles): Tensor -> Value { (t: Tensor) => Object(TensorFields(f, t)) }

  function EncodeNode(f: Doubles): Node -> Value { (n: Node) => Object(NodeFields(f, n)) }

  function GraphFields(f: Doubles, g: Graph, meta: seq<Field>): seq<Field> {
    [Field("ir_version", Object(VersionFields(f, g.version))), Field("name", Str(g.name)), Field("producer", Str(g.producer)),
     Field("domain", Str(g.domain)), Field("tensors", Array(g.tensors, EncodeTensor(f))), Field("nodes", Array(g.nodes, EncodeNode(f))),
     Field("inputs", Array(g.inputs, EncodeInt(f))), Field("outputs", Array(g.outputs, EncodeInt(f))), Field("metadata", Obj(meta))]
  }

  function DecodeVersion(f: Doubles, v: Option<Value>): Res<Version> {
    if v.None? then Success(CURRENT)
    else if !v.value.Obj? then Failure(ExpectedObject)
    else
      var major, minor := Get(v.value.fields, "major"), Get(v.value.fields, "minor");
      if major.None? || !major.value.Num? || minor.None? || !minor.value.Num? then Failure(VersionRequired)
      else Success(Version(ToU32(f, major.value.d), ToU32(f, minor.value.d)))
  }

  const DEFAULT_DOMAIN := "uaii"

  /** The reader on a parsed value. */
  function DecodeGraph(f: Doubles, v: Value): Res<Graph> {
    if !v.Obj? then Failure(ExpectedObject)
    else
      var o := v.fields;
      var version := DecodeVersion(f, Get(o, "ir_version"));
      if version.Failure? then Failure(version.error)
      else
        var tensors := DecodeOptional(Get(o, "tensors"), (x: Value) => DecodeArray(x, DecodeTensor(f)));
        if tensors.Failure? then Failure(tensors.error)
        else
          var nodes := DecodeOptional(Get(o, "nodes"), (x: Value) => DecodeArray(x, DecodeNode(f)));
          if nodes.Failure? then Failure(nodes.error)
          else
            var ins := DecodeOptional(Get(o, "inputs"), (x: Value) => DecodeArray(x, DecodeId(f)));
            if ins.Failure? then Failure(ins.error)
            else
              var outs := DecodeOptional(Get(o, "outputs"), (x: Value) => DecodeArray(x, DecodeId(f)));
              if outs.Failure? then Failure(outs.error)
              else
                var meta := Get(o, "metadata");
                Success(Graph(version.value, Text(Get(o, "name"), ""), Text(Get(o, "producer"), ""), Text(Get(o, "domain"), DEFAULT_DOMAIN),
                              tensors.value, nodes.value, ins.value, outs.value,
                              if meta.Some? && meta.value.Obj? then DecodeMeta(meta.value.fields, |meta.value.fields|) else map[]))
  }

  function FromJson(f: Doubles, text: string): Res<Graph> {
    match Parse(f, text)
    case Failure(e) => Failure(NotJson(e))
    case Success(v) => DecodeGraph(f, v)
  }

  // ----- the round trip -----

  /** Every number in the graph is an integer below the printer's limit, and every enumeration code is a known one. */
  ghost predicate GraphFits(f: Doubles, g: Graph) {
    && g.version.major < TWO32 && g.version.minor < TWO32
    && (forall i :: 0 <= i < |g.tensors| ==> TensorFits(g.tensors[i])) && (forall i :: 0 <= i < |g.nodes| ==> NodeFits(f, g.nodes[i]))
    && (forall i :: 0 <= i < |g.inputs| ==> Small(g.inputs[i])) && (forall i :: 0 <= i < |g.outputs| ==> Small(g.outputs[i]))
  }

  lemma GraphKeys(f: Doubles, g: Graph, meta: seq<Field>)
    ensures DistinctKeys(GraphFields(f, g, meta))
  {
    assert "domain"[0] != "inputs"[0] && "metadata"[0] != "producer"[0] && "outputs"[0] != "tensors"[0];
  }

  lemma GraphReads(f: Doubles, g: Graph, meta: seq<Field>)
    ensures var o := Assign(GraphFields(f, g, meta));
      && Get(o, "ir_version") == Some(Object(VersionFields(f, g.version))) && Get(o, "name") == Some(Str(g.name))
      && Get(o, "producer") == Some(Str(g.producer)) && Get(o, "domain") == Some(Str(g.domain))
      && Get(o, "tensors") == Some(Array(g.tensors, EncodeTensor(f))) && Get(o, "nodes") == Some(Array(g.nodes, EncodeNode(f)))
      && Get(o, "inputs") == Some(Array(g.inputs, EncodeInt(f))) && Get(o, "outputs") == Some(Array(g.outputs, EncodeInt(f)))
      && Get(o, "metadata") == Some(Obj(meta))
  {
    hide Assign, Get, DistinctKeys, EncodeInt, EncodeTensor, EncodeNode, Object;
    var fs := GraphFields(f, g, meta);
    GraphKeys(f, g, meta);
    GetAssigned(fs, 0);
    GetAssigned(fs, 1);
    GetAssigned(fs, 2);
    GetAssigned(fs, 3);
    GetAssigned(fs, 4);
    GetAssigned(fs, 5);
    GetAssigned(fs, 6);
    GetAssigned(fs, 7);
    GetAssigned(fs, 8);
  }

  lemma VersionRoundTrip(f: Doubles, v: Version)
    requires f.Lawful() && v.major < TWO32 && v.minor < TWO32
    ensures DecodeVersion(f, Some(Object(VersionFields(f, v)))) == Success(v)
    ensures Plain(f, Object(VersionFields(f, v))) && R.Exact(f, Object(VersionFields(f, v)))
  {
    hide Assign;
    var fs := VersionFields(f, v);
    assert "major"[1] != "minor"[1];
    assert DistinctKeys(fs);
    GetAssigned(fs, 0);
    GetAssigned(fs, 1);
    IntIsExact(f, v.major);
    IntIsExact(f, v.minor);
    ObjectExact(f, fs);
  }

  lemma TensorsRoundTrip(f: Doubles, ts: seq<Tensor>)
    requires f.Lawful() && forall i :: 0 <= i < |ts| ==> TensorFits(ts[i])
    ensures DecodeArray(Array(ts, EncodeTensor(f)), DecodeTensor(f)) == Success(ts)
    ensures Plain(f, Array(ts, EncodeTensor(f))) && R.Exact(f, Array(ts, EncodeTensor(f)))
  {
    hide Object, DecodeTensor;
    forall i | 0 <= i < |ts|
      ensures DecodeTensor(f)(EncodeTensor(f)(ts[i])) == Success(ts[i])
      ensures Plain(f, EncodeTensor(f)(ts[i])) && R.Exact(f, EncodeTensor(f)(ts[i]))
    {
      TensorRoundTrip(f, ts[i]);
      TensorExact(f, ts[i]);
    }
    ArrayRoundTrip(ts, EncodeTensor(f), DecodeTensor(f), ts);
  }

  lemma NodesRoundTrip(f: Doubles, ns: seq<Node>)
    requires f.Lawful() && forall i :: 0 <= i < |ns| ==> NodeFits(f, ns[i])
    ensures DecodeArray(Array(ns, EncodeNode(f)), DecodeNode(f)) == Success(ns)
    ensures Plain(f, Array(ns, EncodeNode(f))) && R.Exact(f, Array(ns, EncodeNode(f)))
  {
    hide Object, DecodeNode, NodeFits;
    forall i | 0 <= i < |ns|
      ensures DecodeNode(f)(EncodeNode(f)(ns[i])) == Success(ns[i])
      ensures Plain(f, EncodeNode(f)(ns[i])) && R.Exact(f, EncodeNode(f)(ns[i]))
    {
      NodeRoundTrip(f, ns[i]);
      NodeExact(f, ns[i]);
    }
    ArrayRoundTrip(ns, EncodeNode(f), DecodeNode(f), ns);
  }

  lemma {:induction false} GraphExact(f: Doubles, g: Graph, meta: seq<Field>)
    requires f.Lawful() && GraphFits(f, g) && MetaFields(g.metadata, meta)
    ensures Plain(f, Object(GraphFields(f, g, meta))) && R.Exact(f, Object(GraphFields(f, g, meta)))
  {
    hide Object, EncodeInt, EncodeTensor, EncodeNode, NodeFits, TensorFits, MetaFields, DecodeArray, DecodeTensor, DecodeNode;
    VersionRoundTrip(f, g.version);
    TensorsRoundTrip(f, g.tensors);
    NodesRoundTrip(f, g.nodes);
    IdsRoundTrip(f, g.inputs);
    IdsRoundTrip(f, g.outputs);
    MetaRoundTrip(f, g.metadata, meta);
    hide VersionFields, EncodeInt, Array;
    var fs := GraphFields(f, g, meta);
    assert FieldExact(f, fs[0]) && FieldExact(f, fs[1]) && FieldExact(f, fs[2]) && FieldExact(f, fs[3]) && FieldExact(f, fs[4]);
    assert FieldExact(f, fs[5]) && FieldExact(f, fs[6]) && FieldExact(f, fs[7]) && FieldExact(f, fs[8]);
    NineExact(f, fs);
  }

  ghost predicate FieldExact(f: Doubles, x: Field) { Plain(f, x.value) && R.Exact(f, x.value) }

  lemma NineExact(f: Doubles, fs: seq<Field>)
    requires |fs| == 9
    requires FieldExact(f, fs[0]) && FieldExact(f, fs[1]) && FieldExact(f, fs[2]) && FieldExact(f, fs[3]) && FieldExact(f, fs[4])
    requires FieldExact(f, fs[5]) && FieldExact(f, fs[6]) && FieldExact(f, fs[7]) && FieldExact(f, fs[8])
    ensures Plain(f, Object(fs)) && R.Exact(f, Object(fs))
  {
    hide Plain, R.Exact, Object;
    forall i | 0 <= i < |fs| ensures Plain(f, fs[i].value) && R.Exact(f, fs[i].value) { assert FieldExact(f, fs[i]); }
    ObjectExact(f, fs);
  }

  lemma DecodeUndoesEncode(f: Doubles, g: Graph, meta: seq<Field>)
    requires f.Lawful() && GraphFits(f, g) && MetaFields(g.metadata, meta)
    ensures DecodeGraph(f, Object(GraphFields(f, g, meta))) == Success(g)
  {
    hide Assign, Get, GraphFields, EncodeInt, EncodeTensor, EncodeNode, DecodeTensor, DecodeNode, DecodeArray, Array, NodeFits, TensorFits,
         VersionFields, DecodeVersion, DecodeMeta, MetaFields;
    GraphReads(f, g, meta);
    VersionRoundTrip(f, g.version);
    TensorsRoundTrip(f, g.tensors);
    NodesRoundTrip(f, g.nodes);
    IdsRoundTrip(f, g.inputs);
    IdsRoundTrip(f, g.outputs);
    MetaRoundTrip(f, g.metadata, meta);
  }

  /** The text the writer makes of a graph: the pretty form of its value tree. */
  ghost predicate IsJsonOf(f: Doubles, g: Graph, text: string) {
    exists meta :: MetaFields(g.metadata, meta) && text == Stringify(f, Object(GraphFields(f, g, meta)), true)
  }

  /** Reading what was written gives the same graph in every field, including the quantisation formats. */
  lemma JsonRoundTripOfGraph(f: Doubles, g: Graph, text: string)
    requires f.Lawful() && GraphFits(f, g) && IsJsonOf(f, g, text)
    ensures FromJson(f, text) == Success(g)
  {
    hide Object, GraphFields, DecodeGraph, GraphFits, MetaFields, Stringify, Parse;
    var meta :| MetaFields(g.metadata, meta) && text == Stringify(f, Object(GraphFields(f, g, meta)), true);
    var v := Object(GraphFields(f, g, meta));
    GraphExact(f, g, meta);
    R.RoundTripIsIdentity(f, v, true);
    DecodeUndoesEncode(f, g, meta);
  }

  // ----- the codec's entry points -----

  /** Attributes whose tag and value disagree cannot be written: the variant access throws. */
  predicate Writable(g: Graph) { forall i :: 0 <= i < |g.nodes| ==> AllAgree(g.nodes[i].attributes) }

  method GraphToJson(f: Doubles, g: Graph) returns (r: Res<string>)
    ensures r.Success? <==> Writable(g)
    ensures r.Success? ==> IsJsonOf(f, g, r.value)
  {
    var tensors: seq<Value> := [];
    for i := 0 to |g.tensors|
      invariant tensors == Array(g.tensors, EncodeTensor(f)).items[..i]
    {
      tensors := tensors + [Object(TensorFields(f, g.tensors[i]))];
    }
    var nodes: seq<Value> := [];
    for i := 0 to |g.nodes|
      invariant nodes == Array(g.nodes, EncodeNode(f)).items[..i]
      invariant forall k :: 0 <= k < i ==> AllAgree(g.nodes[k].attributes)
    {
      if !AllAgree(g.nodes[i].attributes) { return Failure(BadVariant); }
      nodes := nodes + [Object(NodeFields(f, g.nodes[i]))];
    }
    var meta := EncodeMeta(g.metadata);
    var fields := [Field("ir_version", Object(VersionFields(f, g.version))), Field("name", Str(g.name)), Field("producer", Str(g.producer)),
                   Field("domain", Str(g.domain)), Field("tensors", Arr(tensors)), Field("nodes", Arr(nodes)),
                   Field("inputs", Array(g.inputs, EncodeInt(f))), Field("outputs", Array(g.outputs, EncodeInt(f))), Field("metadata", Obj(meta))];
    assert tensors == Array(g.tensors, EncodeTensor(f)).items && nodes == Array(g.nodes, EncodeNode(f)).items;
    assert fields == GraphFields(f, g, meta);
    var text := JsonParser.Stringify(f, Object(fields), true);
    r := Success(text);
  }

  method GraphFromJson(f: Doubles, text: string) returns (r: Res<Graph>)
    ensures r == FromJson(f, text)
  {
    var root := JsonParser.ParseText(f, text);
    if root.Failure? { return Failure(NotJson(root.error)); }
    r := ReadGraph(f, root.value);
  }

  method ReadArray<T>(v: Option<Value>, d: Value -> Res<T>) returns (r: Res<seq<T>>)
    ensures r == DecodeOptional(v, (x: Value) => DecodeArray(x, d))
  {
    if v.None? { return Success([]); }
    if !v.value.Arr? { return Failure(ExpectedArray); }
    r := DecodeEach(v.value.items, d);
  }

  method ReadGraph(f: Doubles, v: Value) returns (r: Res<Graph>)
    ensures r == DecodeGraph(f, v)
  {
    hide DecodeArray, DecodeTensor, DecodeNode, DecodeId, DecodeVersion, Get;
    if !v.Obj? { return Failure(ExpectedObject); }
    var o := v.fields;
    var version := DecodeVersion(f, Get(o, "ir_version"));
    if version.Failure? { return Failure(version.error); }
    var tensors := ReadArray(Get(o, "tensors"), DecodeTensor(f));
    if tensors.Failure? { return Failure(tensors.error); }
    var nodes := ReadArray(Get(o, "nodes"), DecodeNode(f));
    if nodes.Failure? { return Failure(nodes.error); }
    var ins := ReadArray(Get(o, "inputs"), DecodeId(f));
    if ins.Failure? { return Failure(ins.error); }
    var outs := ReadArray(Get(o, "outputs"), DecodeId(f));
    if outs.Failure? { return Failure(outs.error); }
    var metadata: map<string, string> := map[];
    var meta := Get(o, "metadata");
    if meta.Some? && meta.value.Obj? {
      for i := 0 to |meta.value.fields|
        invariant metadata == DecodeMeta(meta.value.fields, i)
      {
        var x := meta.value.fields[i];
        if x.value.Str? { metadata := metadata[x.key := x.value.s]; }
      }
    }
    r := Success(Graph(version.value, Text(Get(o, "name"), ""), Text(Get(o, "producer"), ""), Text(Get(o, "domain"), DEFAULT_DOMAIN),
                       tensors.value, nodes.value, ins.value, outs.value, metadata));
  }
}
