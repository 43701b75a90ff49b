/**
 JSON values as text: the printer in its pretty and compact forms, and what the recursive-descent
 parser makes of any text from any position. Parsing undoes printing. Conversions between
 numbers and text other than integer printing are parameters.
 */
module Json {
  import opened Layout

  /** A 64-bit float by its bit pattern. */
  type Double = nat

  /** The printer switches to integer form below this magnitude. */
  const LIMIT: int := 1_000_000_000_000_000

  /**
   `asInt` is the printer's test: the integer value of a finite integral number below the limit.
   `trunc` converts any other number to an integer, `show` prints it, `parse` reads a literal.
   */
  datatype Doubles = Doubles(fromInt: int -> Double, asInt: Double -> Option<int>, trunc: Double -> int,
                             show: Double -> string, parse: string -> Option<Double>)
  {
    /** Integers below the limit convert exactly, and reading an integer literal gives that integer. */
    ghost predicate Lawful() {
      && (forall n :: -LIMIT < n < LIMIT ==> asInt(fromInt(n)) == Some(n))
      && (forall n :: -LIMIT < n < LIMIT ==> parse(Decimal(n)) == Some(fromInt(n)))
      && (forall d :: asInt(d).Some? ==> -LIMIT < asInt(d).value < LIMIT)
    }
  }

  datatype Value = Null | Bool(b: bool) | Num(d: Double) | Str(s: string) | Arr(items: seq<Value>) | Obj(fields: seq<Field>)

  /** Objects keep their fields in ascending key order, like the ordered map they model. */
  datatype Field = Field(key: string, value: Value)

  datatype JsonError =
    | UnexpectedEnd | UnexpectedCharacter | ExpectedNull | ExpectedBoolean
    | InvalidNumber | InvalidFraction | InvalidExponent | NumberUnreadable
    | UnterminatedEscape | InvalidEscape | InvalidUnicode | UnterminatedString
    | ExpectedCommaOrBracket | KeyNotString | ExpectedColon | ExpectedCommaOrBrace | TrailingCharacters

  // ----- characters -----

  predicate IsSpace(c: char) { c == ' ' || '\t' as int <= c as int <= '\r' as int }

  predicate IsDigit(c: char) { '0' <= c <= '9' }

  function DigitChar(d: nat): (c: char)
    requires d < 10
    ensures IsDigit(c) && (c == '0' <==> d == 0)
  {
    ('0' as int + d) as char
  }

  function Digits(n: nat): (s: string)
    ensures |s| > 0 && forall i :: 0 <= i < |s| ==> IsDigit(s[i])
    ensures s[0] == '0' ==> s == "0"
  {
    if n < 10 then [DigitChar(n)] else Digits(n / 10) + [DigitChar(n % 10)]
  }

  lemma {:induction false} LeadingDigit(n: nat)
    ensures Digits(n)[0] == '0' <==> n == 0
  {
    if n >= 10 { LeadingDigit(n / 10); }
  }

  function Decimal(n: int): string { if n < 0 then "-" + Digits(-n) else Digits(n) }

  function HexChar(x: nat): char
    requires x < 16
  {
    "0123456789abcdef"[x]
  }

  function HexValue(c: char): (r: Option<nat>)
    ensures r.Some? ==> r.value < 16
  {
    if '0' <= c <= '9' then Some(c as int - '0' as int)
    else if 'a' <= c <= 'f' then Some(c as int - 'a' as int + 10)
    else if 'A' <= c <= 'F' then Some(c as int - 'A' as int + 10)
    else None
  }

  // ----- key order and objects -----

  /** Lexicographic order of keys. */
  predicate Less(a: string, b: string) {
    if b == "" then false
    else if a == "" then true
    else a[0] < b[0] || (a[0] == b[0] && Less(a[1..], b[1..]))
  }

  lemma {:induction false} LessIsStrict(a: string, b: string)
    ensures !(Less(a, b) && Less(b, a)) && (Less(a, b) ==> a != b)
  {
    if a != "" && b != "" { LessIsStrict(a[1..], b[1..]); }
  }

  lemma {:induction false} LessIsTotal(a: string, b: string)
    requires a != b
    ensures Less(a, b) || Less(b, a)
  {
    if a != "" && b != "" && a[0] == b[0] {
      assert a == [a[0]] + a[1..] && b == [b[0]] + b[1..];
      LessIsTotal(a[1..], b[1..]);
    }
  }

  lemma {:induction false} LessTransitive(a: string, b: string, c: string)
    requires Less(a, b) && Less(b, c)
    ensures Less(a, c)
  {
    if a != "" && a[0] == b[0] && b[0] == c[0] { LessTransitive(a[1..], b[1..], c[1..]); }
  }

  predicate Ascending(fs: seq<Field>) { forall i, j :: 0 <= i < j < |fs| ==> Less(fs[i].key, fs[j].key) }

  /** Assigning a key of an ordered map. */
  function Insert(fs: seq<Field>, key: string, v: Value): seq<Field> {
    if fs == [] then [Field(key, v)]
    else if fs[0].key == key then [Field(key, v)] + fs[1..]
    else if Less(key, fs[0].key) then [Field(key, v)] + fs
    else [fs[0]] + Insert(fs[1..], key, v)
  }

  function Get(fs: seq<Field>, key: string): Option<Value> {
    if fs == [] then None else if fs[0].key == key then Some(fs[0].value) else Get(fs[1..], key)
  }

  /** A key above all others goes last. */
  lemma {:induction false} InsertLast(fs: seq<Field>, key: string, v: Value)
    requires forall i :: 0 <= i < |fs| ==> Less(fs[i].key, key)
    ensures Insert(fs, key, v) == fs + [Field(key, v)]
  {
    if fs != [] {
      LessIsStrict(fs[0].key, key);
      InsertLast(fs[1..], key, v);
      assert fs == [fs[0]] + fs[1..];
    }
  }

  /** Reading back: the assigned key has the new value, every other key is as before. */
  lemma {:induction false} GetInsert(fs: seq<Field>, key: string, v: Value, k: string)
    requires Ascending(fs)
    ensures Get(Insert(fs, key, v), k) == if k == key then Some(v) else Get(fs, k)
  {
    if fs != [] {
      if fs[0].key == key {
        assert ([Field(key, v)] + fs[1..])[1..] == fs[1..];
      } else if Less(key, fs[0].key) {
        assert ([Field(key, v)] + fs)[1..] == fs;
      } else {
        GetInsert(fs[1..], key, v, k);
        assert ([fs[0]] + Insert(fs[1..], key, v))[1..] == Insert(fs[1..], key, v);
      }
    }
  }

  /** A key below the new key and all old ones is below every key of the result. */
  lemma {:induction false} InsertAbove(fs: seq<Field>, key: string, v: Value, low: string)
    requires Less(low, key) && forall i :: 0 <= i < |fs| ==> Less(low, fs[i].key)
    ensures forall i :: 0 <= i < |Insert(fs, key, v)| ==> Less(low, Insert(fs, key, v)[i].key)
  {
    if fs != [] && fs[0].key != key && !Less(key, fs[0].key) { InsertAbove(fs[1..], key, v, low); }
  }

  lemma {:induction false} InsertAscending(fs: seq<Field>, key: string, v: Value)
    requires Ascending(fs)
    ensures Ascending(Insert(fs, key, v))
  {
    if fs != [] {
      var r := Insert(fs, key, v);
      if fs[0].key == key {
      } else if Less(key, fs[0].key) {
        forall i, j | 0 <= i < j < |r| ensures Less(r[i].key, r[j].key) {
          if i == 0 && j > 1 { LessTransitive(key, fs[0].key, fs[j - 1].key); }
        }
      } else {
        LessIsTotal(key, fs[0].key);
        InsertAscending(fs[1..], key, v);
        InsertAbove(fs[1..], key, v, fs[0].key);
      }
    }
  }

  // ----- printing -----

  function EscapedChar(c: char): (r: string)
    ensures |r| > 0
  {
    if c == '"' then "\\\""
    else if c == '\\' then "\\\\"
    else if c == 8 as char then "\\b"
    else if c == 12 as char then "\\f"
    else if c == '\n' then "\\n"
    else if c == '\r' then "\\r"
    else if c == '\t' then "\\t"
    else if c < ' ' then "\\u00" + [HexChar(c as int / 16), HexChar(c as int % 16)]
    else [c]
  }

  /** The first `n` characters of a string, escaped. */
  function Escaped(s: string, n: nat): string
    requires n <= |s|
  {
    if n == 0 then "" else Escaped(s, n - 1) + EscapedChar(s[n - 1])
  }

  function Quoted(s: string): string { "\"" + Escaped(s, |s|) + "\"" }

  function Pad(n: nat): (r: string)
    ensures forall i :: 0 <= i < |r| ==> IsSpace(r[i])
  {
    if n == 0 then "" else Pad(n - 1) + "  "
  }

  /** A line break followed by the indent, in the pretty form; nothing in the compact form. */
  function Break(pretty: bool, n: nat): (r: string)
    ensures forall i :: 0 <= i < |r| ==> IsSpace(r[i])
  {
    if pretty then "\n" + Pad(n) else ""
  }

  function Number(f: Doubles, d: Double): string {
    match f.asInt(d)
    case Some(n) => Decimal(n)
    case None => f.show(d)
  }

  function Comma(i: nat, n: nat): string { if i + 1 < n then "," else "" }

  function Colon(pretty: bool): string { if pretty then ": " else ":" }

  /** A value as the printer writes it at a nesting depth. */
  function Text(f: Doubles, v: Value, pretty: bool, n: nat): string
    decreases v
  {
    match v
    case Null => "null"
    case Bool(b) => if b then "true" else "false"
    case Num(d) => Number(f, d)
    case Str(s) => Quoted(s)
    case Arr(items) => "[" + Items(f, v, |items|, pretty, n) + (if items == [] then "" else Break(pretty, n)) + "]"
    case Obj(fields) => "{" + Members(f, v, |fields|, pretty, n) + (if fields == [] then "" else Break(pretty, n)) + "}"
  }

  /** The first `i` elements of an array, each on its own line in the pretty form. */
  function Items(f: Doubles, v: Value, i: nat, pretty: bool, n: nat): string
    requires v.Arr? && i <= |v.items|
    decreases v, i
  {
    if i == 0 then ""
    else Items(f, v, i - 1, pretty, n) + (Break(pretty, n + 1) + Text(f, v.items[i - 1], pretty, n + 1) + Comma(i - 1, |v.items|))
  }

  /** The first `i` fields of an object. */
  function Members(f: Doubles, v: Value, i: nat, pretty: bool, n: nat): string
    requires v.Obj? && i <= |v.fields|
    decreases v, i
  {
    if i == 0 then ""
    else
      Members(f, v, i - 1, pretty, n)
      + (Break(pretty, n + 1) + Quoted(v.fields[i - 1].key) + Colon(pretty) + Text(f, v.fields[i - 1].value, pretty, n + 1) + Comma(i - 1, |v.fields|))
  }

  function Stringify(f: Doubles, v: Value, pretty: bool): string { Text(f, v, pretty, 0) + if pretty then "\n" else "" }

  // ----- parsing, from any position of any text -----

  /** A parsed thing and the position after it, or the failure. */
  datatype Parsed<+T> = Parsed(value: T, end: nat) | Stop(error: JsonError)

  function Skip(t: string, p: nat): (q: nat)
    requires p <= |t|
    ensures p <= q <= |t| && (q < |t| ==> !IsSpace(t[q]))
    decreases |t| - p
  {
    if p < |t| && IsSpace(t[p]) then Skip(t, p + 1) else p
  }

  predicate Starts(t: string, p: nat, w: string)
    requires p <= |t|
  {
    p + |w| <= |t| && t[p..p + |w|] == w
  }

  predicate CharAt(t: string, p: nat, c: char) { p < |t| && t[p] == c }

  function DigitsEnd(t: string, p: nat): (q: nat)
    requires p <= |t|
    ensures p <= q <= |t|
    decreases |t| - p
  {
    if p < |t| && IsDigit(t[p]) then DigitsEnd(t, p + 1) else p
  }

  /** Where a number literal ends, part by part. */
  function IntegerEnd(t: string, p: nat): (r: Result<nat, JsonError>)
    requires p <= |t|
    ensures r.Success? ==> p < r.value <= |t|
  {
    var q := if CharAt(t, p, '-') then p + 1 else p;
    if q >= |t| || !IsDigit(t[q]) then Failure(InvalidNumber)
    else if t[q] == '0' then Success(q + 1)
    else Success(DigitsEnd(t, q + 1))
  }

  function FractionEnd(t: string, p: nat): (r: Result<nat, JsonError>)
    requires p <= |t|
    ensures r.Success? ==> p <= r.value <= |t|
  {
    if !CharAt(t, p, '.') then Success(p)
    else if p + 1 >= |t| || !IsDigit(t[p + 1]) then Failure(InvalidFraction)
    else Success(DigitsEnd(t, p + 1))
  }

  function ExponentEnd(t: string, p: nat): (r: Result<nat, JsonError>)
    requires p <= |t|
    ensures r.Success? ==> p <= r.value <= |t|
  {
    if !CharAt(t, p, 'e') && !CharAt(t, p, 'E') then Success(p)
    else
      var q := if CharAt(t, p + 1, '+') || CharAt(t, p + 1, '-') then p + 2 else p + 1;
      if q >= |t| || !IsDigit(t[q]) then Failure(InvalidExponent) else Success(DigitsEnd(t, q))
  }

  function NumberEnd(t: string, p: nat): (r: Result<nat, JsonError>)
    requires p <= |t|
    ensures r.Success? ==> p < r.value <= |t|
  {
    var i := IntegerEnd(t, p);
    if i.Failure? then i
    else
      var q := FractionEnd(t, i.value);
      if q.Failure? then q else ExponentEnd(t, q.value)
  }

  function ParseNumber(f: Doubles, t: string, p: nat): (r: Parsed<Value>)
    requires p <= |t|
    ensures r.Parsed? ==> p < r.end <= |t|
  {
    var e := NumberEnd(t, p);
    if e.Failure? then Stop(e.error)
    else
      match f.parse(t[p..e.value])
      case None => Stop(NumberUnreadable)
      case Some(d) => Parsed(Num(d), e.value)
  }

  /** The bytes of a code point from a four-digit escape. */
  function Utf8(code: nat): string
    requires code < 0x10000
  {
    if code < 0x80 then [code as char]
    else if code < 0x800 then [(0xC0 + code / 64) as char, (0x80 + code % 64) as char]
    else [(0xE0 + code / 4096) as char, (0x80 + (code / 64) % 64) as char, (0x80 + code % 64) as char]
  }

  function Pow16(n: nat): nat { if n == 0 then 1 else Pow16(n - 1) * 16 }

  /** The value of `n` hexadecimal digits. */
  function Hex(t: string, p: nat, n: nat): (r: Option<nat>)
    requires p + n <= |t|
    ensures r.Some? ==> r.value < Pow16(n)
  {
    if n == 0 then Some(0)
    else
      var front, last := Hex(t, p, n - 1), HexValue(t[p + n - 1]);
      if front.None? || last.None? then None else Some(front.value * 16 + last.value)
  }

  function Hex4(t: string, p: nat): (r: Option<nat>)
    requires p + 4 <= |t|
    ensures r.Some? ==> r.value < 0x10000
  {
    assert Pow16(4) == 0x10000 by { assert Pow16(1) == 16 && Pow16(2) == 256 && Pow16(3) == 4096; }
    Hex(t, p, 4)
  }

  /** What one escape sequence stands for; `p` is just after the backslash. */
  function Unescape(t: string, p: nat): (r: Parsed<string>)
    requires p <= |t|
    ensures r.Parsed? ==> p < r.end <= |t|
  {
    if p >= |t| then Stop(UnterminatedEscape)
    else
      var e := t[p];
      if e == '"' || e == '\\' || e == '/' then Parsed([e], p + 1)
      else if e == 'b' then Parsed([8 as char], p + 1)
      else if e == 'f' then Parsed([12 as char], p + 1)
      else if e == 'n' then Parsed("\n", p + 1)
      else if e == 'r' then Parsed("\r", p + 1)
      else if e == 't' then Parsed("\t", p + 1)
      else if e == 'u' then
        if p + 5 > |t| then Stop(InvalidUnicode)
        else
          match Hex4(t, p + 1)
          case None => Stop(InvalidUnicode)
          case Some(code) => Parsed(Utf8(code), p + 5)
      else Stop(InvalidEscape)
  }

  /** The rest of a string literal; `acc` is what has been read. */
  function ParseString(t: string, p: nat, acc: string): (r: Parsed<string>)
    requires p <= |t|
    ensures r.Parsed? ==> p < r.end <= |t|
    decreases |t| - p
  {
    if p >= |t| then Stop(UnterminatedString)
    else if t[p] == '"' then Parsed(acc, p + 1)
    else if t[p] == '\\' then
      var e := Unescape(t, p + 1);
      if e.Stop? then Stop(e.error) else ParseString(t, e.end, acc + e.value)
    else ParseString(t, p + 1, acc + [t[p]])
  }

  function ParseValue(f: Doubles, t: string, p: nat): (r: Parsed<Value>)
    requires p <= |t|
    ensures r.Parsed? ==> p < r.end <= |t|
    decreases |t| - p, 1
  {
    var q := Skip(t, p);
    if q >= |t| then Stop(UnexpectedEnd)
    else
      var c := t[q];
      if c == 'n' then
        if Starts(t, q, "null") then Parsed(Null, q + 4) else Stop(ExpectedNull)
      else if c == 't' || c == 'f' then
        if Starts(t, q, "true") then Parsed(Bool(true), q + 4)
        else if Starts(t, q, "false") then Parsed(Bool(false), q + 5)
        else Stop(ExpectedBoolean)
      else if c == '"' then
        var s := ParseString(t, q + 1, "");
        if s.Stop? then Stop(s.error) else Parsed(Str(s.value), s.end)
      else if c == '[' then
        var r := Skip(t, q + 1);
        if CharAt(t, r, ']') then Parsed(Arr([]), r + 1) else ParseItems(f, t, r, [])
      else if c == '{' then
        var r := Skip(t, q + 1);
        if CharAt(t, r, '}') then Parsed(Obj([]), r + 1) else ParseFields(f, t, r, [])
      else if c == '-' || IsDigit(c) then ParseNumber(f, t, q)
      else Stop(UnexpectedCharacter)
  }

  /** The rest of an array from an element on. */
  function ParseItems(f: Doubles, t: string, p: nat, acc: seq<Value>): (r: Parsed<Value>)
    requires p <= |t|
    ensures r.Parsed? ==> p < r.end <= |t|
    decreases |t| - p, 2
  {
    var v := ParseValue(f, t, p);
    if v.Stop? then Stop(v.error)
    else
      var q := Skip(t, v.end);
      if CharAt(t, q, ']') then Parsed(Arr(acc + [v.value]), q + 1)
      else if CharAt(t, q, ',') then ParseItems(f, t, q + 1, acc + [v.value])
      else Stop(ExpectedCommaOrBracket)
  }

  /** One field of an object: a string, a colon, a value. */
  function ParseField(f: Doubles, t: string, p: nat): (r: Parsed<Field>)
    requires p <= |t|
    ensures r.Parsed? ==> p < r.end <= |t|
    decreases |t| - p, 2
  {
    var k := ParseValue(f, t, p);
    if k.Stop? then Stop(k.error)
    else if !k.value.Str? then Stop(KeyNotString)
    else
      var c := Skip(t, k.end);
      if !CharAt(t, c, ':') then Stop(ExpectedColon)
      else
        var v := ParseValue(f, t, c + 1);
        if v.Stop? then Stop(v.error) else Parsed(Field(k.value.s, v.value), v.end)
  }

  /** The rest of an object from a key on. A repeated key keeps its last value. */
  function ParseFields(f: Doubles, t: string, p: nat, acc: seq<Field>): (r: Parsed<Value>)
    requires p <= |t|
    ensures r.Parsed? ==> p < r.end <= |t|
    decreases |t| - p, 3
  {
    var x := ParseField(f, t, p);
    if x.Stop? then Stop(x.error)
    else
      var q := Skip(t, x.end);
      var acc' := Insert(acc, x.value.key, x.value.value);
      if CharAt(t, q, '}') then Parsed(Obj(acc'), q + 1)
      else if CharAt(t, q, ',') then ParseFields(f, t, q + 1, acc')
      else Stop(ExpectedCommaOrBrace)
  }

  function Parse(f: Doubles, t: string): Result<Value, JsonError> {
    var v := ParseValue(f, t, Skip(t, 0));
    if v.Stop? then Failure(v.error)
    else if Skip(t, v.end) != |t| then Failure(TrailingCharacters)
    else Success(v.value)
  }

  // ----- what comes back -----

  /** Numbers print in integer form and objects are in key order. */
  ghost predicate Plain(f: Doubles, v: Value)
    decreases v
  {
    match v
    case Num(d) => f.asInt(d).Some?
    case Arr(items) => forall i :: 0 <= i < |items| ==> Plain(f, items[i])
    case Obj(fields) => Ascending(fields) && forall i :: 0 <= i < |fields| ==> Plain(f, fields[i].value)
    case _ => true
  }

  /** The value with every number replaced by the integer it prints as: the same but for the sign of zero. */
  function Normal(f: Doubles, v: Value): Value
    decreases v
  {
    match v
    case Num(d) => if f.asInt(d).Some? then Num(f.fromInt(f.asInt(d).value)) else v
    case Arr(items) => Arr(NormalItems(f, v, |items|))
    case Obj(fields) => Obj(NormalFields(f, v, |fields|))
    case _ => v
  }

  function NormalItems(f: Doubles, v: Value, n: nat): (r: seq<Value>)
    requires v.Arr? && n <= |v.items|
    ensures |r| == n && forall i :: 0 <= i < n ==> r[i] == Normal(f, v.items[i])
    decreases v, n
  {
    if n == 0 then [] else NormalItems(f, v, n - 1) + [Normal(f, v.items[n - 1])]
  }

  function NormalFields(f: Doubles, v: Value, n: nat): (r: seq<Field>)
    requires v.Obj? && n <= |v.fields|
    ensures |r| == n && forall i :: 0 <= i < n ==> r[i] == Field(v.fields[i].key, Normal(f, v.fields[i].value))
    decreases v, n
  {
    if n == 0 then [] else NormalFields(f, v, n - 1) + [Field(v.fields[n - 1].key, Normal(f, v.fields[n - 1].value))]
  }
}
