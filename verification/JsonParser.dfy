/**
 The parser as an object that advances a position, and the printer as a writer onto a stream.
 Each method is proved to do what the corresponding function of Json says.
 */
module JsonParser {
  import opened Layout
  import J = Json
  import T = JsonRoundTrip
  import L = JsonLanguage

  type Value = J.Value
  type JsonError = J.JsonError

  /** An outcome of the parser object against the function's: same value and position, or same failure. */
  ghost predicate Follows<V>(p: J.Parsed<V>, r: Result<V, JsonError>, pos: nat) {
    match p
    case Parsed(v, e) => r == Success(v) && pos == e
    case Stop(error) => r == Failure(error)
  }

  datatype Next = Close | Comma | Neither

  lemma {:induction false} HexFails(t: string, p: nat, i: nat, n: nat)
    requires i <= n && p + n <= |t| && J.Hex(t, p, i).None?
    ensures J.Hex(t, p, n).None?
  {
    if i < n { HexFails(t, p, i, n - 1); }
  }

  class Parser {
    const f: J.Doubles
    const text: string
    var pos: nat

    ghost predicate Valid()
      reads this
    {
      pos <= |text|
    }

    constructor (f: J.Doubles, text: string)
      ensures Valid() && this.f == f && this.text == text && pos == 0
    {
      this.f, this.text, pos := f, text, 0;
    }

    method SkipWs()
      requires Valid()
      modifies this
      ensures Valid() && pos == J.Skip(text, old(pos))
    {
      while pos < |text| && J.IsSpace(text[pos])
        invariant old(pos) <= pos <= |text| && J.Skip(text, pos) == J.Skip(text, old(pos))
      {
        pos := pos + 1;
      }
    }

    method Consume(c: char) returns (ok: bool)
      requires Valid()
      modifies this
      ensures Valid()
      ensures ok <==> J.CharAt(text, J.Skip(text, old(pos)), c)
      ensures pos == if ok then J.Skip(text, old(pos)) + 1 else J.Skip(text, old(pos))
    {
      SkipWs();
      if pos < |text| && text[pos] == c {
        pos := pos + 1;
        return true;
      }
      return false;
    }

    /** After an element: the closing character, else a comma, else neither. */
    method AfterElement(close: char) returns (n: Next)
      requires Valid()
      modifies this
      ensures Valid()
      ensures var q := J.Skip(text, old(pos));
        && (n.Close? <==> J.CharAt(text, q, close)) && (n.Comma? <==> !J.CharAt(text, q, close) && J.CharAt(text, q, ','))
        && pos == if n.Neither? then q else q + 1
    {
      SkipWs();
      T.SkipTwice(text, old(pos));
      var done := Consume(close);
      if done { return Close; }
      var more := Consume(',');
      return if more then Comma else Neither;
    }

    method SkipDigits()
      requires Valid()
      modifies this
      ensures Valid() && pos == J.DigitsEnd(text, old(pos))
    {
      while pos < |text| && J.IsDigit(text[pos])
        invariant old(pos) <= pos <= |text| && J.DigitsEnd(text, pos) == J.DigitsEnd(text, old(pos))
      {
        pos := pos + 1;
      }
    }

    /** The integer part of a number literal; the other two parts follow the same pattern. */
    method ScanInteger() returns (error: Option<JsonError>)
      requires Valid()
      modifies this
      ensures Valid()
      ensures match J.IntegerEnd(text, old(pos)) case Success(e) => error.None? && pos == e case Failure(x) => error == Some(x)
    {
      if pos < |text| && text[pos] == '-' { pos := pos + 1; }
      if pos >= |text| || !J.IsDigit(text[pos]) { return Some(J.InvalidNumber); }
      if text[pos] == '0' {
        pos := pos + 1;
      } else {
        pos := pos + 1;
        SkipDigits();
      }
      return None;
    }

    method ScanFraction() returns (error: Option<JsonError>)
      requires Valid()
      modifies this
      ensures Valid()
      ensures match J.FractionEnd(text, old(pos)) case Success(e) => error.None? && pos == e case Failure(x) => error == Some(x)
    {
      if pos < |text| && text[pos] == '.' {
        pos := pos + 1;
        if pos >= |text| || !J.IsDigit(text[pos]) { return Some(J.InvalidFraction); }
        SkipDigits();
      }
      return None;
    }

    method ScanExponent() returns (error: Option<JsonError>)
      requires Valid()
      modifies this
      ensures Valid()
      ensures match J.ExponentEnd(text, old(pos)) case Success(e) => error.None? && pos == e case Failure(x) => error == Some(x)
    {
      if pos < |text| && (text[pos] == 'e' || text[pos] == 'E') {
        pos := pos + 1;
        if pos < |text| && (text[pos] == '+' || text[pos] == '-') { pos := pos + 1; }
        if pos >= |text| || !J.IsDigit(text[pos]) { return Some(J.InvalidExponent); }
        SkipDigits();
      }
      return None;
    }

    method ParseNumber() returns (r: Result<Value, JsonError>)
      requires Valid()
      modifies this
      ensures Valid() && Follows(J.ParseNumber(f, text, old(pos)), r, pos)
    {
      var start := pos;
      var error := ScanInteger();
      if error.Some? { return Failure(error.value); }
      error := ScanFraction();
      if error.Some? { return Failure(error.value); }
      error := ScanExponent();
      if error.Some? { return Failure(error.value); }
      var d := f.parse(text[start..pos]);
      if d.None? { return Failure(J.NumberUnreadable); }
      return Success(J.Num(d.value));
    }

    /** The four hexadecimal digits of a `\u` escape. */
    method ReadHex4() returns (code: Option<nat>)
      requires pos + 4 <= |text|
      modifies this
      ensures code == J.Hex4(text, old(pos)) && pos <= |text| && (code.Some? ==> pos == old(pos) + 4)
    {
      var start := pos;
      var sum := 0;
      for i := 0 to 4
        invariant pos == start + i && 0 <= sum && J.Hex(text, start, i) == Some(sum)
      {
        var h := J.HexValue(text[pos]);
        pos := pos + 1;
        if h.None? {
          HexFails(text, start, i + 1, 4);
          return None;
        }
        sum := sum * 16 + h.value;
      }
      return Some(sum);
    }

    method ReadEscape() returns (r: Result<string, JsonError>)
      requires Valid()
      modifies this
      ensures Valid() && Follows(J.Unescape(text, old(pos)), r, pos)
    {
      if pos >= |text| { return Failure(J.UnterminatedEscape); }
      var e := text[pos];
      pos := pos + 1;
      match e {
        case '"' => return Success([e]);
        case '\\' => return Success([e]);
        case '/' => return Success([e]);
        case 'b' => return Success([8 as char]);
        case 'f' => return Success([12 as char]);
        case 'n' => return Success("\n");
        case 'r' => return Success("\r");
        case 't' => return Success("\t");
        case 'u' =>
          if pos + 4 > |text| { return Failure(J.InvalidUnicode); }
          var code := ReadHex4();
          if code.None? { return Failure(J.InvalidUnicode); }
          return Success(J.Utf8(code.value));
        case _ => return Failure(J.InvalidEscape);
      }
    }

    /** The rest of a string literal, after its opening quote. */
    method ParseString() returns (r: Result<string, JsonError>)
      requires Valid()
      modifies this
      ensures Valid() && Follows(J.ParseString(text, old(pos), ""), r, pos)
    {
      var s := "";
      while pos < |text|
        invariant pos <= |text| && J.ParseString(text, pos, s) == J.ParseString(text, old(pos), "")
        decreases |text| - pos
      {
        var c := text[pos];
        pos := pos + 1;
        if c == '"' { return Success(s); }
        if c == '\\' {
          var e := ReadEscape();
          if e.Failure? { return Failure(e.error); }
          s := s + e.value;
        } else {
          s := s + [c];
        }
      }
      return Failure(J.UnterminatedString);
    }

    method ParseValue() returns (r: Result<Value, JsonError>)
      requires Valid()
      modifies this
      ensures Valid() && Follows(J.ParseValue(f, text, old(pos)), r, pos)
      decreases |text| - pos, 1
    {
      SkipWs();
      if pos >= |text| { return Failure(J.UnexpectedEnd); }
      var c := text[pos];
      if c == 'n' {
        if !J.Starts(text, pos, "null") { return Failure(J.ExpectedNull); }
        pos := pos + 4;
        return Success(J.Null);
      }
      if c == 't' || c == 'f' {
        if J.Starts(text, pos, "true") {
          pos := pos + 4;
          return Success(J.Bool(true));
        }
        if J.Starts(text, pos, "false") {
          pos := pos + 5;
          return Success(J.Bool(false));
        }
        return Failure(J.ExpectedBoolean);
      }
      if c == '"' {
        pos := pos + 1;
        var s := ParseString();
        if s.Failure? { return Failure(s.error); }
        return Success(J.Str(s.value));
      }
      if c == '[' {
        pos := pos + 1;
        r := ParseArray();
        return;
      }
      if c == '{' {
        pos := pos + 1;
        r := ParseObject();
        return;
      }
      if c == '-' || J.IsDigit(c) {
        r := ParseNumber();
        return;
      }
      return Failure(J.UnexpectedCharacter);
    }

    /** After the opening bracket: elements separated by commas up to the closing bracket. */
    method ParseArray() returns (r: Result<Value, JsonError>)
      requires Valid()
      modifies this
      ensures Valid()
      ensures var q := J.Skip(text, old(pos));
        Follows(if J.CharAt(text, q, ']') then J.Parsed(J.Arr([]), q + 1) else J.ParseItems(f, text, q, []), r, pos)
      decreases |text| - pos, 4
    {
      hide J.ParseValue, J.Skip;
      SkipWs();
      ghost var start := pos;
      T.SkipTwice(text, old(pos));
      var empty := Consume(']');
      if empty { return Success(J.Arr([])); }
      var items := [];
      while true
        invariant old(pos) <= pos <= |text| && J.ParseItems(f, text, pos, items) == J.ParseItems(f, text, start, [])
        decreases |text| - pos
      {
        var item := ParseValue();
        if item.Failure? { return Failure(item.error); }
        items := items + [item.value];
        var next := AfterElement(']');
        if next.Close? { return Success(J.Arr(items)); }
        if next.Neither? { return Failure(J.ExpectedCommaOrBracket); }
      }
    }

    method ParseField() returns (r: Result<J.Field, JsonError>)
      requires Valid()
      modifies this
      ensures Valid() && Follows(J.ParseField(f, text, old(pos)), r, pos)
      decreases |text| - pos, 2
    {
      hide J.ParseValue;
      var key := ParseValue();
      if key.Failure? { return Failure(key.error); }
      if !key.value.Str? { return Failure(J.KeyNotString); }
      var colon := Consume(':');
      if !colon { return Failure(J.ExpectedColon); }
      var value := ParseValue();
      if value.Failure? { return Failure(value.error); }
      return Success(J.Field(key.value.s, value.value));
    }

    /** After the opening brace: fields separated by commas up to the closing brace. */
    method ParseObject() returns (r: Result<Value, JsonError>)
      requires Valid()
      modifies this
      ensures Valid()
      ensures var q := J.Skip(text, old(pos));
        Follows(if J.CharAt(text, q, '}') then J.Parsed(J.Obj([]), q + 1) else J.ParseFields(f, text, q, []), r, pos)
      decreases |text| - pos, 4
    {
      hide J.ParseField, J.Insert, J.Skip;
      SkipWs();
      ghost var start := pos;
      T.SkipTwice(text, old(pos));
      var empty := Consume('}');
      if empty { return Success(J.Obj([])); }
      var fields := [];
      while true
        invariant old(pos) <= pos <= |text| && J.ParseFields(f, text, pos, fields) == J.ParseFields(f, text, start, [])
        decreases |text| - pos
      {
        var field := ParseField();
        if field.Failure? { return Failure(field.error); }
        fields := J.Insert(fields, field.value.key, field.value.value);
        var next := AfterElement('}');
        if next.Close? { return Success(J.Obj(fields)); }
        if next.Neither? { return Failure(J.ExpectedCommaOrBrace); }
      }
    }

    method Parse() returns (r: Result<Value, JsonError>)
      requires Valid() && pos == 0
      modifies this
      ensures Valid() && r == J.Parse(f, text)
    {
      SkipWs();
      r := ParseValue();
      if r.Failure? { return; }
      SkipWs();
      if pos != |text| { return Failure(J.TrailingCharacters); }
    }
  }

  /** The whole parse of a text; it ends on every input, and succeeds on the texts of the language, with their meaning. */
  method ParseText(f: J.Doubles, text: string) returns (r: Result<Value, JsonError>)
    ensures r == J.Parse(f, text)
    ensures r.Success? ==> exists x :: L.IsText(f, text, x) && L.Meaning(x) == r.value
    ensures r.Failure? ==> forall x :: !L.IsText(f, text, x)
  {
    hide *;
    var p := new Parser(f, text);
    r := p.Parse();
    if r.Success? {
      L.ParsesExactly(f, text, r.value);
    } else {
      forall x ensures !L.IsText(f, text, x) {
        L.ParsesExactly(f, text, L.Meaning(x));
      }
    }
  }

  // ----- the printer -----

  class Stream {
    var text: string

    constructor ()
      ensures text == ""
    {
      text := "";
    }

    method Put(s: string)
      modifies this
      ensures text == old(text) + s
    {
      text := text + s;
    }
  }

  method WriteEscaped(os: Stream, s: string)
    modifies os
    ensures os.text == old(os.text) + J.Quoted(s)
  {
    os.Put("\"");
    for i := 0 to |s|
      invariant os.text == old(os.text) + ("\"" + J.Escaped(s, i))
    {
      hide J.EscapedChar;
      Assoc(old(os.text), "\"" + J.Escaped(s, i), J.EscapedChar(s[i]));
      Assoc("\"", J.Escaped(s, i), J.EscapedChar(s[i]));
      os.Put(J.EscapedChar(s[i]));
    }
    Assoc(old(os.text), "\"" + J.Escaped(s, |s|), "\"");
    os.Put("\"");
  }

  method WritePad(os: Stream, pretty: bool, n: nat)
    modifies os
    ensures os.text == old(os.text) + if pretty then J.Pad(n) else ""
  {
    if pretty {
      for i := 0 to n
        invariant os.text == old(os.text) + J.Pad(i)
      {
        os.Put("  ");
      }
    }
  }

  function NewLine(pretty: bool): string { if pretty then "\n" else "" }

  method Dump(os: Stream, f: J.Doubles, v: Value, pretty: bool, indent: nat)
    modifies os
    ensures os.text == old(os.text) + J.Text(f, v, pretty, indent)
    decreases v
  {
    match v
    case Null => os.Put("null");
    case Bool(b) => os.Put(if b then "true" else "false");
    case Num(d) =>
      var n := f.asInt(d);
      if n.Some? { os.Put(J.Decimal(n.value)); } else { os.Put(f.show(d)); }
    case Str(s) => WriteEscaped(os, s);
    case Arr(items) => DumpArray(os, f, v, pretty, indent);
    case Obj(fields) => DumpObject(os, f, v, pretty, indent);
  }

  /** Line breaks are written after the bracket and after each element; the text is the same as with breaks before them. */
  method DumpArray(os: Stream, f: J.Doubles, v: Value, pretty: bool, indent: nat)
    requires v.Arr?
    modifies os
    ensures os.text == old(os.text) + J.Text(f, v, pretty, indent)
    decreases v, 1
  {
    ghost var before := os.text;
    hide J.Items, J.Text, J.Break, Lines;
    os.Put("[");
    if pretty && v.items != [] { os.Put("\n"); }
    OpenLayout(before, "[", pretty, v.items == [], os.text);
    ItemsLayout(f, v, pretty, indent);
    for i := 0 to |v.items|
      invariant os.text == Lines(before, "[", J.Items(f, v, i, pretty, indent), pretty, v.items == [])
    {
      DumpItem(os, f, v, i, pretty, indent);
      ItemLayout(before, "[", J.Items(f, v, i, pretty, indent), pretty, indent, J.Text(f, v.items[i], pretty, indent + 1), J.Comma(i, |v.items|), os.text);
    }
    if pretty && v.items != [] { WritePad(os, pretty, indent); }
    os.Put("]");
    CloseLayout(before, "[", J.Items(f, v, |v.items|, pretty, indent), pretty, indent, "]", v.items == [], os.text);
  }

  lemma ItemsLayout(f: J.Doubles, v: Value, pretty: bool, n: nat)
    requires v.Arr?
    ensures J.Items(f, v, 0, pretty, n) == ""
    ensures forall i: nat :: i < |v.items| ==>
      J.Items(f, v, i + 1, pretty, n) == J.Items(f, v, i, pretty, n) + (J.Break(pretty, n + 1) + J.Text(f, v.items[i], pretty, n + 1) + J.Comma(i, |v.items|))
    ensures J.Text(f, v, pretty, n) == "[" + J.Items(f, v, |v.items|, pretty, n) + (if v.items == [] then "" else J.Break(pretty, n)) + "]"
  {}

  lemma {:induction false} MembersLayout(f: J.Doubles, v: Value, pretty: bool, n: nat)
    requires v.Obj?
    ensures J.Members(f, v, 0, pretty, n) == ""
    ensures forall i: nat :: i < |v.fields| ==>
      J.Members(f, v, i + 1, pretty, n) == J.Members(f, v, i, pretty, n)
        + (J.Break(pretty, n + 1) + J.Quoted(v.fields[i].key) + J.Colon(pretty) + J.Text(f, v.fields[i].value, pretty, n + 1) + J.Comma(i, |v.fields|))
    ensures J.Text(f, v, pretty, n) == "{" + J.Members(f, v, |v.fields|, pretty, n) + (if v.fields == [] then "" else J.Break(pretty, n)) + "}"
  {
    hide J.Items, J.Break, J.Quoted, J.Colon, J.Comma;
  }

  /** One line of an object. */
  method DumpField(os: Stream, f: J.Doubles, v: Value, i: nat, pretty: bool, indent: nat)
    requires v.Obj? && i < |v.fields|
    modifies os
    ensures os.text == old(os.text) + (if pretty then J.Pad(indent + 1) else "") + J.Quoted(v.fields[i].key) + J.Colon(pretty)
                       + J.Text(f, v.fields[i].value, pretty, indent + 1) + J.Comma(i, |v.fields|) + NewLine(pretty)
    decreases v, 0
  {
    hide J.Quoted, J.Text;
    WritePad(os, pretty, indent + 1);
    WriteEscaped(os, v.fields[i].key);
    os.Put(J.Colon(pretty));
    Dump(os, f, v.fields[i].value, pretty, indent + 1);
    os.Put(J.Comma(i, |v.fields|));
    os.Put(NewLine(pretty));
  }

  /** One line of an array. */
  method DumpItem(os: Stream, f: J.Doubles, v: Value, i: nat, pretty: bool, indent: nat)
    requires v.Arr? && i < |v.items|
    modifies os
    ensures os.text == old(os.text) + (if pretty then J.Pad(indent + 1) else "") + J.Text(f, v.items[i], pretty, indent + 1)
                       + J.Comma(i, |v.items|) + NewLine(pretty)
    decreases v, 0
  {
    hide J.Text;
    WritePad(os, pretty, indent + 1);
    Dump(os, f, v.items[i], pretty, indent + 1);
    os.Put(J.Comma(i, |v.items|));
    os.Put(NewLine(pretty));
  }

  method DumpObject(os: Stream, f: J.Doubles, v: Value, pretty: bool, indent: nat)
    requires v.Obj?
    modifies os
    ensures os.text == old(os.text) + J.Text(f, v, pretty, indent)
    decreases v, 1
  {
    ghost var before := os.text;
    hide J.Members, J.Text, J.Break, J.Quoted, Lines;
    os.Put("{");
    if pretty && v.fields != [] { os.Put("\n"); }
    OpenLayout(before, "{", pretty, v.fields == [], os.text);
    MembersLayout(f, v, pretty, indent);
    for i := 0 to |v.fields|
      invariant os.text == Lines(before, "{", J.Members(f, v, i, pretty, indent), pretty, v.fields == [])
    {
      DumpField(os, f, v, i, pretty, indent);
      FieldLayout(before, "{", J.Members(f, v, i, pretty, indent), pretty, indent, J.Quoted(v.fields[i].key), J.Colon(pretty),
                  J.Text(f, v.fields[i].value, pretty, indent + 1), J.Comma(i, |v.fields|), os.text);
    }
    if pretty && v.fields != [] { WritePad(os, pretty, indent); }
    os.Put("}");
    CloseLayout(before, "{", J.Members(f, v, |v.fields|, pretty, indent), pretty, indent, "}", v.fields == [], os.text);
  }

  /** What the stream holds between two elements: with any at all, the pretty form has just broken the line. */
  function Lines(before: string, open: string, front: string, pretty: bool, empty: bool): string {
    if empty then before + open else before + (open + front + NewLine(pretty))
  }

  lemma OpenLayout(before: string, open: string, pretty: bool, empty: bool, text: string)
    requires text == if pretty && !empty then before + open + "\n" else before + open
    ensures text == Lines(before, open, "", pretty, empty)
  {}

  lemma Assoc(a: string, b: string, c: string)
    ensures a + b + c == a + (b + c)
  {}

  lemma ItemLayout(before: string, open: string, front: string, pretty: bool, n: nat, w: string, comma: string, text: string)
    requires text == Lines(before, open, front, pretty, false) + (if pretty then J.Pad(n + 1) else "") + w + comma + NewLine(pretty)
    ensures text == Lines(before, open, front + (J.Break(pretty, n + 1) + w + comma), pretty, false)
  {
    var base, nl, brk := before + (open + front), NewLine(pretty), J.Break(pretty, n + 1);
    var pad := if pretty then J.Pad(n + 1) else "";
    Assoc(before, open + front, nl);
    Assoc(base, nl, pad);
    assert nl + pad == brk;
    Assoc(base, brk, w);
    Assoc(base, brk + w, comma);
    PieceLayout(before, open, front, brk + w + comma, nl);
  }

  lemma FieldLayout(before: string, open: string, front: string, pretty: bool, n: nat, key: string, colon: string, w: string, comma: string, text: string)
    requires text == Lines(before, open, front, pretty, false) + (if pretty then J.Pad(n + 1) else "") + key + colon + w + comma + NewLine(pretty)
    ensures text == Lines(before, open, front + (J.Break(pretty, n + 1) + key + colon + w + comma), pretty, false)
  {
    var base, nl, brk := before + (open + front), NewLine(pretty), J.Break(pretty, n + 1);
    var pad := if pretty then J.Pad(n + 1) else "";
    Assoc(before, open + front, nl);
    Assoc(base, nl, pad);
    assert nl + pad == brk;
    Assoc(base, brk, key);
    Assoc(base, brk + key, colon);
    Assoc(base, brk + key + colon, w);
    Assoc(base, brk + key + colon + w, comma);
    PieceLayout(before, open, front, brk + key + colon + w + comma, nl);
  }

  lemma PieceLayout(before: string, open: string, front: string, piece: string, nl: string)
    ensures before + (open + front) + piece + nl == before + (open + (front + piece) + nl)
  {
    Assoc(before, open + front, piece);
    Assoc(open, front, piece);
    Assoc(before, open + (front + piece), nl);
  }

  lemma CloseLayout(before: string, open: string, body: string, pretty: bool, n: nat, close: string, empty: bool, text: string)
    requires text == Lines(before, open, body, pretty, empty) + (if pretty && !empty then J.Pad(n) else "") + close
    requires empty ==> body == ""
    ensures text == before + (open + body + (if empty then "" else J.Break(pretty, n)) + close)
  {}

  method Stringify(f: J.Doubles, v: Value, pretty: bool) returns (text: string)
    ensures text == J.Stringify(f, v, pretty)
  {
    var os := new Stream();
    Dump(os, f, v, pretty, 0);
    if pretty { os.Put("\n"); }
    text := os.text;
  }
}
