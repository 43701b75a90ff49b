/**
 Parsing undoes printing: in both forms, at any depth, wherever the printed text stands inside a
 larger text.
 */
module JsonRoundTrip {
  import opened Layout
  import opened Json
  import opened Within

  // ----- white space -----

  lemma {:induction false} SkipSpaces(t: string, p: nat, w: string)
    requires At(t, p, w) && forall i :: 0 <= i < |w| ==> IsSpace(w[i])
    ensures Skip(t, p) == Skip(t, p + |w|)
    decreases |w|
  {
    hide At;
    if w != "" {
      AtFirst(t, p, w);
      AtRest(t, p, w);
      SkipSpaces(t, p + 1, w[1..]);
    }
  }

  lemma SkipNone(t: string, p: nat)
    requires p < |t| && !IsSpace(t[p])
    ensures Skip(t, p) == p
  {}

  lemma SkipTwice(t: string, p: nat)
    requires p <= |t|
    ensures Skip(t, Skip(t, p)) == Skip(t, p)
  {}

  /** White space before a value does not matter. */
  lemma ValueAfterSpaces(f: Doubles, t: string, p: nat, w: string)
    requires At(t, p, w) && forall i :: 0 <= i < |w| ==> IsSpace(w[i])
    ensures ParseValue(f, t, p) == ParseValue(f, t, p + |w|)
  {
    SkipSpaces(t, p, w);
  }

  // ----- strings -----

  lemma HexRoundTrip(x: nat)
    requires x < 16
    ensures HexValue(HexChar(x)) == Some(x)
  {
    var h := "0123456789abcdef";
    assert h[0] == '0' && h[1] == '1' && h[2] == '2' && h[3] == '3' && h[4] == '4' && h[5] == '5' && h[6] == '6' && h[7] == '7';
    assert h[8] == '8' && h[9] == '9' && h[10] == 'a' && h[11] == 'b' && h[12] == 'c' && h[13] == 'd' && h[14] == 'e' && h[15] == 'f';
  }

  lemma ControlChar(t: string, p: nat, c: char)
    requires c < ' ' && At(t, p, "\\u00" + [HexChar(c as int / 16), HexChar(c as int % 16)])
    ensures Unescape(t, p + 1) == Parsed([c], p + 6)
  {
    var w := "\\u00" + [HexChar(c as int / 16), HexChar(c as int % 16)];
    assert t[p + 1] == w[1] == 'u' && t[p + 2] == w[2] == '0' && t[p + 3] == w[3] == '0';
    assert t[p + 4] == w[4] == HexChar(c as int / 16) && t[p + 5] == w[5] == HexChar(c as int % 16);
    HexRoundTrip(c as int / 16);
    HexRoundTrip(c as int % 16);
    HexFour(t, p + 2, c as int / 16, c as int % 16);
    hide Hex4;
  }

  lemma HexFour(t: string, p: nat, hi: nat, lo: nat)
    requires p + 4 <= |t| && t[p] == '0' && t[p + 1] == '0' && HexValue(t[p + 2]) == Some(hi) && HexValue(t[p + 3]) == Some(lo)
    ensures Hex4(t, p) == Some(hi * 16 + lo)
  {
    assert HexValue('0') == Some(0);
    hide HexValue;
    assert Hex(t, p, 0) == Some(0);
    assert Hex(t, p, 1) == Some(0);
    assert Hex(t, p, 2) == Some(0);
    assert Hex(t, p, 3) == Some(hi);
  }

  /** Reading one escaped character adds that character. */
  lemma ReadsEscapedChar(t: string, p: nat, c: char, acc: string)
    requires At(t, p, EscapedChar(c))
    ensures p + |EscapedChar(c)| <= |t|
    ensures ParseString(t, p, acc) == ParseString(t, p + |EscapedChar(c)|, acc + [c])
  {
    var w := EscapedChar(c);
    assert t[p + 0] == w[0];
    if |w| == 2 {
      assert t[p + 1] == w[1];
      assert Unescape(t, p + 1) == Parsed([c], p + 2);
    } else if |w| == 6 {
      ControlChar(t, p, c);
    }
  }

  lemma {:induction false} ReadsEscaped(t: string, p: nat, s: string, n: nat)
    requires n <= |s| && At(t, p, Escaped(s, n))
    ensures ParseString(t, p, "") == ParseString(t, p + |Escaped(s, n)|, s[..n])
  {
    hide At, EscapedChar, ParseString;
    if n > 0 {
      AtJoin(t, p, Escaped(s, n - 1), EscapedChar(s[n - 1]));
      ReadsEscaped(t, p, s, n - 1);
      ReadsEscapedChar(t, p + |Escaped(s, n - 1)|, s[n - 1], s[..n - 1]);
      assert s[..n] == s[..n - 1] + [s[n - 1]];
    }
  }

  /** A quoted string reads back, whatever characters it holds. */
  lemma ReadsQuoted(t: string, p: nat, s: string)
    requires At(t, p, Quoted(s))
    ensures t[p] == '"' && ParseString(t, p + 1, "") == Parsed(s, p + |Quoted(s)|)
  {
    hide At, Escaped;
    var e := Escaped(s, |s|);
    AtJoin3(t, p, "\"", e, "\"");
    AtFirst(t, p, "\"");
    AtFirst(t, p + 1 + |e|, "\"");
    ReadsEscaped(t, p + 1, s, |s|);
    assert s[..|s|] == s;
  }

  // ----- numbers -----

  /** Nothing that would extend a number literal follows. */
  predicate NumberStops(t: string, q: nat) { q < |t| ==> !IsDigit(t[q]) && t[q] != '.' && t[q] != 'e' && t[q] != 'E' }

  lemma {:induction false} DigitsRun(t: string, p: nat, w: string)
    requires At(t, p, w) && (forall i :: 0 <= i < |w| ==> IsDigit(w[i])) && NumberStops(t, p + |w|)
    ensures DigitsEnd(t, p) == p + |w|
    decreases |w|
  {
    hide At;
    if w != "" {
      AtFirst(t, p, w);
      AtRest(t, p, w);
      DigitsRun(t, p + 1, w[1..]);
    }
  }

  lemma IntegerRun(t: string, p: nat, n: nat)
    requires At(t, p, Digits(n)) && NumberStops(t, p + |Digits(n)|)
    requires IsDigit(t[p])
    ensures IntegerEnd(t, p) == Success(p + |Digits(n)|)
  {
    hide At;
    var w := Digits(n);
    AtFirst(t, p, w);
    if w[0] != '0' {
      AtRest(t, p, w);
      DigitsRun(t, p + 1, w[1..]);
    }
  }

  lemma NumberRun(t: string, p: nat, n: int)
    requires At(t, p, Decimal(n)) && NumberStops(t, p + |Decimal(n)|)
    ensures p < |t| && (t[p] == '-' || IsDigit(t[p]))
    ensures NumberEnd(t, p) == Success(p + |Decimal(n)|)
  {
    hide At, Digits;
    if n < 0 {
      AtJoin(t, p, "-", Digits(-n));
      AtFirst(t, p, "-");
      AtFirst(t, p + 1, Digits(-n));
      IntegerRun(t, p + 1, -n);
      assert IntegerEnd(t, p) == IntegerEnd(t, p + 1);
    } else {
      AtFirst(t, p, Digits(n));
      IntegerRun(t, p, n);
    }
  }

  lemma ReadsNumber(f: Doubles, t: string, p: nat, d: Double)
    requires f.Lawful() && f.asInt(d).Some?
    requires At(t, p, Number(f, d)) && NumberStops(t, p + |Number(f, d)|)
    ensures p < |t| && (t[p] == '-' || IsDigit(t[p]))
    ensures ParseNumber(f, t, p) == Parsed(Num(f.fromInt(f.asInt(d).value)), p + |Number(f, d)|)
  {
    var n := f.asInt(d).value;
    NumberRun(t, p, n);
    AtSlice(t, p, Decimal(n));
  }

  // ----- values -----

  /** Where the elements of an array stand inside its text. */
  lemma {:induction false} ItemAt(f: Doubles, t: string, p: nat, v: Value, m: nat, i: nat, pretty: bool, n: nat)
    requires v.Arr? && i < m <= |v.items| && At(t, p, Items(f, v, m, pretty, n))
    ensures At(t, p + |Items(f, v, i, pretty, n)|, Break(pretty, n + 1) + Text(f, v.items[i], pretty, n + 1) + Comma(i, |v.items|))
  {
    hide At, Text;
    AtJoin(t, p, Items(f, v, m - 1, pretty, n), Break(pretty, n + 1) + Text(f, v.items[m - 1], pretty, n + 1) + Comma(m - 1, |v.items|));
    if i < m - 1 { ItemAt(f, t, p, v, m - 1, i, pretty, n); }
  }

  lemma {:induction false} MemberAt(f: Doubles, t: string, p: nat, v: Value, m: nat, i: nat, pretty: bool, n: nat)
    requires v.Obj? && i < m <= |v.fields| && At(t, p, Members(f, v, m, pretty, n))
    ensures At(t, p + |Members(f, v, i, pretty, n)|,
               Break(pretty, n + 1) + Quoted(v.fields[i].key) + Colon(pretty) + Text(f, v.fields[i].value, pretty, n + 1) + Comma(i, |v.fields|))
  {
    hide At, Text, Quoted;
    AtJoin(t, p, Members(f, v, m - 1, pretty, n),
           Break(pretty, n + 1) + Quoted(v.fields[m - 1].key) + Colon(pretty) + Text(f, v.fields[m - 1].value, pretty, n + 1) + Comma(m - 1, |v.fields|));
    if i < m - 1 { MemberAt(f, t, p, v, m - 1, i, pretty, n); }
  }

  lemma CommaAt(t: string, p: nat, i: nat, n: nat)
    requires At(t, p, Comma(i, n)) && i + 1 < n
    ensures CharAt(t, p, ',') && Skip(t, p) == p
  {
    AtFirst(t, p, ",");
  }

  /** After the last element comes an optional break and the closing bracket. */
  lemma CloseAt(t: string, p: nat, w: string, c: string)
    requires |c| == 1 && !IsSpace(c[0]) && At(t, p, w + c) && forall i :: 0 <= i < |w| ==> IsSpace(w[i])
    ensures Skip(t, p) == p + |w| && CharAt(t, p + |w|, c[0]) && NumberStopsOn(t, p, c[0])
  {
    hide At;
    AtJoin(t, p, w, c);
    SkipSpaces(t, p, w);
    AtFirst(t, p + |w|, c);
    SkipNone(t, p + |w|);
    if w != "" { AtFirst(t, p, w); }
  }

  /** The character at `p` is white space or `c`. */
  predicate NumberStopsOn(t: string, p: nat, c: char) { p < |t| && (IsSpace(t[p]) || t[p] == c) }

  /** A first character that is not white space. */
  lemma TextStarts(f: Doubles, v: Value, pretty: bool, n: nat)
    requires Plain(f, v)
    ensures |Text(f, v, pretty, n)| > 0 && !IsSpace(Text(f, v, pretty, n)[0])
  {
    match v
    case Num(d) => var w := Decimal(f.asInt(d).value);
    case Str(s) => assert Quoted(s) == "\"" + (Escaped(s, |s|) + "\"");
    case _ =>
  }

  /**
   A printed value, standing anywhere and followed by something that does not extend a number,
   parses to its normal form and ends where the text ends.
   */
  lemma {:induction false} ReadsText(f: Doubles, t: string, p: nat, v: Value, pretty: bool, n: nat)
    requires f.Lawful() && Plain(f, v)
    requires At(t, p, Text(f, v, pretty, n)) && NumberStops(t, p + |Text(f, v, pretty, n)|)
    ensures ParseValue(f, t, p) == Parsed(Normal(f, v), p + |Text(f, v, pretty, n)|)
    decreases v
  {
    hide At, Decimal;
    var w := Text(f, v, pretty, n);
    TextStarts(f, v, pretty, n);
    AtFirst(t, p, w);
    SkipNone(t, p);
    hide ParseItems, ParseFields, Items, Members, ParseString, ParseNumber;
    match v
    case Null => ReadsWord(f, t, p, v, pretty, n);
    case Bool(b) => ReadsWord(f, t, p, v, pretty, n);
    case Num(d) => ReadsNumber(f, t, p, d);
    case Str(s) => ReadsQuoted(t, p, s);
    case Arr(items) => ReadsArray(f, t, p, v, pretty, n);
    case Obj(fields) => ReadsObject(f, t, p, v, pretty, n);
  }

  lemma ReadsWord(f: Doubles, t: string, p: nat, v: Value, pretty: bool, n: nat)
    requires (v.Null? || v.Bool?) && At(t, p, Text(f, v, pretty, n)) && Skip(t, p) == p
    ensures ParseValue(f, t, p) == Parsed(Normal(f, v), p + |Text(f, v, pretty, n)|)
  {
    AtSlice(t, p, Text(f, v, pretty, n));
    AtFirst(t, p, Text(f, v, pretty, n));
    hide At, ParseString, ParseNumber, ParseItems, ParseFields, Items, Members;
  }

  lemma {:induction false} ReadsArray(f: Doubles, t: string, p: nat, v: Value, pretty: bool, n: nat)
    requires f.Lawful() && v.Arr? && Plain(f, v) && At(t, p, Text(f, v, pretty, n))
    ensures Skip(t, p) == p && ParseValue(f, t, p) == Parsed(Normal(f, v), p + |Text(f, v, pretty, n)|)
    decreases v, |v.items| + 1
  {
    hide At, Items, ParseValue, ParseItems, ParseFields, Skip, CharAt, NumberStopsOn, NormalItems, Break;
    var body, close := Items(f, v, |v.items|, pretty, n), if v.items == [] then "" else Break(pretty, n);
    BreakIsSpace(pretty, n);
    Bracketed(t, p, "[", body, close, "]");
    NoItems(f, v, pretty, n);
    OpensArray(f, t, p);
    if v.items != [] {
      FirstBreak(f, t, p + 1, v, pretty, n);
      ReadsItems(f, t, p + 1, v, 0, pretty, n, p + 1 + |body|);
      ItemsAfterSkip(f, t, p + 1, []);
    }
  }

  lemma BreakIsSpace(pretty: bool, n: nat)
    ensures forall i :: 0 <= i < |Break(pretty, n)| ==> IsSpace(Break(pretty, n)[i])
  {}

  /** A bracketed text: where its body stands, and what follows the body. */
  lemma Bracketed(t: string, p: nat, open: string, body: string, close: string, shut: string)
    requires |open| == |shut| == 1 && !IsSpace(open[0]) && !IsSpace(shut[0]) && forall i :: 0 <= i < |close| ==> IsSpace(close[i])
    requires At(t, p, open + body + close + shut)
    ensures p < |t| && t[p] == open[0] && Skip(t, p) == p && At(t, p + 1, body)
    ensures var end := p + 1 + |body|;
      && end <= |t| && Skip(t, end) == end + |close| < |t| && t[end + |close|] == shut[0] && CharAt(t, end + |close|, shut[0])
      && NumberStopsOn(t, end, shut[0])
  {
    hide At, NumberStopsOn;
    AtJoin(t, p, open + body + close, shut);
    AtJoin3(t, p, open, body, close);
    AtFirst(t, p, open);
    SkipNone(t, p);
    AtJoin(t, p + 1 + |body|, close, shut);
    CloseAt(t, p + 1 + |body|, close, shut);
  }

  lemma OpensArray(f: Doubles, t: string, p: nat)
    requires p < |t| && Skip(t, p) == p && t[p] == '['
    ensures var r := Skip(t, p + 1);
      ParseValue(f, t, p) == if CharAt(t, r, ']') then Parsed(Arr([]), r + 1) else ParseItems(f, t, r, [])
  {
    hide Skip, ParseItems, ParseFields, ParseString, ParseNumber;
  }

  lemma OpensObject(f: Doubles, t: string, p: nat)
    requires p < |t| && Skip(t, p) == p && t[p] == '{'
    ensures var r := Skip(t, p + 1);
      ParseValue(f, t, p) == if CharAt(t, r, '}') then Parsed(Obj([]), r + 1) else ParseFields(f, t, r, [])
  {
    hide Skip, ParseItems, ParseFields, ParseString, ParseNumber;
  }

  lemma NoItems(f: Doubles, v: Value, pretty: bool, n: nat)
    requires v.Arr?
    ensures Items(f, v, 0, pretty, n) == "" && NormalItems(f, v, 0) == []
  {}

  /** The first element does not start with a closing bracket. */
  lemma FirstBreak(f: Doubles, t: string, p: nat, v: Value, pretty: bool, n: nat)
    requires v.Arr? && v.items != [] && Plain(f, v) && At(t, p, Items(f, v, |v.items|, pretty, n))
    ensures Skip(t, p) < |t| && t[Skip(t, p)] != ']' && !CharAt(t, Skip(t, p), ']')
  {
    hide *;
    FirstItem(f, t, p, v, pretty, n);
    var b, w := Break(pretty, n + 1), Text(f, v.items[0], pretty, n + 1);
    AtJoin3(t, p, b, w, Comma(0, |v.items|));
    BreakIsSpace(pretty, n + 1);
    SkipSpaces(t, p, b);
    AtFirst(t, p + |b|, w);
    SkipNone(t, p + |b|);
    NotThere(t, p + |b|, ']');
  }

  lemma NotThere(t: string, p: nat, c: char)
    requires p < |t| && t[p] != c
    ensures !CharAt(t, p, c)
  {}

  lemma FirstItem(f: Doubles, t: string, p: nat, v: Value, pretty: bool, n: nat)
    requires v.Arr? && v.items != [] && Plain(f, v) && At(t, p, Items(f, v, |v.items|, pretty, n))
    ensures At(t, p, Break(pretty, n + 1) + Text(f, v.items[0], pretty, n + 1) + Comma(0, |v.items|))
    ensures var w := Text(f, v.items[0], pretty, n + 1); |w| > 0 && w[0] != ']' && !IsSpace(w[0])
  {
    assert Plain(f, v.items[0]);
    hide At, Text, Items, Plain, IsSpace;
    ItemAt(f, t, p, v, |v.items|, 0, pretty, n);
    NoItems(f, v, pretty, n);
    TextStarts(f, v.items[0], pretty, n + 1);
    NotClosing(f, v.items[0], pretty, n + 1);
  }

  lemma NotClosing(f: Doubles, v: Value, pretty: bool, n: nat)
    requires Plain(f, v)
    ensures |Text(f, v, pretty, n)| > 0 && Text(f, v, pretty, n)[0] != ']'
  {
    match v
    case Num(d) => var w := Decimal(f.asInt(d).value);
    case Str(s) => assert Quoted(s) == "\"" + (Escaped(s, |s|) + "\"");
    case _ =>
  }

  lemma ValueAfterSkip(f: Doubles, t: string, p: nat)
    requires p <= |t|
    ensures ParseValue(f, t, Skip(t, p)) == ParseValue(f, t, p)
  {
    hide ParseItems, ParseFields, ParseNumber, ParseString;
    SkipTwice(t, p);
  }

  lemma ItemsAfterSkip(f: Doubles, t: string, p: nat, acc: seq<Value>)
    requires p <= |t|
    ensures ParseItems(f, t, Skip(t, p), acc) == ParseItems(f, t, p, acc)
  {
    hide ParseValue, Skip;
    ValueAfterSkip(f, t, p);
  }

  lemma FieldsAfterSkip(f: Doubles, t: string, p: nat, acc: seq<Field>)
    requires p <= |t|
    ensures ParseFields(f, t, Skip(t, p), acc) == ParseFields(f, t, p, acc)
  {
    hide ParseValue, Skip, Insert;
    ValueAfterSkip(f, t, p);
  }

  /** From element `i` on, the parser collects the remaining elements and stops after the bracket. */
  lemma {:induction false} ReadsItems(f: Doubles, t: string, p: nat, v: Value, i: nat, pretty: bool, n: nat, end: nat)
    requires f.Lawful() && v.Arr? && Plain(f, v) && i < |v.items|
    requires At(t, p, Items(f, v, |v.items|, pretty, n)) && end == p + |Items(f, v, |v.items|, pretty, n)|
    requires Skip(t, end) < |t| && t[Skip(t, end)] == ']' && NumberStopsOn(t, end, ']')
    ensures p + |Items(f, v, i, pretty, n)| <= |t|
    ensures ParseItems(f, t, p + |Items(f, v, i, pretty, n)|, NormalItems(f, v, i)) == Parsed(Normal(f, v), Skip(t, end) + 1)
    decreases v, |v.items| - i
  {
    hide At, ParseValue, Text, Items, Plain, f.Lawful, NormalItems;
    var at, next := p + |Items(f, v, i, pretty, n)|, p + |Items(f, v, i + 1, pretty, n)|;
    ReadsItem(f, t, p, v, i, pretty, n, end);
    if i + 1 < |v.items| {
      ReadsItems(f, t, p, v, i + 1, pretty, n, end);
      ItemsStep(f, t, at, NormalItems(f, v, i), Normal(f, v.items[i]), next);
    } else {
      ItemsLast(f, t, at, NormalItems(f, v, i), Normal(f, v.items[i]), end);
    }
    assert NormalItems(f, v, i + 1) == NormalItems(f, v, i) + [Normal(f, v.items[i])];
  }

  lemma ItemsStep(f: Doubles, t: string, at: nat, acc: seq<Value>, x: Value, next: nat)
    requires at <= |t| && 0 < next <= |t| && ParseValue(f, t, at) == Parsed(x, next - 1) && CharAt(t, next - 1, ',')
    ensures ParseItems(f, t, at, acc) == ParseItems(f, t, next, acc + [x])
  {
    hide ParseValue;
  }

  lemma ItemsLast(f: Doubles, t: string, at: nat, acc: seq<Value>, x: Value, end: nat)
    requires at <= |t| && end <= |t| && ParseValue(f, t, at) == Parsed(x, end) && CharAt(t, Skip(t, end), ']')
    ensures ParseItems(f, t, at, acc) == Parsed(Arr(acc + [x]), Skip(t, end) + 1)
  {
    hide ParseValue;
  }

  /** Element `i` parses to its normal form; a comma follows it unless it is the last. */
  lemma {:induction false} ReadsItem(f: Doubles, t: string, p: nat, v: Value, i: nat, pretty: bool, n: nat, end: nat)
    requires f.Lawful() && v.Arr? && Plain(f, v) && i < |v.items|
    requires At(t, p, Items(f, v, |v.items|, pretty, n)) && end == p + |Items(f, v, |v.items|, pretty, n)|
    requires NumberStopsOn(t, end, ']')
    ensures var at, next := p + |Items(f, v, i, pretty, n)|, p + |Items(f, v, i + 1, pretty, n)|;
      && at <= |t| && 0 < next <= |t|
      && ParseValue(f, t, at) == Parsed(Normal(f, v.items[i]), if i + 1 < |v.items| then next - 1 else next)
      && (i + 1 < |v.items| ==> CharAt(t, next - 1, ','))
    decreases v, 0
  {
    hide At, ParseValue, Text, f.Lawful, ParseItems;
    var at := p + |Items(f, v, i, pretty, n)|;
    var b, w, c := Break(pretty, n + 1), Text(f, v.items[i], pretty, n + 1), Comma(i, |v.items|);
    ItemAt(f, t, p, v, |v.items|, i, pretty, n);
    AtJoin3(t, at, b, w, c);
    AtBound(t, at + |b| + |w|, c);
    ValueAfterSpaces(f, t, at, b);
    if i + 1 < |v.items| { CommaAt(t, at + |b| + |w|, i, |v.items|); }
    ReadsText(f, t, at + |b|, v.items[i], pretty, n + 1);
  }

  lemma {:induction false} ReadsObject(f: Doubles, t: string, p: nat, v: Value, pretty: bool, n: nat)
    requires f.Lawful() && v.Obj? && Plain(f, v) && At(t, p, Text(f, v, pretty, n))
    ensures Skip(t, p) == p && ParseValue(f, t, p) == Parsed(Normal(f, v), p + |Text(f, v, pretty, n)|)
    decreases v, |v.fields| + 1
  {
    hide At, Members, ParseValue, ParseItems, ParseFields, Skip, CharAt, NumberStopsOn, NormalFields, Break;
    var body, close := Members(f, v, |v.fields|, pretty, n), if v.fields == [] then "" else Break(pretty, n);
    BreakIsSpace(pretty, n);
    Bracketed(t, p, "{", body, close, "}");
    NoFields(f, v, pretty, n);
    OpensObject(f, t, p);
    if v.fields != [] {
      FirstKey(f, t, p + 1, v, pretty, n);
      ReadsFields(f, t, p + 1, v, 0, pretty, n, p + 1 + |body|);
      FieldsAfterSkip(f, t, p + 1, []);
    }
  }

  lemma NoFields(f: Doubles, v: Value, pretty: bool, n: nat)
    requires v.Obj?
    ensures Members(f, v, 0, pretty, n) == "" && NormalFields(f, v, 0) == []
  {}

  lemma FirstKey(f: Doubles, t: string, p: nat, v: Value, pretty: bool, n: nat)
    requires v.Obj? && v.fields != [] && At(t, p, Members(f, v, |v.fields|, pretty, n))
    ensures Skip(t, p) < |t| && t[Skip(t, p)] == '"' && !CharAt(t, Skip(t, p), '}')
  {
    hide At, Text, Quoted;
    MemberAt(f, t, p, v, |v.fields|, 0, pretty, n);
    NoFields(f, v, pretty, n);
    FieldParts(f, t, p, v, 0, pretty, n);
    SkipSpaces(t, p, Break(pretty, n + 1));
    ReadsQuoted(t, p + |Break(pretty, n + 1)|, v.fields[0].key);
    SkipNone(t, p + |Break(pretty, n + 1)|);
  }

  /** The parts of one printed field. */
  lemma FieldParts(f: Doubles, t: string, at: nat, v: Value, i: nat, pretty: bool, n: nat)
    requires v.Obj? && i < |v.fields|
    requires At(t, at, Break(pretty, n + 1) + Quoted(v.fields[i].key) + Colon(pretty) + Text(f, v.fields[i].value, pretty, n + 1) + Comma(i, |v.fields|))
    ensures var b, q, w := Break(pretty, n + 1), Quoted(v.fields[i].key), Text(f, v.fields[i].value, pretty, n + 1);
      && At(t, at, b) && At(t, at + |b|, q) && At(t, at + |b| + |q|, Colon(pretty))
      && At(t, at + |b| + |q| + |Colon(pretty)|, w) && At(t, at + |b| + |q| + |Colon(pretty)| + |w|, Comma(i, |v.fields|))
  {
    hide At, Text, Quoted, Break, Comma;
    AtJoin5(t, at, Break(pretty, n + 1), Quoted(v.fields[i].key), Colon(pretty), Text(f, v.fields[i].value, pretty, n + 1), Comma(i, |v.fields|));
  }

  /** A printed key and colon parse to the key and leave the parser at the value. */
  lemma ReadsKey(f: Doubles, t: string, at: nat, pretty: bool, n: nat, key: string)
    requires At(t, at, Break(pretty, n)) && At(t, at + |Break(pretty, n)|, Quoted(key))
    requires At(t, at + |Break(pretty, n)| + |Quoted(key)|, Colon(pretty))
    ensures var c := at + |Break(pretty, n)| + |Quoted(key)|;
      && ParseValue(f, t, at) == Parsed(Str(key), c) && Skip(t, c) == c && CharAt(t, c, ':')
      && c + |Colon(pretty)| <= |t|
      && ParseValue(f, t, c + 1) == ParseValue(f, t, c + |Colon(pretty)|)
  {
    hide At, Quoted, ParseItems, ParseFields, ParseNumber, ParseString;
    var b, q := Break(pretty, n), Quoted(key);
    ValueAfterSpaces(f, t, at, b);
    ReadsQuoted(t, at + |b|, key);
    SkipNone(t, at + |b|);
    var c := at + |b| + |q|;
    AtFirst(t, c, Colon(pretty));
    AtBound(t, c, Colon(pretty));
    if pretty {
      AtRest(t, c, Colon(pretty));
      assert Colon(pretty)[1..] == " ";
      ValueAfterSpaces(f, t, c + 1, " ");
    }
  }

  lemma {:induction false} ReadsFields(f: Doubles, t: string, p: nat, v: Value, i: nat, pretty: bool, n: nat, end: nat)
    requires f.Lawful() && v.Obj? && Plain(f, v) && i < |v.fields|
    requires At(t, p, Members(f, v, |v.fields|, pretty, n)) && end == p + |Members(f, v, |v.fields|, pretty, n)|
    requires Skip(t, end) < |t| && t[Skip(t, end)] == '}' && NumberStopsOn(t, end, '}')
    ensures p + |Members(f, v, i, pretty, n)| <= |t|
    ensures ParseFields(f, t, p + |Members(f, v, i, pretty, n)|, NormalFields(f, v, i)) == Parsed(Normal(f, v), Skip(t, end) + 1)
    decreases v, |v.fields| - i
  {
    hide At, ParseValue, Text, Members, Quoted, Insert, Plain, f.Lawful, NormalFields;
    var at, next := p + |Members(f, v, i, pretty, n)|, p + |Members(f, v, i + 1, pretty, n)|;
    var x, acc := v.fields[i], NormalFields(f, v, i);
    var c := ReadsField(f, t, p, v, i, pretty, n, end);
    FieldGoesLast(f, v, i);
    if i + 1 < |v.fields| {
      ReadsFields(f, t, p, v, i + 1, pretty, n, end);
      FieldsStep(f, t, at, acc, x.key, c, Normal(f, x.value), next);
    } else {
      FieldsLast(f, t, at, acc, x.key, c, Normal(f, x.value), end);
    }
  }

  /** Keys come in ascending order, so each new field goes last. */
  lemma FieldGoesLast(f: Doubles, v: Value, i: nat)
    requires v.Obj? && Plain(f, v) && i < |v.fields|
    ensures Insert(NormalFields(f, v, i), v.fields[i].key, Normal(f, v.fields[i].value)) == NormalFields(f, v, i + 1)
  {
    InsertLast(NormalFields(f, v, i), v.fields[i].key, Normal(f, v.fields[i].value));
  }

  lemma FieldsStep(f: Doubles, t: string, at: nat, acc: seq<Field>, key: string, c: nat, x: Value, next: nat)
    requires at <= |t| && ParseValue(f, t, at) == Parsed(Str(key), c) && c < |t| && Skip(t, c) == c && CharAt(t, c, ':')
    requires 0 < next <= |t| && ParseValue(f, t, c + 1) == Parsed(x, next - 1) && CharAt(t, next - 1, ',')
    ensures ParseFields(f, t, at, acc) == ParseFields(f, t, next, Insert(acc, key, x))
  {
    hide ParseValue, Insert;
  }

  lemma FieldsLast(f: Doubles, t: string, at: nat, acc: seq<Field>, key: string, c: nat, x: Value, end: nat)
    requires at <= |t| && ParseValue(f, t, at) == Parsed(Str(key), c) && c < |t| && Skip(t, c) == c && CharAt(t, c, ':')
    requires end <= |t| && ParseValue(f, t, c + 1) == Parsed(x, end) && CharAt(t, Skip(t, end), '}')
    ensures ParseFields(f, t, at, acc) == Parsed(Obj(Insert(acc, key, x)), Skip(t, end) + 1)
  {
    hide ParseValue, Insert;
  }

  /** Field `i` parses to its key, a colon at `c`, and its value's normal form. */
  lemma {:induction false} ReadsField(f: Doubles, t: string, p: nat, v: Value, i: nat, pretty: bool, n: nat, end: nat) returns (c: nat)
    requires f.Lawful() && v.Obj? && Plain(f, v) && i < |v.fields|
    requires At(t, p, Members(f, v, |v.fields|, pretty, n)) && end == p + |Members(f, v, |v.fields|, pretty, n)|
    requires NumberStopsOn(t, end, '}')
    ensures var at, next := p + |Members(f, v, i, pretty, n)|, p + |Members(f, v, i + 1, pretty, n)|;
      && at <= |t| && ParseValue(f, t, at) == Parsed(Str(v.fields[i].key), c) && c < |t| && Skip(t, c) == c && CharAt(t, c, ':')
      && 0 < next <= |t|
      && ParseValue(f, t, c + 1) == Parsed(Normal(f, v.fields[i].value), if i + 1 < |v.fields| then next - 1 else next)
      && (i + 1 < |v.fields| ==> CharAt(t, next - 1, ','))
    decreases v, 0
  {
    hide At, ParseValue, Text, Quoted, f.Lawful, ParseFields, Members, Normal;
    var at := p + |Members(f, v, i, pretty, n)|;
    var x := v.fields[i];
    var b, q, w := Break(pretty, n + 1), Quoted(x.key), Text(f, x.value, pretty, n + 1);
    MemberAt(f, t, p, v, |v.fields|, i, pretty, n);
    FieldParts(f, t, at, v, i, pretty, n);
    ReadsKey(f, t, at, pretty, n + 1, x.key);
    c := at + |b| + |q|;
    var start := c + |Colon(pretty)|;
    AtBound(t, start + |w|, Comma(i, |v.fields|));
    if i + 1 < |v.fields| { CommaAt(t, start + |w|, i, |v.fields|); }
    MembersLength(f, v, i, pretty, n);
    ReadsText(f, t, start, x.value, pretty, n + 1);
  }

  lemma MembersLength(f: Doubles, v: Value, i: nat, pretty: bool, n: nat)
    requires v.Obj? && i < |v.fields|
    ensures |Members(f, v, i + 1, pretty, n)| == |Members(f, v, i, pretty, n)| + |Break(pretty, n + 1)| + |Quoted(v.fields[i].key)| + |Colon(pretty)|
            + |Text(f, v.fields[i].value, pretty, n + 1)| + |Comma(i, |v.fields|)|
  {}

  // ----- the round trip -----

  /** Parsing what was printed gives the value back, up to the sign of zero, in both forms. */
  lemma ParseUndoesStringify(f: Doubles, v: Value, pretty: bool)
    requires f.Lawful() && Plain(f, v)
    ensures Parse(f, Stringify(f, v, pretty)) == Success(Normal(f, v))
  {
    var w, t := Text(f, v, pretty, 0), Stringify(f, v, pretty);
    TextStarts(f, v, pretty, 0);
    assert At(t, 0, w);
    assert t[0] == w[0];
    SkipNone(t, 0);
    ReadsText(f, t, 0, v, pretty, 0);
    var tail := if pretty then "\n" else "";
    assert At(t, |w|, tail);
    SkipSpaces(t, |w|, tail);
  }

  /** Numbers are exactly the conversions of small integers; negative zero is not one of them. */
  ghost predicate Exact(f: Doubles, v: Value)
    decreases v
  {
    match v
    case Num(d) => f.asInt(d).Some? && f.fromInt(f.asInt(d).value) == d
    case Arr(items) => forall i :: 0 <= i < |items| ==> Exact(f, items[i])
    case Obj(fields) => Ascending(fields) && forall i :: 0 <= i < |fields| ==> Exact(f, fields[i].value)
    case _ => true
  }

  lemma {:induction false} ExactIsNormal(f: Doubles, v: Value)
    requires Plain(f, v)
    ensures Normal(f, v) == v <==> Exact(f, v)
    decreases v
  {
    match v
    case Arr(items) =>
      forall i | 0 <= i < |items| ensures Normal(f, items[i]) == items[i] <==> Exact(f, items[i]) { ExactIsNormal(f, items[i]); }
      if Normal(f, v) == v {
        forall i | 0 <= i < |items| ensures Exact(f, items[i]) { assert NormalItems(f, v, |items|)[i] == items[i]; }
      }
      if Exact(f, v) { assert NormalItems(f, v, |items|) == items; }
    case Obj(fields) =>
      forall i | 0 <= i < |fields| ensures Normal(f, fields[i].value) == fields[i].value <==> Exact(f, fields[i].value) {
        ExactIsNormal(f, fields[i].value);
      }
      if Normal(f, v) == v {
        forall i | 0 <= i < |fields| ensures Exact(f, fields[i].value) { assert NormalFields(f, v, |fields|)[i] == fields[i]; }
      }
      if Exact(f, v) { assert NormalFields(f, v, |fields|) == fields; }
    case _ =>
  }

  /** The round trip is the identity exactly when no number is a negative zero. */
  lemma RoundTripIsIdentity(f: Doubles, v: Value, pretty: bool)
    requires f.Lawful() && Plain(f, v)
    ensures Parse(f, Stringify(f, v, pretty)) == Success(v) <==> Exact(f, v)
  {
    ParseUndoesStringify(f, v, pretty);
    ExactIsNormal(f, v);
  }

  // ----- what the parser produces -----

  /** Objects are in key order throughout. */
  ghost predicate Ordered(v: Value)
    decreases v
  {
    match v
    case Arr(items) => forall i :: 0 <= i < |items| ==> Ordered(items[i])
    case Obj(fields) => Ascending(fields) && forall i :: 0 <= i < |fields| ==> Ordered(fields[i].value)
    case _ => true
  }

  lemma {:induction false} InsertOrdered(fs: seq<Field>, key: string, v: Value)
    requires Ordered(v) && forall i :: 0 <= i < |fs| ==> Ordered(fs[i].value)
    ensures forall i :: 0 <= i < |Insert(fs, key, v)| ==> Ordered(Insert(fs, key, v)[i].value)
  {
    if fs != [] && fs[0].key != key && !Less(key, fs[0].key) { InsertOrdered(fs[1..], key, v); }
  }

  lemma {:induction false} ParsedIsOrdered(f: Doubles, t: string, p: nat)
    requires p <= |t|
    ensures ParseValue(f, t, p).Parsed? ==> Ordered(ParseValue(f, t, p).value)
    decreases |t| - p, 1
  {
    var q := Skip(t, p);
    if q < |t| && ParseValue(f, t, p).Parsed? {
      var r := Skip(t, q + 1);
      if t[q] == '[' && !CharAt(t, r, ']') { ParsedItemsOrdered(f, t, r, []); }
      if t[q] == '{' && !CharAt(t, r, '}') { ParsedFieldsOrdered(f, t, r, []); }
    }
  }

  lemma {:induction false} ParsedItemsOrdered(f: Doubles, t: string, p: nat, acc: seq<Value>)
    requires p <= |t| && forall i :: 0 <= i < |acc| ==> Ordered(acc[i])
    ensures ParseItems(f, t, p, acc).Parsed? ==> Ordered(ParseItems(f, t, p, acc).value)
    decreases |t| - p, 2
  {
    ParsedIsOrdered(f, t, p);
    var v := ParseValue(f, t, p);
    if v.Parsed? {
      var q := Skip(t, v.end);
      if !CharAt(t, q, ']') && CharAt(t, q, ',') { ParsedItemsOrdered(f, t, q + 1, acc + [v.value]); }
    }
  }

  lemma {:induction false} ParsedFieldsOrdered(f: Doubles, t: string, p: nat, acc: seq<Field>)
    requires p <= |t| && Ascending(acc) && forall i :: 0 <= i < |acc| ==> Ordered(acc[i].value)
    ensures ParseFields(f, t, p, acc).Parsed? ==> Ordered(ParseFields(f, t, p, acc).value)
    decreases |t| - p, 2
  {
    hide ParseValue, Insert, Skip, Ascending;
    var x := ParseField(f, t, p);
    if x.Parsed? {
      var c := Skip(t, ParseValue(f, t, p).end);
      ParsedIsOrdered(f, t, c + 1);
      InsertAscending(acc, x.value.key, x.value.value);
      InsertOrdered(acc, x.value.key, x.value.value);
      var q := Skip(t, x.end);
      if !CharAt(t, q, '}') && CharAt(t, q, ',') { ParsedFieldsOrdered(f, t, q + 1, Insert(acc, x.value.key, x.value.value)); }
    }
  }

  /** Whatever text was parsed, the result keeps its objects in key order, so it can be printed and parsed again. */
  lemma ParseIsOrdered(f: Doubles, t: string)
    ensures Parse(f, t).Success? ==> Ordered(Parse(f, t).value)
  {
    ParsedIsOrdered(f, t, Skip(t, 0));
  }
}
