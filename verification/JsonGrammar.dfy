/**
 What the JSON reader accepts and the printer writes, against the standard's own words: the grammar
 of numbers, the escapes, the UTF-8 of an escaped code point, and small texts letter by letter.
 */
module JsonGrammar {
  import opened Layout
  import opened Json

  // ----- numbers (section 6 of RFC 8259) -----

  predicate AllDigits(w: string) { w != "" && forall i :: 0 <= i < |w| ==> '0' <= w[i] <= '9' }

  /** Zero, or digits that do not start with one; a minus may stand before. */
  predicate IsInteger(w: string) {
    var d := if w != "" && w[0] == '-' then w[1..] else w;
    AllDigits(d) && (d[0] == '0' ==> d == "0")
  }

  predicate IsFraction(w: string) { w == "" || (w[0] == '.' && AllDigits(w[1..])) }

  predicate IsExponent(w: string) {
    w == "" || ((w[0] == 'e' || w[0] == 'E') && (AllDigits(w[1..]) || (|w| > 1 && (w[1] == '+' || w[1] == '-') && AllDigits(w[2..]))))
  }

  predicate Splits(w: string, i: nat, j: nat) { i <= j <= |w| && IsInteger(w[..i]) && IsFraction(w[i..j]) && IsExponent(w[j..]) }

  ghost predicate IsNumber(w: string) { exists i: nat, j: nat :: Splits(w, i, j) }

  lemma {:induction false} DigitsRun(t: string, p: nat)
    requires p <= |t|
    ensures forall i :: p <= i < DigitsEnd(t, p) ==> IsDigit(t[i])
    ensures DigitsEnd(t, p) < |t| ==> !IsDigit(t[DigitsEnd(t, p)])
    decreases |t| - p
  {
    if p < |t| && IsDigit(t[p]) { DigitsRun(t, p + 1); }
  }

  /** A run of digits that something else follows ends there. */
  lemma {:induction false} DigitsStop(t: string, p: nat, q: nat)
    requires p <= q <= |t| && (forall i :: p <= i < q ==> IsDigit(t[i])) && (q < |t| ==> !IsDigit(t[q]))
    ensures DigitsEnd(t, p) == q
    decreases q - p
  {
    if p < q { DigitsStop(t, p + 1, q); }
  }

  /** A piece of a text, without its first characters. */
  lemma Shorter(t: string, p: nat, n: nat, e: nat)
    requires p + n <= e <= |t|
    ensures t[p..e][n..] == t[p + n..e] && |t[p..e]| == e - p && (p < e ==> t[p..e][0] == t[p]) && (p + 1 < e ==> t[p..e][1] == t[p + 1])
  {}

  lemma IntegerRead(t: string, p: nat, i: nat)
    requires p <= |t| && IntegerEnd(t, p) == Success(i)
    ensures p < i <= |t| && IsInteger(t[p..i])
  {
    var q := if CharAt(t, p, '-') then p + 1 else p;
    if t[q] != '0' { DigitsRun(t, q + 1); }
    Shorter(t, p, q - p, i);
    AllRun(t, q, i);
    hide AllDigits, DigitsEnd;
    var w := t[p..i];
    assert q == p ==> w[q - p..] == w;
  }

  lemma AllRun(t: string, q: nat, i: nat)
    requires q < i <= |t| && forall k :: q <= k < i ==> IsDigit(t[k])
    ensures AllDigits(t[q..i]) && t[q..i][0] == t[q] && (i == q + 1 && t[q] == '0' ==> t[q..i] == "0")
  {}

  lemma FractionRead(t: string, i: nat, j: nat)
    requires i <= |t| && FractionEnd(t, i) == Success(j)
    ensures i <= j <= |t| && IsFraction(t[i..j])
  {
    if CharAt(t, i, '.') {
      DigitsRun(t, i + 1);
      assert t[i..j][1..] == t[i + 1..j];
    }
  }

  lemma ExponentRead(t: string, j: nat, e: nat)
    requires j <= |t| && ExponentEnd(t, j) == Success(e)
    ensures j <= e <= |t| && IsExponent(t[j..e])
  {
    if CharAt(t, j, 'e') || CharAt(t, j, 'E') {
      var q := if CharAt(t, j + 1, '+') || CharAt(t, j + 1, '-') then j + 2 else j + 1;
      DigitsRun(t, q);
      assert t[j..e][1..] == t[j + 1..e];
      if q == j + 2 { assert t[j..e][2..] == t[j + 2..e]; }
    }
  }

  lemma IntegerStops(t: string, p: nat, i: nat)
    requires p <= i <= |t| && IsInteger(t[p..i]) && (i < |t| ==> !IsDigit(t[i]))
    ensures IntegerEnd(t, p) == Success(i)
  {
    hide IsInteger, AllDigits, DigitsEnd;
    var q := SignRead(t, p, i);
    PlainStops(t, q, i);
  }

  lemma SignRead(t: string, p: nat, i: nat) returns (q: nat)
    requires p <= i <= |t| && IsInteger(t[p..i])
    ensures q == (if CharAt(t, p, '-') then p + 1 else p) && q < i && AllDigits(t[q..i]) && (t[q..i][0] == '0' ==> t[q..i] == "0")
  {
    var w := t[p..i];
    q := if w != "" && w[0] == '-' then p + 1 else p;
    assert w[q - p..] == t[q..i];
    assert w != "" && w[0] == t[p];
  }

  lemma PlainStops(t: string, q: nat, i: nat)
    requires q < i <= |t| && AllDigits(t[q..i]) && (t[q..i][0] == '0' ==> t[q..i] == "0") && (i < |t| ==> !IsDigit(t[i]))
    ensures IsDigit(t[q]) && if t[q] == '0' then i == q + 1 else DigitsEnd(t, q + 1) == i
  {
    var d := t[q..i];
    assert forall k :: q <= k < i ==> t[k] == d[k - q];
    if t[q] != '0' { DigitsStop(t, q + 1, i); }
  }

  lemma FractionStops(t: string, i: nat, j: nat)
    requires i <= j <= |t| && IsFraction(t[i..j]) && (j < |t| ==> !IsDigit(t[j]) && t[j] != '.')
    ensures FractionEnd(t, i) == Success(j)
  {
    if i < j {
      var d := t[i..j][1..];
      assert forall k :: i + 1 <= k < j ==> t[k] == d[k - (i + 1)];
      assert d[0] == t[i + 1];
      DigitsStop(t, i + 1, j);
    }
  }

  lemma ExponentStops(t: string, j: nat, e: nat)
    requires j <= e <= |t| && IsExponent(t[j..e]) && (e < |t| ==> !IsDigit(t[e]) && t[e] != 'e' && t[e] != 'E')
    ensures ExponentEnd(t, j) == Success(e)
  {
    if j < e {
      hide DigitsEnd, IsExponent, AllDigits;
      var q := TailRead(t, j, e);
      TailStops(t, q, e);
    }
  }

  lemma TailRead(t: string, j: nat, e: nat) returns (q: nat)
    requires j < e <= |t| && IsExponent(t[j..e])
    ensures t[j] == 'e' || t[j] == 'E'
    ensures j + 1 <= q < e && q == (if CharAt(t, j + 1, '+') || CharAt(t, j + 1, '-') then j + 2 else j + 1) && AllDigits(t[q..e])
  {
    Shorter(t, j, 1, e);
    if j + 2 <= e { Shorter(t, j, 2, e); }
    q := if CharAt(t, j + 1, '+') || CharAt(t, j + 1, '-') then j + 2 else j + 1;
    if AllDigits(t[j..e][1..]) { assert IsDigit(t[j..e][1..][0]); }
  }

  lemma TailStops(t: string, q: nat, e: nat)
    requires q < e <= |t| && AllDigits(t[q..e]) && (e < |t| ==> !IsDigit(t[e]))
    ensures IsDigit(t[q]) && DigitsEnd(t, q) == e
  {
    var d := t[q..e];
    assert forall k :: q <= k < e ==> t[k] == d[k - q];
    DigitsStop(t, q, e);
  }

  /** What may not follow a number: the scanner would read on. */
  predicate ReadsOn(c: char) { IsDigit(c) || c == '.' || c == 'e' || c == 'E' }

  lemma NumberRead(t: string, p: nat, e: nat)
    requires p <= |t| && NumberEnd(t, p) == Success(e)
    ensures p < e <= |t| && IsNumber(t[p..e])
  {
    hide IsInteger, IsFraction, IsExponent, IntegerEnd, FractionEnd, ExponentEnd;
    var i := IntegerEnd(t, p).value;
    IntegerRead(t, p, i);
    var j := FractionEnd(t, i).value;
    FractionRead(t, i, j);
    ExponentRead(t, j, e);
    PartsAre(t, p, i, j, e);
    assert Splits(t[p..e], i - p, j - p);
  }

  lemma PartsAre(t: string, p: nat, i: nat, j: nat, e: nat)
    requires p <= i <= j <= e <= |t|
    ensures t[p..e][..i - p] == t[p..i] && t[p..e][i - p..j - p] == t[i..j] && t[p..e][j - p..] == t[j..e]
  {
    assert t[p..e][..i - p] == t[p..i];
    assert t[p..e][j - p..] == t[j..e];
    var w, m := t[p..e][i - p..j - p], t[i..j];
    forall k | 0 <= k < |m| ensures w[k] == m[k] { assert w[k] == t[p..e][i - p + k] == t[i + k]; }
    assert w == m;
  }

  lemma NumberStops(t: string, p: nat, e: nat)
    requires p <= e <= |t| && IsNumber(t[p..e]) && (e < |t| ==> !ReadsOn(t[e]))
    ensures NumberEnd(t, p) == Success(e)
  {
    hide IsInteger, IsFraction, IsExponent, IntegerEnd, FractionEnd, ExponentEnd;
    var i': nat, j': nat :| Splits(t[p..e], i', j');
    var i, j := p + i', p + j';
    PartsAre(t, p, i, j, e);
    Followed(t, i, j, e);
    IntegerStops(t, p, i);
    FractionStops(t, i, j);
    ExponentStops(t, j, e);
  }

  lemma Followed(t: string, i: nat, j: nat, e: nat)
    requires i <= j <= e <= |t| && IsFraction(t[i..j]) && IsExponent(t[j..e]) && (e < |t| ==> !ReadsOn(t[e]))
    ensures (i < |t| ==> !IsDigit(t[i])) && (j < |t| ==> !IsDigit(t[j]) && t[j] != '.')
  {
    if i < j { assert t[i..j][0] == t[i]; }
    if j < e { assert t[j..e][0] == t[j]; }
  }

  /** The number scanner takes a whole text exactly when it is a number of the grammar. */
  lemma NumbersAreNumbers(t: string)
    ensures NumberEnd(t, 0) == Success(|t|) <==> IsNumber(t)
  {
    assert t[0..|t|] == t;
    if NumberEnd(t, 0) == Success(|t|) { NumberRead(t, 0, |t|); }
    if IsNumber(t) { NumberStops(t, 0, |t|); }
  }

  // ----- printed integers -----

  /** The number that decimal digits denote. */
  function NumberOf(w: string): int { if w == "" then 0 else NumberOf(w[..|w| - 1]) * 10 + (w[|w| - 1] as int - 48) }

  /** A printed integer is an integer of the grammar and denotes the number. */
  lemma {:induction false} DecimalWritten(n: int)
    ensures IsInteger(Decimal(n))
    ensures if n < 0 then Decimal(n)[0] == '-' && NumberOf(Decimal(n)[1..]) == -n else NumberOf(Decimal(n)) == n
  {
    DigitsWritten(if n < 0 then -n else n);
    if n < 0 { assert Decimal(n)[1..] == Digits(-n); }
  }

  lemma {:induction false} DigitsWritten(n: nat)
    ensures AllDigits(Digits(n)) && NumberOf(Digits(n)) == n
  {
    var w := Digits(n);
    if n < 10 {
      assert w[..0] == "";
    } else {
      DigitsWritten(n / 10);
      assert w[..|w| - 1] == Digits(n / 10);
    }
  }

  // ----- UTF-8 (section 3 of RFC 3629) -----

  /** The code point of a sequence of bytes: leading bits by the number of bytes, six bits in each byte that follows. */
  function CodeOf(s: string): nat {
    match |s|
    case 1 => s[0] as nat
    case 2 => s[0] as nat % 0x20 * 0x40 + s[1] as nat % 0x40
    case 3 => s[0] as nat % 0x10 * 0x1000 + s[1] as nat % 0x40 * 0x40 + s[2] as nat % 0x40
    case _ => 0
  }

  predicate Follows(c: char) { 0x80 <= c as int < 0xC0 }

  lemma SixBits(code: nat)
    requires code < 0x10000
    ensures code / 64 == code / 4096 * 64 + code / 64 % 64 && code / 4096 < 16
  {}

  lemma Marked(b: nat)
    requires b < 64
    ensures (0x80 + b) % 0x40 == b && (b < 32 ==> (0xC0 + b) % 0x20 == b) && (b < 16 ==> (0xE0 + b) % 0x10 == b)
  {}

  lemma TwoBytes(code: nat)
    requires 0x80 <= code < 0x800
    ensures var s := Json.Utf8(code);
      |s| == 2 && 0xC2 <= s[0] as int < 0xE0 && Follows(s[1]) && s[0] as nat % 0x20 == code / 64 && s[1] as nat % 0x40 == code % 64
  {
    Marked(code / 64);
    Marked(code % 64);
  }

  lemma ThreeBytes(code: nat)
    requires 0x800 <= code < 0x10000
    ensures var s := Json.Utf8(code);
      && |s| == 3 && 0xE0 <= s[0] as int < 0xF0 && Follows(s[1]) && Follows(s[2])
      && s[0] as nat % 0x10 == code / 4096 && s[1] as nat % 0x40 == code / 64 % 64 && s[2] as nat % 0x40 == code % 64
  {
    SixBits(code);
    Marked(code / 4096);
    Marked(code / 64 % 64);
    Marked(code % 64);
  }

  lemma OneByte(code: nat)
    requires code < 0x80
    ensures Json.Utf8(code) == [code as char]
  {}

  /** An escaped code point becomes one to three bytes, each in its range, that encode it: one byte below 80, two below 800, three from there on. */
  lemma Utf8Encodes(code: nat)
    requires code < 0x10000
    ensures var s := Json.Utf8(code);
      && |s| == (if code < 0x80 then 1 else if code < 0x800 then 2 else 3)
      && (|s| == 1 ==> s[0] as int < 0x80)
      && (|s| == 2 ==> 0xC2 <= s[0] as int < 0xE0 && Follows(s[1]))
      && (|s| == 3 ==> 0xE0 <= s[0] as int < 0xF0 && Follows(s[1]) && Follows(s[2]))
      && CodeOf(s) == code
  {
    hide Json.Utf8, Follows;
    if code < 0x80 {
      OneByte(code);
    } else if code < 0x800 {
      TwoBytes(code);
    } else {
      ThreeBytes(code);
      SixBits(code);
    }
  }

  // ----- escapes (section 7 of RFC 8259) -----

  const LETTERS: string := "\"\\/bfnrt"
  const MEANINGS: seq<int> := [34, 92, 47, 8, 12, 10, 13, 9]

  /** A letter after a backslash stands for its character; `u` and four hexadecimal digits for a code point; nothing else may follow one. */
  lemma EscapeTable(t: string, p: nat)
    requires p < |t|
    ensures forall k :: 0 <= k < 8 && t[p] == LETTERS[k] ==> Unescape(t, p) == Parsed([MEANINGS[k] as char], p + 1)
    ensures t[p] != 'u' && t[p] !in LETTERS ==> Unescape(t, p) == Stop(InvalidEscape)
    ensures t[p] == 'u' && p + 5 <= |t| && IsHex4(t[p + 1..p + 5]) ==> Unescape(t, p) == Parsed(Json.Utf8(Hex4Value(t[p + 1..p + 5])), p + 5)
    ensures t[p] == 'u' && !(p + 5 <= |t| && IsHex4(t[p + 1..p + 5])) ==> Unescape(t, p) == Stop(InvalidUnicode)
  {
    if t[p] == 'u' && p + 5 <= |t| { FourDigits(t, p + 1); }
    hide Json.Utf8, Hex4, Hex, IsHex4, Hex4Value;
  }

  predicate IsHex(c: char) { '0' <= c <= '9' || 'a' <= c <= 'f' || 'A' <= c <= 'F' }

  function HexOf(c: char): (r: nat)
    requires IsHex(c)
    ensures r < 16
  {
    if c <= '9' then c as int - 48 else if c <= 'F' then c as int - 55 else c as int - 87
  }

  predicate IsHex4(w: string) { |w| == 4 && forall i :: 0 <= i < 4 ==> IsHex(w[i]) }

  function Hex4Value(w: string): (r: nat)
    requires IsHex4(w)
    ensures r < 0x10000
  {
    HexOf(w[0]) * 4096 + HexOf(w[1]) * 256 + HexOf(w[2]) * 16 + HexOf(w[3])
  }

  lemma FourDigits(t: string, p: nat)
    requires p + 4 <= |t|
    ensures Hex4(t, p) == if IsHex4(t[p..p + 4]) then Some(Hex4Value(t[p..p + 4])) else None
  {
    var w := t[p..p + 4];
    assert w[0] == t[p] && w[1] == t[p + 1] && w[2] == t[p + 2] && w[3] == t[p + 3];
    assert Hex(t, p, 0) == Some(0);
    assert Hex(t, p, 1) == if IsHex(w[0]) then Some(HexOf(w[0])) else None;
    assert Hex(t, p, 2) == if IsHex(w[0]) && IsHex(w[1]) then Some(HexOf(w[0]) * 16 + HexOf(w[1])) else None;
    assert Hex(t, p, 3) == if IsHex(w[0]) && IsHex(w[1]) && IsHex(w[2]) then Some(HexOf(w[0]) * 256 + HexOf(w[1]) * 16 + HexOf(w[2])) else None;
  }

  /** The printer escapes quotes, backslashes and control characters, and nothing else. */
  lemma EscapeWritten(c: char)
    ensures c == '"' || c == '\\' ==> EscapedChar(c) == ['\\', c]
    ensures c as int < 32 && c as int in MEANINGS ==> exists k :: 3 <= k < 8 && MEANINGS[k] == c as int && EscapedChar(c) == ['\\', LETTERS[k]]
    ensures c as int < 32 && c as int !in MEANINGS ==>
              |EscapedChar(c)| == 6 && EscapedChar(c)[..4] == "\\u00" && IsHex4("00" + EscapedChar(c)[4..]) && Hex4Value("00" + EscapedChar(c)[4..]) == c as int
    ensures c as int >= 32 && c != '"' && c != '\\' ==> EscapedChar(c) == [c]
  {
    assert MEANINGS[3] == 8 && MEANINGS[4] == 12 && MEANINGS[5] == 10 && MEANINGS[6] == 13 && MEANINGS[7] == 9;
    if c as int < 32 && c as int !in MEANINGS { ControlWritten(c); }
  }

  lemma ControlWritten(c: char)
    requires c as int < 32 && c as int !in MEANINGS
    ensures |EscapedChar(c)| == 6 && EscapedChar(c)[..4] == "\\u00" && IsHex4("00" + EscapedChar(c)[4..]) && Hex4Value("00" + EscapedChar(c)[4..]) == c as int
  {
    var hi, lo := HexChar(c as int / 16), HexChar(c as int % 16);
    assert EscapedChar(c) == "\\u00" + [hi, lo];
    assert EscapedChar(c)[4..] == [hi, lo];
    HexIs(c as int / 16);
    HexIs(c as int % 16);
  }

  lemma HexIs(x: nat)
    requires x < 16
    ensures IsHex(HexChar(x)) && HexOf(HexChar(x)) == x
  {}

  // ----- whole texts -----

  /** Breaks and separators: nothing and a colon, or a new line with two blanks a level and a colon with a blank. */
  lemma {:induction false} BreakWritten(n: nat)
    ensures Break(false, n) == "" && Colon(false) == ":" && Colon(true) == ": "
    ensures var s := Break(true, n);
      |s| == 1 + 2 * n && s[0] == '\n' && forall i :: 1 <= i < |s| ==> s[i] == ' '
  {
    Blanks(n);
  }

  lemma {:induction false} Blanks(n: nat)
    ensures |Pad(n)| == 2 * n && forall i :: 0 <= i < |Pad(n)| ==> Pad(n)[i] == ' '
  {
    if n > 0 { Blanks(n - 1); }
  }

  /** The rest of an array from element `i` on: a comma after every element but the last. */
  function Elements(f: Doubles, items: seq<Value>, i: nat, pretty: bool, n: nat): string
    requires i <= |items|
    decreases |items| - i
  {
    if i == |items| then ""
    else Break(pretty, n + 1) + Text(f, items[i], pretty, n + 1) + (if i + 1 < |items| then "," else "") + Elements(f, items, i + 1, pretty, n)
  }

  function Fields(f: Doubles, fields: seq<Field>, i: nat, pretty: bool, n: nat): string
    requires i <= |fields|
    decreases |fields| - i
  {
    if i == |fields| then ""
    else
      Break(pretty, n + 1) + Quoted(fields[i].key) + (if pretty then ": " else ":") + Text(f, fields[i].value, pretty, n + 1)
      + (if i + 1 < |fields| then "," else "") + Fields(f, fields, i + 1, pretty, n)
  }

  lemma Regroup(front: string, piece: string, rest: string)
    ensures front + piece + rest == front + (piece + rest)
  {}

  lemma {:induction false} ItemsWritten(f: Doubles, v: Value, i: nat, pretty: bool, n: nat)
    requires v.Arr? && i <= |v.items|
    ensures Items(f, v, |v.items|, pretty, n) == Items(f, v, i, pretty, n) + Elements(f, v.items, i, pretty, n)
    decreases |v.items| - i
  {
    hide Break, Text;
    if i < |v.items| {
      ItemsWritten(f, v, i + 1, pretty, n);
      var piece := Break(pretty, n + 1) + Text(f, v.items[i], pretty, n + 1) + (if i + 1 < |v.items| then "," else "");
      assert Items(f, v, i + 1, pretty, n) == Items(f, v, i, pretty, n) + piece;
      assert Elements(f, v.items, i, pretty, n) == piece + Elements(f, v.items, i + 1, pretty, n);
      Regroup(Items(f, v, i, pretty, n), piece, Elements(f, v.items, i + 1, pretty, n));
    }
  }

  lemma {:induction false} MembersWritten(f: Doubles, v: Value, i: nat, pretty: bool, n: nat)
    requires v.Obj? && i <= |v.fields|
    ensures Json.Members(f, v, |v.fields|, pretty, n) == Json.Members(f, v, i, pretty, n) + Fields(f, v.fields, i, pretty, n)
    decreases |v.fields| - i
  {
    hide Break, Text, Quoted;
    if i < |v.fields| {
      MembersWritten(f, v, i + 1, pretty, n);
      var piece := Break(pretty, n + 1) + Quoted(v.fields[i].key) + (if pretty then ": " else ":") + Text(f, v.fields[i].value, pretty, n + 1)
                   + (if i + 1 < |v.fields| then "," else "");
      assert Json.Members(f, v, i + 1, pretty, n) == Json.Members(f, v, i, pretty, n) + piece;
      assert Fields(f, v.fields, i, pretty, n) == piece + Fields(f, v.fields, i + 1, pretty, n);
      Regroup(Json.Members(f, v, i, pretty, n), piece, Fields(f, v.fields, i + 1, pretty, n));
    }
  }

  lemma AllItems(f: Doubles, v: Value, pretty: bool, n: nat)
    requires v.Arr?
    ensures Items(f, v, |v.items|, pretty, n) == Elements(f, v.items, 0, pretty, n)
  {
    ItemsWritten(f, v, 0, pretty, n);
    assert Items(f, v, 0, pretty, n) == "";
    hide Items, Elements;
    assert "" + Elements(f, v.items, 0, pretty, n) == Elements(f, v.items, 0, pretty, n);
  }

  lemma AllMembers(f: Doubles, v: Value, pretty: bool, n: nat)
    requires v.Obj?
    ensures Json.Members(f, v, |v.fields|, pretty, n) == Fields(f, v.fields, 0, pretty, n)
  {
    MembersWritten(f, v, 0, pretty, n);
    assert Json.Members(f, v, 0, pretty, n) == "";
    hide Json.Members, Fields;
    assert "" + Fields(f, v.fields, 0, pretty, n) == Fields(f, v.fields, 0, pretty, n);
  }

  /** Arrays and objects are written in order, with a comma between any two elements and none at the end. */
  lemma ArrayWritten(f: Doubles, items: seq<Value>, pretty: bool, n: nat)
    ensures Text(f, Arr(items), pretty, n) == if items == [] then "[]" else "[" + Elements(f, items, 0, pretty, n) + Break(pretty, n) + "]"
  {
    AllItems(f, Arr(items), pretty, n);
    hide Elements, Break;
    if items == [] {
      assert Items(f, Arr(items), 0, pretty, n) == "";
    } else {
      hide Items;
    }
  }

  lemma ObjectWritten(f: Doubles, fields: seq<Field>, pretty: bool, n: nat)
    ensures Text(f, Obj(fields), pretty, n) == if fields == [] then "{}" else "{" + Fields(f, fields, 0, pretty, n) + Break(pretty, n) + "}"
  {
    AllMembers(f, Obj(fields), pretty, n);
    hide Fields, Break;
    if fields == [] {
      assert Json.Members(f, Obj(fields), 0, pretty, n) == "";
    } else {
      hide Json.Members;
    }
  }

  /** The other values. */
  lemma LeavesWritten(f: Doubles, s: string, pretty: bool, n: nat)
    ensures Text(f, Null, pretty, n) == "null" && Text(f, Bool(true), pretty, n) == "true" && Text(f, Bool(false), pretty, n) == "false"
    ensures Text(f, Str(s), pretty, n) == "\"" + Escaped(s, |s|) + "\""
    ensures Stringify(f, Str(s), pretty) == Text(f, Str(s), pretty, 0) + if pretty then "\n" else ""
  {
    hide Escaped;
  }
}
