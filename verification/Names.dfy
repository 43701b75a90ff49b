/**
 Names of the IR's enumerations, as the text formats write and read them.
 */
module Names {
  import opened Layout
  import F = Formats

  function LowerChar(c: char): char { if 'A' <= c <= 'Z' then (c as int + 32) as char else c }

  function Lower(s: string): (r: string)
    ensures |r| == |s| && forall i :: 0 <= i < |s| ==> r[i] == LowerChar(s[i])
  {
    seq(|s|, i requires 0 <= i < |s| => LowerChar(s[i]))
  }

  // ----- element types -----

  const DTYPES: nat := 10

  function DTypeName(c: nat): string {
    match c
    case 1 => "f32"
    case 2 => "f16"
    case 3 => "bf16"
    case 4 => "i8"
    case 5 => "i32"
    case 6 => "i64"
    case 7 => "u8"
    case 8 => "u32"
    case 9 => "bool"
    case _ => "unknown"
  }

  function ParseDType(text: string): Option<nat> { DTypeOf(Lower(text)) }

  function DTypeOf(t: string): Option<nat> {
    if t == "f32" || t == "float32" || t == "float" then Some(1)
    else if t == "f16" || t == "float16" || t == "half" then Some(2)
    else if t == "bf16" || t == "bfloat16" then Some(3)
    else if t == "i8" || t == "int8" then Some(4)
    else if t == "i32" || t == "int32" then Some(5)
    else if t == "i64" || t == "int64" then Some(6)
    else if t == "u8" || t == "uint8" then Some(7)
    else if t == "u32" || t == "uint32" then Some(8)
    else if t == "bool" || t == "boolean" then Some(9)
    else if t == "unknown" then Some(0)
    else None
  }

  /** Every element type reads back from its name; codes outside the enumeration read back as unknown. */
  lemma DTypeRoundTrip(c: nat)
    ensures ParseDType(DTypeName(c)) == Some(if c < DTYPES then c else 0)
  {
    var t := DTypeName(c);
    assert Lower(t) == t;
    if c == 1 { } else if c == 2 { assert t[1] == '1'; } else if c == 5 { assert t[0] == 'i'; } else if c == 6 { assert t[0] == 'i' && t[1] == '6'; }
  }

  /** The spellings of an element type. */
  function DTypeWords(c: nat): seq<string> {
    match c
    case 0 => ["unknown"]
    case 1 => ["f32", "float32", "float"]
    case 2 => ["f16", "float16", "half"]
    case 3 => ["bf16", "bfloat16"]
    case 4 => ["i8", "int8"]
    case 5 => ["i32", "int32"]
    case 6 => ["i64", "int64"]
    case 7 => ["u8", "uint8"]
    case 8 => ["u32", "uint32"]
    case 9 => ["bool", "boolean"]
    case _ => []
  }

  /** The text is this lower-case word, in whatever case. */
  predicate Spells(text: string, word: string) {
    |text| == |word| && forall i :: 0 <= i < |text| ==> text[i] == word[i] || ('A' <= text[i] <= 'Z' && text[i] as int + 32 == word[i] as int)
  }

  predicate NoCapitals(word: string) { forall i :: 0 <= i < |word| ==> !('A' <= word[i] <= 'Z') }

  lemma LowerSpells(text: string, word: string)
    requires NoCapitals(word)
    ensures Lower(text) == word <==> Spells(text, word)
  {
    if Spells(text, word) { assert forall i :: 0 <= i < |text| ==> Lower(text)[i] == word[i]; }
    if Lower(text) == word { assert forall i :: 0 <= i < |text| ==> LowerChar(text[i]) == word[i]; }
  }

  lemma WordsAreLower(c: nat)
    ensures forall w :: w in DTypeWords(c) ==> NoCapitals(w)
  {}

  lemma FirstDTypeWord(c: nat)
    ensures DTypeWords(if c < DTYPES then c else 0) != [] && DTypeName(c) == DTypeWords(if c < DTYPES then c else 0)[0]
  {}

  lemma WordRead(t: string, c: nat)
    requires DTypeOf(t) == Some(c)
    ensures t in DTypeWords(c)
  {}

  lemma FloatWords(t: string, c: nat)
    requires c <= 3 && t in DTypeWords(c)
    ensures DTypeOf(t) == Some(c)
  {}

  lemma SignedWords(t: string, c: nat)
    requires 4 <= c <= 6 && t in DTypeWords(c)
    ensures DTypeOf(t) == Some(c)
  {}

  lemma UnsignedWords(t: string, c: nat)
    requires 7 <= c && t in DTypeWords(c)
    ensures DTypeOf(t) == Some(c)
  {}

  lemma WordOf(t: string, c: nat)
    ensures DTypeOf(t) == Some(c) <==> t in DTypeWords(c)
  {
    hide *;
    if DTypeOf(t) == Some(c) { WordRead(t, c); }
    if t in DTypeWords(c) {
      if c <= 3 { FloatWords(t, c); } else if c <= 6 { SignedWords(t, c); } else { UnsignedWords(t, c); }
    }
  }

  /** An element type is read from its spellings and nothing else, in whatever case; the first of them is the one that is written. */
  lemma DTypeSpelled(text: string, c: nat)
    ensures DTypeName(c) == DTypeWords(if c < DTYPES then c else 0)[0]
    ensures ParseDType(text) == Some(c) <==> exists w :: w in DTypeWords(c) && Spells(text, w)
  {
    FirstDTypeWord(c);
    hide DTypeWords, DTypeName, DTypeOf, Spells, Lower;
    WordOf(Lower(text), c);
    WordsAreLower(c);
    forall w | w in DTypeWords(c) ensures Lower(text) == w <==> Spells(text, w) { LowerSpells(text, w); }
  }

  // ----- storage hints -----

  const HINTS: nat := 4

  function HintName(c: nat): string {
    match c
    case 1 => "ram"
    case 2 => "mmap"
    case 3 => "external"
    case _ => "unspecified"
  }

  function ParseHint(text: string): Option<nat> {
    var t := Lower(text);
    if t == "unspecified" || t == "default" || t == "" then Some(0)
    else if t == "ram" then Some(1)
    else if t == "mmap" then Some(2)
    else if t == "external" then Some(3)
    else None
  }

  lemma HintRoundTrip(c: nat)
    ensures ParseHint(HintName(c)) == Some(if c < HINTS then c else 0)
  {
    var t := HintName(c);
    assert Lower(t) == t;
  }

  /** The spellings of a storage hint. */
  function HintWords(c: nat): seq<string> {
    match c
    case 0 => ["unspecified", "default", ""]
    case 1 => ["ram"]
    case 2 => ["mmap"]
    case 3 => ["external"]
    case _ => []
  }

  lemma HintWordOf(text: string, c: nat)
    ensures ParseHint(text) == Some(c) <==> Lower(text) in HintWords(c)
  {}

  lemma FirstHintWord(c: nat)
    ensures HintWords(if c < HINTS then c else 0) != [] && HintName(c) == HintWords(if c < HINTS then c else 0)[0]
  {}

  lemma HintWordsAreLower(c: nat)
    ensures forall w :: w in HintWords(c) ==> NoCapitals(w)
  {}

  /** So is a storage hint. */
  lemma HintSpelled(text: string, c: nat)
    ensures HintName(c) == HintWords(if c < HINTS then c else 0)[0]
    ensures ParseHint(text) == Some(c) <==> exists w :: w in HintWords(c) && Spells(text, w)
  {
    FirstHintWord(c);
    hide HintWords, HintName, ParseHint, Spells, Lower;
    HintWordOf(text, c);
    HintWordsAreLower(c);
    forall w | w in HintWords(c) ensures Lower(text) == w <==> Spells(text, w) { LowerSpells(text, w); }
  }

  // ----- quantisation formats -----

  const QUANTS: nat := 18

  function QuantName(c: nat): string {
    match c
    case 0 => "f32"
    case 1 => "f16"
    case 2 => "bf16"
    case 3 => "int8"
    case 4 => "int4"
    case 5 => "nf4"
    case 6 => "mxfp4"
    case 7 => "q4_0"
    case 8 => "q4_1"
    case 9 => "q5_0"
    case 10 => "q5_1"
    case 11 => "q8_0"
    case 12 => "q2_k"
    case 13 => "q3_k"
    case 14 => "q4_k"
    case 15 => "q5_k"
    case 16 => "q6_k"
    case 17 => "iq4_nl"
    case _ => "unknown"
  }

  function ParseQuant(t: string): Option<nat> {
    if t == "f32" || t == "fp32" then Some(0)
    else if t == "f16" || t == "fp16" then Some(1)
    else if t == "bf16" then Some(2)
    else if t == "int8" || t == "i8" then Some(3)
    else if t == "int4" || t == "i4" then Some(4)
    else if t == "nf4" then Some(5)
    else if t == "mxfp4" then Some(6)
    else if t == "q4_0" then Some(7)
    else if t == "q4_1" then Some(8)
    else if t == "q5_0" then Some(9)
    else if t == "q5_1" then Some(10)
    else if t == "q8_0" then Some(11)
    else if t == "q2_k" then Some(12)
    else if t == "q3_k" then Some(13)
    else if t == "q4_k" then Some(14)
    else if t == "q5_k" then Some(15)
    else if t == "q6_k" then Some(16)
    else if t == "iq4_nl" then Some(17)
    else None
  }

  lemma DenseQuantRoundTrip(c: nat)
    requires c < 7
    ensures ParseQuant(QuantName(c)) == Some(c)
  {}

  lemma BlockQuantRoundTrip(c: nat)
    requires 7 <= c < 12
    ensures ParseQuant(QuantName(c)) == Some(c)
  {}

  lemma SuperBlockQuantRoundTrip(c: nat)
    requires 12 <= c < QUANTS
    ensures ParseQuant(QuantName(c)) == Some(c)
  {}

  /** Every format reads back from its name; the name of a code outside the enumeration is not a format. */
  lemma QuantRoundTrip(c: nat)
    ensures ParseQuant(QuantName(c)) == if c < QUANTS then Some(c) else None
  {
    if c < 7 {
      DenseQuantRoundTrip(c);
    } else if c < 12 {
      BlockQuantRoundTrip(c);
    } else if c < QUANTS {
      SuperBlockQuantRoundTrip(c);
    }
  }

  /** The spellings of a quantisation format, exact in case. */
  function QuantWords(c: nat): seq<string> {
    match c
    case 0 => ["f32", "fp32"]
    case 1 => ["f16", "fp16"]
    case 3 => ["int8", "i8"]
    case 4 => ["int4", "i4"]
    case _ => if c < QUANTS then [QuantName(c)] else []
  }

  lemma QuantRead(t: string, c: nat)
    requires ParseQuant(t) == Some(c)
    ensures t in QuantWords(c)
  {}

  /** A format is read from its spellings and nothing else. */
  lemma QuantSpelled(t: string, c: nat)
    ensures ParseQuant(t) == Some(c) <==> t in QuantWords(c)
  {
    hide ParseQuant, QuantWords, QuantName;
    if ParseQuant(t) == Some(c) { QuantRead(t, c); }
    if t in QuantWords(c) { QuantWord(t, c); }
  }

  lemma QuantWord(t: string, c: nat)
    requires t in QuantWords(c)
    ensures ParseQuant(t) == Some(c)
  {
    hide ParseQuant;
    if t == QuantName(c) && c < QUANTS { QuantRoundTrip(c); } else { OtherQuantWords(); }
  }

  lemma OtherQuantWords()
    ensures ParseQuant("fp32") == Some(0) && ParseQuant("fp16") == Some(1) && ParseQuant("i8") == Some(3) && ParseQuant("i4") == Some(4)
  {}

  /** Bytes of `n` numbers, by the name of the format. */
  lemma NamedSizes(n: nat)
    ensures QuantName(7) == "q4_0" && F.PackedBytes(7, n) == n / 32 * 18
    ensures QuantName(8) == "q4_1" && F.PackedBytes(8, n) == n / 32 * 20
    ensures QuantName(9) == "q5_0" && F.PackedBytes(9, n) == n / 32 * 22
    ensures QuantName(10) == "q5_1" && F.PackedBytes(10, n) == n / 32 * 24
    ensures QuantName(11) == "q8_0" && F.PackedBytes(11, n) == n / 32 * 34
    ensures QuantName(12) == "q2_k" && F.PackedBytes(12, n) == n / 256 * 84
    ensures QuantName(13) == "q3_k" && F.PackedBytes(13, n) == n / 256 * 110
    ensures QuantName(14) == "q4_k" && F.PackedBytes(14, n) == n / 256 * 144
    ensures QuantName(15) == "q5_k" && F.PackedBytes(15, n) == n / 256 * 176
    ensures QuantName(16) == "q6_k" && F.PackedBytes(16, n) == n / 256 * 210
    ensures QuantName(17) == "iq4_nl" && F.PackedBytes(17, n) == n / 32 * 18
  {}
}
