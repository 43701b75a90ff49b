/**
 The language of the JSON reader: what text stands for what tree, by the grammar of RFC 8259 with the two liberties
 the reader takes (any white space, any characters in strings), and the proof that the reader accepts exactly this
 language and gives each text its meaning.
 */
module JsonLanguage {
  import opened Layout
  import opened Json
  import G = JsonGrammar

  /** A text's structure, repeated keys and all. */
  datatype Tree = Leaf(v: Value) | List(items: seq<Tree>) | Dict(pairs: seq<Pair>)

  datatype Pair = Pair(key: string, tree: Tree)

  // ----- what a tree means -----

  /** Of repeated keys the last counts. */
  function Meaning(x: Tree): Value
    decreases x
  {
    match x
    case Leaf(v) => v
    case List(items) => Arr(Meanings(items))
    case Dict(pairs) => Obj(Assigned([], pairs))
  }

  function Meanings(items: seq<Tree>): (r: seq<Value>)
    ensures |r| == |items| && forall i :: 0 <= i < |r| ==> r[i] == Meaning(items[i])
    decreases items
  {
    if items == [] then [] else [Meaning(items[0])] + Meanings(items[1..])
  }

  function Assigned(fs: seq<Field>, pairs: seq<Pair>): seq<Field>
    decreases pairs
  {
    if pairs == [] then fs else Assigned(Insert(fs, pairs[0].key, Meaning(pairs[0].tree)), pairs[1..])
  }

  // ----- what stands where -----

  predicate IsWhite(c: char) { c as int in [9, 10, 11, 12, 13, 32] }

  predicate Spaces(t: string, p: nat, q: nat) { p <= q <= |t| && forall i :: p <= i < q ==> IsWhite(t[i]) }

  predicate Is(t: string, p: nat, q: nat, w: string) { p <= q <= |t| && t[p..q] == w }

  predicate Mark(t: string, p: nat, c: char) { p < |t| && t[p] == c }

  /** An escape of `n` characters at `p` stands for `w`. */
  predicate Escape(t: string, p: nat, n: nat, w: string) {
    && p + n <= |t| && n >= 2 && t[p] == '\\'
    && ((n == 2 && exists k :: 0 <= k < 8 && t[p + 1] == G.LETTERS[k] && w == [G.MEANINGS[k] as char])
        || (n == 6 && t[p + 1] == 'u' && G.IsHex4(t[p + 2..p + 6]) && w == Json.Utf8(G.Hex4Value(t[p + 2..p + 6]))))
  }

  /** The characters from `p` to `e` stand for `s`: themselves, but for escapes; no quote among them. */
  ghost predicate Characters(t: string, p: nat, e: nat, s: string)
    decreases |t| - p
  {
    || (p == e <= |t| && s == "")
    || (p < e <= |t| && t[p] != '"' && t[p] != '\\' && s != "" && s[0] == t[p] && Characters(t, p + 1, e, s[1..]))
    || exists n: nat, w: string :: Escape(t, p, n, w) && p + n <= e && w <= s && Characters(t, p + n, e, s[|w|..])
  }

  ghost predicate IsString(t: string, p: nat, e: nat, s: string) {
    p + 2 <= e <= |t| && t[p] == '"' && t[e - 1] == '"' && Characters(t, p + 1, e - 1, s)
  }

  /** White space, and then the text of a tree. */
  ghost predicate Stands(f: Doubles, t: string, p: nat, e: nat, x: Tree)
    decreases x, 1
  {
    exists q: nat :: Spaces(t, p, q) && Core(f, t, q, e, x)
  }

  /** The text of a tree, from its first character to its last. */
  ghost predicate Core(f: Doubles, t: string, q: nat, e: nat, x: Tree)
    decreases x, 0
  {
    && q < e <= |t|
    && match x
       case Leaf(v) => LeafAt(f, t, q, e, v)
       case List(items) => t[q] == '[' && if items == [] then Empty(t, q + 1, e, ']') else ItemsFrom(f, t, q + 1, e, items)
       case Dict(pairs) => t[q] == '{' && if pairs == [] then Empty(t, q + 1, e, '}') else PairsFrom(f, t, q + 1, e, pairs)
  }

  ghost predicate LeafAt(f: Doubles, t: string, q: nat, e: nat, v: Value)
    requires q < e <= |t|
  {
    match v
    case Null => t[q..e] == "null"
    case Bool(b) => t[q..e] == if b then "true" else "false"
    case Num(d) => G.IsNumber(t[q..e]) && f.parse(t[q..e]) == Some(d)
    case Str(s) => IsString(t, q, e, s)
    case _ => false
  }

  ghost predicate Empty(t: string, p: nat, e: nat, close: char) { e > 0 && Spaces(t, p, e - 1) && Mark(t, e - 1, close) }

  /** Elements separated by commas, up to the closing bracket. */
  ghost predicate ItemsFrom(f: Doubles, t: string, p: nat, e: nat, items: seq<Tree>)
    requires items != []
    decreases items, 2
  {
    exists v: nat, c: nat ::
      && Stands(f, t, p, v, items[0]) && Spaces(t, v, c)
      && if |items| == 1 then Mark(t, c, ']') && e == c + 1 else Mark(t, c, ',') && ItemsFrom(f, t, c + 1, e, items[1..])
  }

  ghost predicate KeyAt(t: string, p: nat, e: nat, key: string) { exists q: nat :: Spaces(t, p, q) && IsString(t, q, e, key) }

  /** A key, a colon and a value. */
  ghost predicate PairAt(f: Doubles, t: string, p: nat, e: nat, x: Pair)
    decreases x, 2
  {
    exists k: nat, c: nat :: KeyAt(t, p, k, x.key) && Spaces(t, k, c) && Mark(t, c, ':') && Stands(f, t, c + 1, e, x.tree)
  }

  ghost predicate PairsFrom(f: Doubles, t: string, p: nat, e: nat, pairs: seq<Pair>)
    requires pairs != []
    decreases pairs, 3
  {
    exists v: nat, c: nat ::
      && PairAt(f, t, p, v, pairs[0]) && Spaces(t, v, c)
      && if |pairs| == 1 then Mark(t, c, '}') && e == c + 1 else Mark(t, c, ',') && PairsFrom(f, t, c + 1, e, pairs[1..])
  }

  /** A whole text. */
  ghost predicate IsText(f: Doubles, t: string, x: Tree) { exists e: nat :: Stands(f, t, 0, e, x) && Spaces(t, e, |t|) }

  // ----- strings -----

  /** The escapes of the grammar are those that the reader unescapes. */
  lemma EscapeRead(t: string, p: nat)
    requires p < |t| && t[p] == '\\' && Unescape(t, p + 1).Parsed?
    ensures var u := Unescape(t, p + 1);
      u.end >= p && Escape(t, p, u.end - p, u.value)
  {
    hide Json.Utf8, G.Hex4Value, G.IsHex4;
    if p + 1 < |t| {
      G.EscapeTable(t, p + 1);
      assert G.LETTERS == "\"\\/bfnrt";
      if t[p + 1] in G.LETTERS { var k :| 0 <= k < 8 && t[p + 1] == G.LETTERS[k]; }
    }
  }

  lemma EscapeKnown(t: string, p: nat, n: nat, w: string)
    requires Escape(t, p, n, w)
    ensures Unescape(t, p + 1) == Parsed(w, p + n)
  {
    G.EscapeTable(t, p + 1);
    hide Json.Utf8, G.Hex4Value, G.IsHex4, Unescape;
  }

  lemma {:induction false} StringRead(t: string, p: nat, acc: string) returns (s: string)
    requires p <= |t| && ParseString(t, p, acc).Parsed?
    ensures var r := ParseString(t, p, acc);
      p < r.end <= |t| && t[r.end - 1] == '"' && r.value == acc + s && Characters(t, p, r.end - 1, s)
    decreases |t| - p
  {
    hide Unescape, Escape;
    var r := ParseString(t, p, acc);
    if t[p] == '"' {
      s := "";
    } else if t[p] == '\\' {
      var u := Unescape(t, p + 1);
      EscapeRead(t, p);
      var rest := StringRead(t, u.end, acc + u.value);
      s := u.value + rest;
      assert s[|u.value|..] == rest;
      assert acc + u.value + rest == acc + s;
    } else {
      var rest := StringRead(t, p + 1, acc + [t[p]]);
      s := [t[p]] + rest;
      assert s[1..] == rest;
      assert acc + [t[p]] + rest == acc + s;
    }
  }

  lemma {:induction false} StringKnown(t: string, p: nat, e: nat, s: string, acc: string)
    requires Characters(t, p, e, s) && e < |t| && t[e] == '"'
    ensures p <= e && ParseString(t, p, acc) == Parsed(acc + s, e + 1)
    decreases |t| - p
  {
    hide Unescape, Escape;
    if p == e && s == "" {
      assert acc + "" == acc;
    } else if p < e <= |t| && t[p] != '"' && t[p] != '\\' && s != "" && s[0] == t[p] && Characters(t, p + 1, e, s[1..]) {
      StringKnown(t, p + 1, e, s[1..], acc + [t[p]]);
      assert acc + [t[p]] + s[1..] == acc + s;
    } else {
      var n: nat, w: string :| Escape(t, p, n, w) && p + n <= e && w <= s && Characters(t, p + n, e, s[|w|..]);
      EscapeShape(t, p, n, w);
      EscapeKnown(t, p, n, w);
      StringKnown(t, p + n, e, s[|w|..], acc + w);
      assert acc + w + s[|w|..] == acc + s;
    }
  }

  lemma EscapeShape(t: string, p: nat, n: nat, w: string)
    requires Escape(t, p, n, w)
    ensures n >= 2 && p + n <= |t| && t[p] == '\\'
  {}

  // ----- white space -----

  lemma SpaceIsWhite(c: char)
    ensures IsSpace(c) <==> IsWhite(c)
  {}

  lemma {:induction false} SkipRead(t: string, p: nat)
    requires p <= |t|
    ensures Spaces(t, p, Skip(t, p))
    decreases |t| - p
  {
    if p < |t| && IsSpace(t[p]) {
      SpaceIsWhite(t[p]);
      SkipRead(t, p + 1);
    }
  }

  lemma {:induction false} SkipKnown(t: string, p: nat, q: nat)
    requires Spaces(t, p, q) && (q < |t| ==> !IsWhite(t[q]))
    ensures Skip(t, p) == q
    decreases q - p
  {
    if p < |t| { SpaceIsWhite(t[p]); }
    if p < q { SkipKnown(t, p + 1, q); }
  }

  lemma SkippedAgain(t: string, p: nat)
    requires p <= |t|
    ensures Skip(t, Skip(t, p)) == Skip(t, p)
  {}

  /** Reading a value does not see the white space before it. */
  lemma ValueSkips(f: Doubles, t: string, p: nat)
    requires p <= |t|
    ensures ParseValue(f, t, Skip(t, p)) == ParseValue(f, t, p)
  {
    SkippedAgain(t, p);
    hide Skip, ParseItems, ParseFields, ParseNumber, ParseString;
  }

  /** A text of a tree starts with neither white space nor a closing mark. */
  lemma CoreStarts(f: Doubles, t: string, q: nat, e: nat, x: Tree)
    requires Core(f, t, q, e, x)
    ensures q < |t| && !IsWhite(t[q]) && t[q] != ']' && t[q] != '}'
  {
    hide ItemsFrom, PairsFrom, Characters, G.IsNumber;
    if x.Leaf? { LeafStarts(f, t, q, e, x.v); }
  }

  lemma LeafStarts(f: Doubles, t: string, q: nat, e: nat, v: Value)
    requires q < e <= |t| && LeafAt(f, t, q, e, v)
    ensures match v
            case Null => t[q] == 'n'
            case Bool(b) => t[q] == if b then 't' else 'f'
            case Num(_) => t[q] == '-' || IsDigit(t[q])
            case Str(_) => t[q] == '"'
            case _ => false
  {
    hide Characters;
    assert t[q] == t[q..e][0];
    if v.Num? { NumberStarts(t[q..e]); }
  }

  lemma NumberStarts(w: string)
    requires G.IsNumber(w)
    ensures w != "" && (w[0] == '-' || IsDigit(w[0]))
  {
    var i: nat, j: nat :| G.Splits(w, i, j);
    assert w[..i][0] == w[0];
  }

  // ----- everything the reader accepts is in the language -----

  lemma ValueIs(f: Doubles, t: string, p: nat)
    requires p <= |t| && ParseValue(f, t, p).Parsed?
    ensures Skip(t, p) < |t| && p <= Skip(t, p)
  {
    hide ParseItems, ParseFields, ParseNumber, ParseString;
  }

  lemma SpacesJoin(t: string, p: nat, q: nat, r: nat)
    requires Spaces(t, p, q) && Spaces(t, q, r)
    ensures Spaces(t, p, r)
  {}

  lemma StandsEarlier(f: Doubles, t: string, p: nat, q: nat, e: nat, x: Tree)
    requires Spaces(t, p, q) && Stands(f, t, q, e, x)
    ensures Stands(f, t, p, e, x)
  {
    hide Core, Spaces;
    var r: nat :| Spaces(t, q, r) && Core(f, t, r, e, x);
    SpacesJoin(t, p, q, r);
  }

  lemma ItemsEarlier(f: Doubles, t: string, p: nat, q: nat, e: nat, items: seq<Tree>)
    requires items != [] && Spaces(t, p, q) && ItemsFrom(f, t, q, e, items)
    ensures ItemsFrom(f, t, p, e, items)
  {
    hide Stands, Spaces;
    var v: nat, c: nat :|
      && Stands(f, t, q, v, items[0]) && Spaces(t, v, c)
      && if |items| == 1 then Mark(t, c, ']') && e == c + 1 else Mark(t, c, ',') && ItemsFrom(f, t, c + 1, e, items[1..]);
    StandsEarlier(f, t, p, q, v, items[0]);
  }

  lemma KeyEarlier(t: string, p: nat, q: nat, e: nat, key: string)
    requires Spaces(t, p, q) && KeyAt(t, q, e, key)
    ensures KeyAt(t, p, e, key)
  {
    hide Spaces, IsString;
    var r: nat :| Spaces(t, q, r) && IsString(t, r, e, key);
    SpacesJoin(t, p, q, r);
  }

  lemma PairEarlier(f: Doubles, t: string, p: nat, q: nat, e: nat, x: Pair)
    requires Spaces(t, p, q) && PairAt(f, t, q, e, x)
    ensures PairAt(f, t, p, e, x)
  {
    hide Spaces, KeyAt, Stands;
    var k: nat, c: nat :| KeyAt(t, q, k, x.key) && Spaces(t, k, c) && Mark(t, c, ':') && Stands(f, t, c + 1, e, x.tree);
    KeyEarlier(t, p, q, k, x.key);
  }

  lemma PairsEarlier(f: Doubles, t: string, p: nat, q: nat, e: nat, pairs: seq<Pair>)
    requires pairs != [] && Spaces(t, p, q) && PairsFrom(f, t, q, e, pairs)
    ensures PairsFrom(f, t, p, e, pairs)
  {
    hide PairAt, Spaces;
    var v: nat, c: nat :|
      && PairAt(f, t, q, v, pairs[0]) && Spaces(t, v, c)
      && if |pairs| == 1 then Mark(t, c, '}') && e == c + 1 else Mark(t, c, ',') && PairsFrom(f, t, c + 1, e, pairs[1..]);
    PairEarlier(f, t, p, q, v, pairs[0]);
  }

  lemma LeafRead(f: Doubles, t: string, p: nat)
    requires p <= |t| && ParseValue(f, t, p).Parsed? && Skip(t, p) < |t| && t[Skip(t, p)] != '[' && t[Skip(t, p)] != '{'
    ensures var q, r := Skip(t, p), ParseValue(f, t, p);
      q < r.end <= |t| && LeafAt(f, t, q, r.end, r.value)
  {
    hide Skip, ParseItems, ParseFields, Characters, ParseString, NumberEnd, G.IsNumber;
    var q, r := Skip(t, p), ParseValue(f, t, p);
    if t[q] == '"' {
      var s := StringRead(t, q + 1, "");
      assert "" + s == s;
    } else if t[q] == '-' || IsDigit(t[q]) {
      G.NumberRead(t, q, r.end);
    }
  }

  lemma {:induction false} ValueRead(f: Doubles, t: string, p: nat) returns (x: Tree)
    requires p <= |t| && ParseValue(f, t, p).Parsed?
    ensures Stands(f, t, p, ParseValue(f, t, p).end, x) && Meaning(x) == ParseValue(f, t, p).value
    decreases |t| - p, 1
  {
    var q, r := Skip(t, p), ParseValue(f, t, p);
    ValueIs(f, t, p);
    SkipRead(t, p);
    if t[q] == '[' {
      x := ListRead(f, t, p);
    } else if t[q] == '{' {
      x := DictRead(f, t, p);
    } else {
      LeafRead(f, t, p);
      x := Leaf(r.value);
    }
    hide ParseValue, Skip, Spaces, LeafAt;
    assert Core(f, t, q, r.end, x);
  }

  lemma {:induction false} ListRead(f: Doubles, t: string, p: nat) returns (x: Tree)
    requires p <= |t| && ParseValue(f, t, p).Parsed? && Skip(t, p) < |t| && t[Skip(t, p)] == '['
    ensures Core(f, t, Skip(t, p), ParseValue(f, t, p).end, x) && Meaning(x) == ParseValue(f, t, p).value
    decreases |t| - p, 0
  {
    hide Skip, ParseItems, ParseFields, ParseString, ParseNumber, ItemsFrom, Spaces;
    var q, r := Skip(t, p), ParseValue(f, t, p);
    SkipRead(t, p);
    SkipRead(t, q + 1);
    var s := Skip(t, q + 1);
    if CharAt(t, s, ']') {
      x := List([]);
      assert Empty(t, q + 1, r.end, ']');
    } else {
      SpacesOrder(t, p, q);
      SpacesOrder(t, q + 1, s);
      var items := ItemsRead(f, t, s, []);
      ItemsEarlier(f, t, q + 1, s, r.end, items);
      x := List(items);
      assert [] + Meanings(items) == Meanings(items);
    }
  }

  lemma SpacesOrder(t: string, p: nat, q: nat)
    requires Spaces(t, p, q)
    ensures p <= q <= |t|
  {}

  lemma ItemsSteps(f: Doubles, t: string, p: nat, acc: seq<Value>)
    requires p <= |t| && ParseItems(f, t, p, acc).Parsed?
    ensures var v := ParseValue(f, t, p);
      && v.Parsed? && p < v.end <= |t|
      && var c := Skip(t, v.end);
      && v.end <= c < |t|
      && if t[c] == ']' then ParseItems(f, t, p, acc) == Parsed(Arr(acc + [v.value]), c + 1)
         else t[c] == ',' && ParseItems(f, t, p, acc) == ParseItems(f, t, c + 1, acc + [v.value])
  {
    hide Skip, ParseValue;
  }

  lemma {:induction false} ItemsRead(f: Doubles, t: string, p: nat, acc: seq<Value>) returns (items: seq<Tree>)
    requires p <= |t| && ParseItems(f, t, p, acc).Parsed?
    ensures items != [] && ItemsFrom(f, t, p, ParseItems(f, t, p, acc).end, items)
    ensures ParseItems(f, t, p, acc).value == Arr(acc + Meanings(items))
    decreases |t| - p, 2
  {
    hide *;
    ItemsSteps(f, t, p, acc);
    var v := ParseValue(f, t, p);
    var c := Skip(t, v.end);
    var x := ValueRead(f, t, p);
    SkipRead(t, v.end);
    if t[c] == ']' {
      items := [x];
      MarkIs(t, c);
      OneItem(f, t, p, v.end, c, x);
    } else {
      var rest := ItemsRead(f, t, c + 1, acc + [v.value]);
      items := [x] + rest;
      MarkIs(t, c);
      MoreItems(f, t, p, v.end, c, x, ParseItems(f, t, p, acc).end, rest);
      assert acc + [v.value] + Meanings(rest) == acc + ([v.value] + Meanings(rest));
    }
  }

  lemma MarkIs(t: string, c: nat)
    requires c < |t|
    ensures Mark(t, c, t[c])
  {}

  lemma OneItem(f: Doubles, t: string, p: nat, v: nat, c: nat, x: Tree)
    requires Stands(f, t, p, v, x) && Spaces(t, v, c) && Mark(t, c, ']')
    ensures ItemsFrom(f, t, p, c + 1, [x]) && Meanings([x]) == [Meaning(x)]
  {
    hide Stands, Spaces, Meaning;
  }

  lemma MoreItems(f: Doubles, t: string, p: nat, v: nat, c: nat, x: Tree, e: nat, rest: seq<Tree>)
    requires Stands(f, t, p, v, x) && Spaces(t, v, c) && Mark(t, c, ',') && rest != [] && ItemsFrom(f, t, c + 1, e, rest)
    ensures ItemsFrom(f, t, p, e, [x] + rest) && Meanings([x] + rest) == [Meaning(x)] + Meanings(rest)
  {
    hide Stands, Spaces, Meaning;
    assert ([x] + rest)[1..] == rest;
  }

  lemma {:induction false} DictRead(f: Doubles, t: string, p: nat) returns (x: Tree)
    requires p <= |t| && ParseValue(f, t, p).Parsed? && Skip(t, p) < |t| && t[Skip(t, p)] == '{'
    ensures Core(f, t, Skip(t, p), ParseValue(f, t, p).end, x) && Meaning(x) == ParseValue(f, t, p).value
    decreases |t| - p, 0
  {
    hide Skip, ParseItems, ParseFields, ParseString, ParseNumber, PairsFrom, Spaces;
    var q, r := Skip(t, p), ParseValue(f, t, p);
    SkipRead(t, p);
    SkipRead(t, q + 1);
    var s := Skip(t, q + 1);
    if CharAt(t, s, '}') {
      x := Dict([]);
      assert Empty(t, q + 1, r.end, '}');
    } else {
      SpacesOrder(t, p, q);
      SpacesOrder(t, q + 1, s);
      var pairs := PairsRead(f, t, s, []);
      PairsEarlier(f, t, q + 1, s, r.end, pairs);
      x := Dict(pairs);
    }
  }

  /** A tree that means a string is a string. */
  lemma KeyIs(f: Doubles, t: string, p: nat, e: nat, x: Tree)
    requires Stands(f, t, p, e, x) && Meaning(x).Str?
    ensures KeyAt(t, p, e, Meaning(x).s)
  {
    hide ItemsFrom, PairsFrom, Spaces, IsString, Meanings, Assigned;
    var q: nat :| Spaces(t, p, q) && Core(f, t, q, e, x);
  }

  lemma {:induction false} PairRead(f: Doubles, t: string, p: nat) returns (x: Pair)
    requires p <= |t| && ParseField(f, t, p).Parsed?
    ensures PairAt(f, t, p, ParseField(f, t, p).end, x) && ParseField(f, t, p).value == Field(x.key, Meaning(x.tree))
    decreases |t| - p, 2
  {
    hide Skip, ParseValue, Stands, Spaces, KeyAt;
    var k := ParseValue(f, t, p);
    var key := ValueRead(f, t, p);
    KeyIs(f, t, p, k.end, key);
    SkipRead(t, k.end);
    var c := Skip(t, k.end);
    SpacesOrder(t, k.end, c);
    var tree := ValueRead(f, t, c + 1);
    x := Pair(k.value.s, tree);
  }

  lemma {:induction false} PairsRead(f: Doubles, t: string, p: nat, acc: seq<Field>) returns (pairs: seq<Pair>)
    requires p <= |t| && ParseFields(f, t, p, acc).Parsed?
    ensures pairs != [] && PairsFrom(f, t, p, ParseFields(f, t, p, acc).end, pairs)
    ensures ParseFields(f, t, p, acc).value == Obj(Assigned(acc, pairs))
    decreases |t| - p, 3
  {
    hide Skip, ParseField, PairAt, Spaces, Insert;
    var v := ParseField(f, t, p);
    var x := PairRead(f, t, p);
    SkipRead(t, v.end);
    var c := Skip(t, v.end);
    SpacesOrder(t, v.end, c);
    var acc' := Insert(acc, v.value.key, v.value.value);
    if CharAt(t, c, '}') {
      pairs := [x];
      assert Assigned(acc, pairs) == Assigned(acc', []);
    } else {
      var rest := PairsRead(f, t, c + 1, acc');
      pairs := [x] + rest;
      assert pairs[1..] == rest;
    }
  }

  // ----- the reader gives every text of the language its meaning -----

  /** A number that ends before `e` has ended. */
  predicate Quiet(t: string, e: nat) { e < |t| ==> !G.ReadsOn(t[e]) }

  lemma QuietBefore(t: string, v: nat, c: nat)
    requires Spaces(t, v, c) && (c < |t| ==> t[c] in [',', ':', ']', '}'])
    ensures Quiet(t, v)
  {
    if v < c { assert IsWhite(t[v]); }
  }

  lemma FirstSkipped(f: Doubles, t: string, p: nat, e: nat, x: Tree) returns (q: nat)
    requires Stands(f, t, p, e, x)
    ensures Spaces(t, p, q) && Core(f, t, q, e, x) && p <= q < |t| && Skip(t, p) == q && t[q] != ']' && t[q] != '}'
  {
    hide Core;
    q :| Spaces(t, p, q) && Core(f, t, q, e, x);
    CoreStarts(f, t, q, e, x);
    SkipKnown(t, p, q);
  }

  lemma TextKnown(f: Doubles, t: string, p: nat, q: nat, e: nat, s: string)
    requires p <= |t| && Skip(t, p) == q && q < e <= |t| && IsString(t, q, e, s)
    ensures ParseValue(f, t, p) == Parsed(Str(s), e)
  {
    hide Skip, ParseItems, ParseFields, ParseNumber, ParseString, Characters;
    StringKnown(t, q + 1, e - 1, s, "");
    assert "" + s == s;
  }

  lemma LeafKnown(f: Doubles, t: string, p: nat, q: nat, e: nat, v: Value)
    requires p <= |t| && Skip(t, p) == q && q < e <= |t| && LeafAt(f, t, q, e, v) && Quiet(t, e)
    ensures ParseValue(f, t, p) == Parsed(v, e)
  {
    LeafStarts(f, t, q, e, v);
    hide Skip, ParseItems, ParseFields, ParseString, Characters, NumberEnd, G.IsNumber, IsString;
    match v
    case Null => assert Starts(t, q, "null");
    case Bool(b) => assert Starts(t, q, if b then "true" else "false");
    case Num(d) => G.NumberStops(t, q, e);
    case Str(s) => TextKnown(f, t, p, q, e, s);
    case _ =>
  }

  lemma {:induction false} ValueKnown(f: Doubles, t: string, p: nat, e: nat, x: Tree)
    requires Stands(f, t, p, e, x) && Quiet(t, e)
    ensures p <= |t| && ParseValue(f, t, p) == Parsed(Meaning(x), e)
    decreases x, 1
  {
    hide ItemsFrom, PairsFrom, Spaces, LeafAt, Skip, Meanings, Assigned;
    var q := FirstSkipped(f, t, p, e, x);
    match x
    case Leaf(v) => LeafKnown(f, t, p, q, e, v);
    case List(items) => ListKnown(f, t, p, q, e, items);
    case Dict(pairs) => DictKnown(f, t, p, q, e, pairs);
  }

  lemma ItemsSkips(f: Doubles, t: string, p: nat, acc: seq<Value>)
    requires p <= |t|
    ensures ParseItems(f, t, Skip(t, p), acc) == ParseItems(f, t, p, acc)
  {
    ValueSkips(f, t, p);
    hide Skip, ParseValue;
  }

  lemma OpenList(f: Doubles, t: string, p: nat, q: nat)
    requires p <= |t| && Skip(t, p) == q && q < |t| && t[q] == '['
    ensures q + 1 <= Skip(t, q + 1) <= |t|
    ensures ParseValue(f, t, p) == if CharAt(t, Skip(t, q + 1), ']') then Parsed(Arr([]), Skip(t, q + 1) + 1) else ParseItems(f, t, Skip(t, q + 1), [])
  {
    hide Skip, ParseItems, ParseFields, ParseString, ParseNumber;
  }

  lemma {:induction false} ListKnown(f: Doubles, t: string, p: nat, q: nat, e: nat, items: seq<Tree>)
    requires p <= |t| && Skip(t, p) == q && q < |t| && t[q] == '['
    requires if items == [] then Empty(t, q + 1, e, ']') else ItemsFrom(f, t, q + 1, e, items)
    ensures ParseValue(f, t, p) == Parsed(Arr(Meanings(items)), e)
    decreases items, 3
  {
    hide Skip, ParseValue, ParseItems, Spaces, Stands, Core;
    OpenList(f, t, p, q);
    if items == [] {
      CloseKnown(t, q + 1, e, ']');
    } else {
      var v: nat :| Stands(f, t, q + 1, v, items[0]);
      var s := FirstSkipped(f, t, q + 1, v, items[0]);
      ItemsKnown(f, t, q + 1, e, items, []);
      ItemsSkips(f, t, q + 1, []);
      assert [] + Meanings(items) == Meanings(items);
    }
  }

  lemma CloseKnown(t: string, p: nat, e: nat, close: char)
    requires Empty(t, p, e, close) && (close == ']' || close == '}')
    ensures p <= |t| && Skip(t, p) == e - 1 && CharAt(t, e - 1, close)
  {
    SkipKnown(t, p, e - 1);
  }

  /** How an array is read on after one element. */
  lemma ItemStep(f: Doubles, t: string, p: nat, v: nat, c: nat, y: Value, acc: seq<Value>)
    requires p <= |t| && ParseValue(f, t, p) == Parsed(y, v) && Spaces(t, v, c) && c < |t| && (t[c] == ',' || t[c] == ']')
    ensures ParseItems(f, t, p, acc) == if t[c] == ']' then Parsed(Arr(acc + [y]), c + 1) else ParseItems(f, t, c + 1, acc + [y])
  {
    SkipKnown(t, v, c);
    hide Skip, ParseValue, Spaces;
  }

  lemma {:induction false} ItemsKnown(f: Doubles, t: string, p: nat, e: nat, items: seq<Tree>, acc: seq<Value>)
    requires items != [] && ItemsFrom(f, t, p, e, items)
    ensures p <= |t| && ParseItems(f, t, p, acc) == Parsed(Arr(acc + Meanings(items)), e)
    decreases items, 2
  {
    hide Stands, Spaces, ParseValue, ParseItems, Meaning;
    var v: nat, c: nat :|
      && Stands(f, t, p, v, items[0]) && Spaces(t, v, c)
      && if |items| == 1 then Mark(t, c, ']') && e == c + 1 else Mark(t, c, ',') && ItemsFrom(f, t, c + 1, e, items[1..]);
    QuietBefore(t, v, c);
    ValueKnown(f, t, p, v, items[0]);
    ItemStep(f, t, p, v, c, Meaning(items[0]), acc);
    if |items| == 1 {
      assert Meanings(items) == [Meaning(items[0])];
    } else {
      ItemsKnown(f, t, c + 1, e, items[1..], acc + [Meaning(items[0])]);
      assert acc + [Meaning(items[0])] + Meanings(items[1..]) == acc + Meanings(items);
    }
  }

  lemma FieldsSkips(f: Doubles, t: string, p: nat, acc: seq<Field>)
    requires p <= |t|
    ensures ParseFields(f, t, Skip(t, p), acc) == ParseFields(f, t, p, acc)
  {
    ValueSkips(f, t, p);
    hide Skip, ParseValue;
  }

  lemma {:induction false} DictKnown(f: Doubles, t: string, p: nat, q: nat, e: nat, pairs: seq<Pair>)
    requires p <= |t| && Skip(t, p) == q && q < |t| && t[q] == '{'
    requires if pairs == [] then Empty(t, q + 1, e, '}') else PairsFrom(f, t, q + 1, e, pairs)
    ensures ParseValue(f, t, p) == Parsed(Obj(Assigned([], pairs)), e)
    decreases pairs, 4
  {
    hide Skip, ParseItems, ParseFields, ParseString, ParseNumber, Spaces, PairAt, KeyAt, IsString;
    if pairs == [] {
      CloseKnown(t, q + 1, e, '}');
    } else {
      var v: nat :| PairAt(f, t, q + 1, v, pairs[0]);
      var k := KeyOf(f, t, q + 1, v, pairs[0]);
      KeySkipped(t, q + 1, k, pairs[0].key);
      PairsKnown(f, t, q + 1, e, pairs, []);
      FieldsSkips(f, t, q + 1, []);
    }
  }

  lemma KeyOf(f: Doubles, t: string, p: nat, e: nat, x: Pair) returns (k: nat)
    requires PairAt(f, t, p, e, x)
    ensures KeyAt(t, p, k, x.key)
  {
    hide KeyAt, Stands, Spaces;
    var c: nat;
    k, c :| KeyAt(t, p, k, x.key) && Spaces(t, k, c) && Mark(t, c, ':') && Stands(f, t, c + 1, e, x.tree);
  }

  lemma KeySkipped(t: string, p: nat, k: nat, key: string)
    requires KeyAt(t, p, k, key)
    ensures p <= Skip(t, p) < |t| && t[Skip(t, p)] == '"' && IsString(t, Skip(t, p), k, key)
  {
    hide Characters;
    var q: nat :| Spaces(t, p, q) && IsString(t, q, k, key);
    SkipKnown(t, p, q);
  }

  lemma KeyKnown(f: Doubles, t: string, p: nat, k: nat, key: string)
    requires KeyAt(t, p, k, key)
    ensures p <= |t| && ParseValue(f, t, p) == Parsed(Str(key), k)
  {
    hide Skip, ParseValue, Characters;
    KeySkipped(t, p, k, key);
    TextKnown(f, t, p, Skip(t, p), k, key);
  }

  lemma {:induction false} PairKnown(f: Doubles, t: string, p: nat, e: nat, x: Pair)
    requires PairAt(f, t, p, e, x) && Quiet(t, e)
    ensures p <= |t| && ParseField(f, t, p) == Parsed(Field(x.key, Meaning(x.tree)), e)
    decreases x, 2
  {
    hide KeyAt, Stands, Spaces, Skip, ParseValue, Meaning;
    var k: nat, c: nat :| KeyAt(t, p, k, x.key) && Spaces(t, k, c) && Mark(t, c, ':') && Stands(f, t, c + 1, e, x.tree);
    KeyKnown(f, t, p, k, x.key);
    ColonKnown(t, k, c);
    ValueKnown(f, t, c + 1, e, x.tree);
  }

  lemma ColonKnown(t: string, k: nat, c: nat)
    requires Spaces(t, k, c) && Mark(t, c, ':')
    ensures k <= |t| && Skip(t, k) == c && CharAt(t, c, ':')
  {
    SkipKnown(t, k, c);
  }

  lemma FieldStep(f: Doubles, t: string, p: nat, v: nat, c: nat, y: Field, acc: seq<Field>)
    requires p <= |t| && ParseField(f, t, p) == Parsed(y, v) && Spaces(t, v, c) && c < |t| && (t[c] == ',' || t[c] == '}')
    ensures var acc' := Insert(acc, y.key, y.value);
      ParseFields(f, t, p, acc) == if t[c] == '}' then Parsed(Obj(acc'), c + 1) else ParseFields(f, t, c + 1, acc')
  {
    SkipKnown(t, v, c);
    hide Skip, ParseField, Spaces, Insert;
  }

  lemma {:induction false} PairsKnown(f: Doubles, t: string, p: nat, e: nat, pairs: seq<Pair>, acc: seq<Field>)
    requires pairs != [] && PairsFrom(f, t, p, e, pairs)
    ensures p <= |t| && ParseFields(f, t, p, acc) == Parsed(Obj(Assigned(acc, pairs)), e)
    decreases pairs, 3
  {
    hide PairAt, Spaces, ParseField, ParseFields, Meaning, Insert;
    var v: nat, c: nat :|
      && PairAt(f, t, p, v, pairs[0]) && Spaces(t, v, c)
      && if |pairs| == 1 then Mark(t, c, '}') && e == c + 1 else Mark(t, c, ',') && PairsFrom(f, t, c + 1, e, pairs[1..]);
    QuietBefore(t, v, c);
    PairKnown(f, t, p, v, pairs[0]);
    FieldStep(f, t, p, v, c, Field(pairs[0].key, Meaning(pairs[0].tree)), acc);
    var acc' := Insert(acc, pairs[0].key, Meaning(pairs[0].tree));
    if |pairs| == 1 {
      assert Assigned(acc, pairs) == Assigned(acc', []);
    } else {
      PairsKnown(f, t, c + 1, e, pairs[1..], acc');
    }
  }

  // ----- whole texts -----

  /** The reader accepts exactly the texts of the language, each with its meaning; and no text has two. */
  lemma ParsesExactly(f: Doubles, t: string, v: Value)
    ensures Parse(f, t) == Success(v) <==> exists x :: IsText(f, t, x) && Meaning(x) == v
  {
    hide Meaning, ParseValue, Skip, Stands, Spaces;
    ValueSkips(f, t, 0);
    if Parse(f, t) == Success(v) {
      var e := ParseValue(f, t, 0).end;
      var x := ValueRead(f, t, 0);
      SkipRead(t, e);
      assert IsText(f, t, x);
    }
    if x :| IsText(f, t, x) && Meaning(x) == v {
      var e: nat :| Stands(f, t, 0, e, x) && Spaces(t, e, |t|);
      QuietBefore(t, e, |t|);
      ValueKnown(f, t, 0, e, x);
      SkipKnown(t, e, |t|);
      SpacesOrder(t, e, |t|);
    }
  }

  /** Where the language is wider than the standard: vertical tabs and form feeds are white space, and control characters may stand in strings. */
  lemma Liberties(f: Doubles, c: char)
    requires c as int < 32
    ensures Parse(f, [11 as char, 12 as char] + "null") == Success(Null)
    ensures Parse(f, "\"" + [c] + "\"") == Success(Str([c]))
  {
    var t := [11 as char, 12 as char] + "null";
    assert t[2..6] == "null";
    assert LeafAt(f, t, 2, 6, Null);
    Alone(f, t, 2, 6, Null);
    ParsesExactly(f, t, Null);
    ControlInString(f, c);
  }

  lemma ControlInString(f: Doubles, c: char)
    requires c as int < 32
    ensures Parse(f, "\"" + [c] + "\"") == Success(Str([c]))
  {
    var t := "\"" + [c] + "\"";
    assert Characters(t, 2, 2, "");
    assert [c][1..] == "";
    assert Characters(t, 1, 2, [c]);
    assert LeafAt(f, t, 0, 3, Str([c]));
    Alone(f, t, 0, 3, Str([c]));
    ParsesExactly(f, t, Str([c]));
  }

  lemma Alone(f: Doubles, t: string, q: nat, e: nat, v: Value)
    requires Spaces(t, 0, q) && q < e <= |t| && LeafAt(f, t, q, e, v) && Spaces(t, e, |t|)
    ensures IsText(f, t, Leaf(v)) && Meaning(Leaf(v)) == v
  {
    hide LeafAt, Spaces;
    assert Core(f, t, q, e, Leaf(v));
    assert Stands(f, t, 0, e, Leaf(v));
  }
}
