/**
 Whole GGUF files: writing one, reading its header, and loading its tensors whole or in expert
 slices. Reading and loading give back what was written, and the writer's padding loop agrees with
 the reader's mask.
 */
module GgufFile {
  import opened Layout
  import opened Within
  import opened Bytes
  import opened Entries
  import opened Gguf

  // ----- alignment -----

  /** Bitwise and of the low `n` bits. */
  function BitAnd(a: nat, b: nat, n: nat): nat { if n == 0 then 0 else (a % 2) * (b % 2) + 2 * BitAnd(a / 2, b / 2, n - 1) }

  function Pow2(n: nat): (r: nat)
    ensures r > 0
  {
    if n == 0 then 1 else 2 * Pow2(n - 1)
  }

  /** The reader's rounding up: add 31, then clear the low five bits, in 64-bit words. */
  function Aligned(pos: nat): nat { BitAnd((pos + 31) % TWO64, TWO64 - 32, 64) }

  /** The zeros the writer's loop appends. */
  function Padding(n: nat): nat { (32 - n % 32) % 32 }

  lemma {:induction false} AndOnes(a: nat, n: nat)
    requires a < Pow2(n)
    ensures BitAnd(a, Pow2(n) - 1, n) == a
  {
    if n > 0 { AndOnes(a / 2, n - 1); }
  }

  lemma AndEven(a: nat, m: nat, n: nat)
    ensures BitAnd(a, 2 * m, n + 1) == 2 * BitAnd(a / 2, m, n)
  {}

  lemma AndLowClear(a: nat, m: nat, n: nat)
    ensures BitAnd(a, 32 * m, n + 5) == 32 * BitAnd(a / 32, m, n)
  {
    hide BitAnd;
    AndEven(a, 16 * m, n + 4);
    AndEven(a / 2, 8 * m, n + 3);
    AndEven(a / 4, 4 * m, n + 2);
    AndEven(a / 8, 2 * m, n + 1);
    AndEven(a / 16, m, n);
  }

  const TWO59: int := 0x0800_0000_0000_0000

  lemma EightMore(n: nat)
    ensures Pow2(n + 8) == 256 * Pow2(n)
  {
    assert Pow2(n + 2) == 4 * Pow2(n);
    assert Pow2(n + 4) == 4 * Pow2(n + 2);
    assert Pow2(n + 6) == 4 * Pow2(n + 4);
  }

  lemma Pow2Is59(n: nat)
    requires n == 3
    ensures Pow2(n + 56) == TWO59
  {
    assert Pow2(n) == 8;
    hide Pow2;
    EightMore(n);
    EightMore(n + 8);
    EightMore(n + 16);
    EightMore(n + 24);
    EightMore(n + 32);
    EightMore(n + 40);
    EightMore(n + 48);
  }

  lemma MaskClears(a: nat)
    requires a < TWO64
    ensures BitAnd(a, TWO64 - 32, 64) == 32 * (a / 32)
  {
    hide BitAnd, Pow2;
    Pow2Is59(3);
    AndLowClear(a, TWO59 - 1, 59);
    AndOnes(a / 32, 59);
  }

  /** The mask and the padding loop reach the same position, unless the addition wraps. */
  lemma MaskIsPadding(pos: nat)
    requires pos + 31 < TWO64
    ensures Aligned(pos) == pos + Padding(pos)
  {
    hide BitAnd;
    MaskClears(pos + 31);
  }

  // ----- the header -----

  /** "GGUF" */
  const MAGIC: Data := [71, 71, 85, 70]

  type Entry = (string, Value)

  function EncEntries(): Entry -> Data { (kv: Entry) => EncEntry(kv) }
  function DecEntries(): (Data, nat) -> Dec<Entry> { (t: Data, p: nat) => DecEntry(t, p) }
  function EncInfos(): Info -> Data { (i: Info) => EncInfo(i) }
  function DecInfos(): (Data, nat) -> Dec<Info> { (t: Data, p: nat) => DecInfo(t, p) }

  function EncStart(kvs: seq<Entry>, infos: seq<Info>): Data { MAGIC + U32(3) + U64(|infos|) + U64(|kvs|) }

  function EncHeader(kvs: seq<Entry>, infos: seq<Info>): Data {
    EncStart(kvs, infos) + EncMany(EncEntries(), kvs, |kvs|) + EncMany(EncInfos(), infos, |infos|)
  }

  function DecHeader(t: Data): Dec<Parts> {
    if |t| < 4 then Bad(Truncated)
    else if t[..4] != MAGIC then Bad(NotGguf)
    else
      var (version, p1) :- DecU32(t, 4);
      var (tensors, p2) :- DecU64(t, p1);
      var (entries, p3) :- DecU64(t, p2);
      var (kvs, p4) :- DecMany(DecEntries(), t, p3, entries);
      var (infos, p5) :- DecMany(DecInfos(), t, p4, tensors);
      Got(Parts(version, kvs, infos), p5)
  }

  /** The map that inserting the first `n` entries builds: an earlier entry keeps its key. */
  function FirstWins(xs: seq<Entry>, n: nat): map<string, Value>
    requires n <= |xs|
  {
    if n == 0 then map[]
    else
      var m := FirstWins(xs, n - 1);
      if xs[n - 1].0 in m then m else m[xs[n - 1].0 := xs[n - 1].1]
  }

  function ReadHeader(t: Data): Result<File, DecodeError> {
    match DecHeader(t)
    case Got(h, p) => Success(File(h.version, FirstWins(h.kvs, |h.kvs|), h.infos, Aligned(p)))
    case Bad(e) => Failure(e)
  }

  function WrittenMap(m: map<string, Value>): map<string, Value> { map k | k in m :: Written(m[k]) }

  function WrittenEntries(xs: seq<Entry>): (r: seq<Entry>)
    ensures |r| == |xs| && forall i :: 0 <= i < |xs| ==> r[i] == (xs[i].0, Written(xs[i].1))
  {
    seq(|xs|, i requires 0 <= i < |xs| => (xs[i].0, Written(xs[i].1)))
  }

  predicate Has(xs: seq<Entry>, n: nat, k: string)
    requires n <= |xs|
  {
    exists i :: 0 <= i < n && xs[i].0 == k
  }

  lemma {:induction false} FirstWinsHolds(m: map<string, Value>, xs: seq<Entry>, n: nat, k: string)
    requires Lists(m, xs) && n <= |xs|
    ensures k in FirstWins(WrittenEntries(xs), n) <==> Has(xs, n, k)
    ensures k in FirstWins(WrittenEntries(xs), n) ==> k in m && FirstWins(WrittenEntries(xs), n)[k] == Written(m[k])
  {
    hide Written;
    if n > 0 {
      FirstWinsHolds(m, xs, n - 1, k);
      assert Has(xs, n, k) <==> Has(xs, n - 1, k) || xs[n - 1].0 == k;
    }
  }

  lemma ListedMap(m: map<string, Value>, xs: seq<Entry>)
    requires Lists(m, xs)
    ensures FirstWins(WrittenEntries(xs), |xs|) == WrittenMap(m)
  {
    hide FirstWins, Written;
    forall k ensures k in FirstWins(WrittenEntries(xs), |xs|) <==> k in m { FirstWinsHolds(m, xs, |xs|, k); }
    forall k | k in m ensures FirstWins(WrittenEntries(xs), |xs|)[k] == Written(m[k]) { FirstWinsHolds(m, xs, |xs|, k); }
  }

  /** The metadata survives unchanged exactly when every value is of one of the ten written kinds. */
  lemma MapSurvives(m: map<string, Value>)
    ensures WrittenMap(m) == m <==> forall k :: k in m ==> Handled(m[k])
  {
    if WrittenMap(m) == m {
      forall k | k in m ensures Handled(m[k]) { assert Written(m[k]) == WrittenMap(m)[k] == m[k]; }
    }
  }

  lemma SameValue(v: Value)
    ensures EncValue(Written(v)) == EncValue(v)
  {}

  lemma {:induction false} SameEntries(xs: seq<Entry>, n: nat)
    requires n <= |xs|
    ensures EncMany(EncEntries(), WrittenEntries(xs), n) == EncMany(EncEntries(), xs, n)
  {
    hide EncValue, EncText;
    if n > 0 {
      SameEntries(xs, n - 1);
      SameValue(xs[n - 1].1);
    }
  }

  predicate HeaderFits(kvs: seq<Entry>, infos: seq<Info>) {
    && |kvs| < TWO64 && (forall i :: 0 <= i < |kvs| ==> EntryFits(kvs[i]))
    && |infos| < TWO64 && (forall i :: 0 <= i < |infos| ==> InfoFits(infos[i]))
  }

  lemma EntriesRead(t: Data, p: nat, kvs: seq<Entry>)
    requires (forall i :: 0 <= i < |kvs| ==> EntryFits(kvs[i])) && At(t, p, EncMany(EncEntries(), kvs, |kvs|))
    ensures DecMany(DecEntries(), t, p, |kvs|) == Got(WrittenEntries(kvs), p + |EncMany(EncEntries(), kvs, |kvs|)|)
  {
    hide At, EncEntry, DecEntry;
    var ws := WrittenEntries(kvs);
    SameEntries(kvs, |kvs|);
    forall i | 0 <= i < |ws| ensures ReadsBack(EncEntries(), DecEntries(), t, ws[i]) {
      assert EntryFits(kvs[i]) && EntryFits(ws[i]);
      forall q: nat | At(t, q, EncEntries()(ws[i])) ensures DecEntries()(t, q) == Got(ws[i], q + |EncEntries()(ws[i])|) { EntryReads(t, q, ws[i]); }
    }
    ManyRead(EncEntries(), DecEntries(), t, p, ws, |ws|);
    assert ws[..|ws|] == ws;
  }

  lemma InfosRead(t: Data, p: nat, infos: seq<Info>)
    requires (forall i :: 0 <= i < |infos| ==> InfoFits(infos[i])) && At(t, p, EncMany(EncInfos(), infos, |infos|))
    ensures DecMany(DecInfos(), t, p, |infos|) == Got(infos, p + |EncMany(EncInfos(), infos, |infos|)|)
  {
    hide At, EncInfo, DecInfo;
    forall i | 0 <= i < |infos| ensures ReadsBack(EncInfos(), DecInfos(), t, infos[i]) {
      forall q: nat | At(t, q, EncInfos()(infos[i])) ensures DecInfos()(t, q) == Got(infos[i], q + |EncInfos()(infos[i])|) { InfoReads(t, q, infos[i]); }
    }
    ManyRead(EncInfos(), DecInfos(), t, p, infos, |infos|);
    assert infos[..|infos|] == infos;
  }

  lemma StartReads(t: Data, kvs: seq<Entry>, infos: seq<Info>)
    requires |kvs| < TWO64 && |infos| < TWO64 && At(t, 0, EncStart(kvs, infos))
    ensures |t| >= 24 && t[..4] == MAGIC && DecU32(t, 4) == Got(3, 8) && DecU64(t, 8) == Got(|infos|, 16) && DecU64(t, 16) == Got(|kvs|, 24)
  {
    AtBound(t, 0, EncStart(kvs, infos));
    hide At;
    AtJoin(t, 0, MAGIC + U32(3) + U64(|infos|), U64(|kvs|));
    AtJoin3(t, 0, MAGIC, U32(3), U64(|infos|));
    AtSlice(t, 0, MAGIC);
    assert t[0..4] == t[..4];
    U32Reads(t, 4, 3);
    U64Reads(t, 8, |infos|);
    U64Reads(t, 16, |kvs|);
  }

  /** Reading a header gives the written entries and the descriptions, whatever follows. */
  lemma HeaderReads(t: Data, kvs: seq<Entry>, infos: seq<Info>)
    requires HeaderFits(kvs, infos) && At(t, 0, EncHeader(kvs, infos))
    ensures DecHeader(t) == Got(Parts(3, WrittenEntries(kvs), infos), |EncHeader(kvs, infos)|)
  {
    hide At, EncStart, EncMany, DecMany, DecU32, DecU64;
    var start := EncStart(kvs, infos);
    assert |start| == 24 by { assert start == MAGIC + U32(3) + U64(|infos|) + U64(|kvs|) by { StartIs(kvs, infos); } }
    var entries := EncMany(EncEntries(), kvs, |kvs|);
    AtJoin3(t, 0, start, entries, EncMany(EncInfos(), infos, |infos|));
    StartReads(t, kvs, infos);
    EntriesRead(t, 24, kvs);
    InfosRead(t, 24 + |entries|, infos);
  }

  lemma StartIs(kvs: seq<Entry>, infos: seq<Info>)
    ensures EncStart(kvs, infos) == MAGIC + U32(3) + U64(|infos|) + U64(|kvs|)
  {}

  lemma HeaderSteady(t: Data, s: Data)
    requires DecHeader(t).Got?
    ensures DecHeader(t).end <= |t| && DecHeader(t + s) == DecHeader(t)
  {
    assert (t + s)[..4] == t[..4];
    FixedStable(t, s, 4, 4);
    FixedStable(t, s, 8, 8);
    FixedStable(t, s, 16, 8);
    var (tensors, _) := DecU64(t, 8).Extract();
    var (entries, _) := DecU64(t, 16).Extract();
    assert Steady(DecEntries(), t, s) by {
      forall q: nat | DecEntries()(t, q).Got? ensures DecEntries()(t + s, q) == DecEntries()(t, q) { EntrySteady(t, s, q); }
    }
    assert Steady(DecInfos(), t, s) by {
      forall q: nat | DecInfos()(t, q).Got?
        ensures q <= DecInfos()(t, q).end <= |t| && DecInfos()(t + s, q) == DecInfos()(t, q) { InfoSteady(t, s, q); }
    }
    ManySteady(DecEntries(), t, s, 24, entries);
    ManySteady(DecInfos(), t, s, DecMany(DecEntries(), t, 24, entries).end, tensors);
  }

  /** Every strict prefix of a header is rejected. */
  lemma HeaderPrefixesRejected(kvs: seq<Entry>, infos: seq<Info>, n: nat)
    requires HeaderFits(kvs, infos) && n < |EncHeader(kvs, infos)|
    ensures ReadHeader(EncHeader(kvs, infos)[..n]).Failure?
  {
    hide DecHeader, EncHeader, HeaderFits;
    var whole := EncHeader(kvs, infos);
    HeaderReads(whole, kvs, infos);
    assert whole[..n] + whole[n..] == whole;
    if DecHeader(whole[..n]).Got? { HeaderSteady(whole[..n], whole[n..]); }
  }
}
