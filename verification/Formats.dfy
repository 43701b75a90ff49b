/**
 Sizes of packed weights. A format packs fixed blocks of numbers into fixed blocks of bytes; cutting
 a packed bank into equal pieces cuts its bytes exactly when the remainders fit one block.
 */
module Formats {
  import opened Layout

  /** Bytes of `n` packed numbers, by format code; an unknown format has no size. */
  function PackedBytes(f: nat, n: nat): nat {
    match f
    case 0 => n * 4
    case 1 => n * 2
    case 2 => n * 2
    case 3 => n
    case 4 => (n + 1) / 2
    case 5 => (n + 1) / 2
    case 6 => (n + 1) / 2
    case 7 => n / 32 * 18
    case 8 => n / 32 * 20
    case 9 => n / 32 * 22
    case 10 => n / 32 * 24
    case 11 => n / 32 * 34
    case 12 => n / 256 * 84
    case 13 => n / 256 * 110
    case 14 => n / 256 * 144
    case 15 => n / 256 * 176
    case 16 => n / 256 * 210
    case 17 => n / 32 * 18
    case _ => 0
  }

  /** Numbers per block. */
  function Block(f: nat): (r: nat)
    ensures r > 0
  {
    if f <= 3 || f > 17 then 1 else if f <= 6 then 2 else if f <= 11 || f == 17 then 32 else 256
  }

  /** Bytes per block. */
  function BlockBytes(f: nat): nat {
    match f
    case 0 => 4
    case 1 => 2
    case 2 => 2
    case 3 => 1
    case 4 => 1
    case 5 => 1
    case 6 => 1
    case 7 => 18
    case 8 => 20
    case 9 => 22
    case 10 => 24
    case 11 => 34
    case 12 => 84
    case 13 => 110
    case 14 => 144
    case 15 => 176
    case 16 => 210
    case 17 => 18
    case _ => 0
  }

  /** Formats that the dequantiser handles. */
  predicate IsBlockQuant(f: nat) { 7 <= f <= 17 }

  lemma Multiple(e: nat, q: nat, r: nat, b: nat, bytes: nat)
    ensures e * (b * q + r) == b * (e * q) + e * r
    ensures e * (q * bytes) == bytes * (e * q)
  {
    assert e * (b * q + r) == e * (b * q) + e * r;
    assert e * (b * q) == b * (e * q);
    assert e * (q * bytes) == bytes * (e * q);
  }

  /** Packing `e` pieces of `n` numbers together takes the bytes of `e` separate pieces. */
  predicate Partitions(f: nat, e: nat, n: nat) { PackedBytes(f, e * n) == e * PackedBytes(f, n) }

  lemma Grow(x: nat, d: nat, bytes: nat)
    requires bytes > 0
    ensures (x + d) * bytes == bytes * x <==> d == 0
  {
    assert (x + d) * bytes == x * bytes + d * bytes;
    if d > 0 { assert d * bytes >= bytes; }
  }

  lemma By32(e: nat, n: nat, bytes: nat)
    requires bytes > 0
    ensures e * n / 32 * bytes == e * (n / 32 * bytes) <==> e * (n % 32) < 32
  {
    var q, r := n / 32, n % 32;
    Multiple(e, q, r, 32, bytes);
    var eq, er := e * q, e * r;
    assert e * n == 32 * eq + er;
    assert e * n / 32 == eq + er / 32;
    Grow(eq, er / 32, bytes);
  }

  lemma By256(e: nat, n: nat, bytes: nat)
    requires bytes > 0
    ensures e * n / 256 * bytes == e * (n / 256 * bytes) <==> e * (n % 256) < 256
  {
    var q, r := n / 256, n % 256;
    Multiple(e, q, r, 256, bytes);
    var eq, er := e * q, e * r;
    assert e * n == 256 * eq + er;
    assert e * n / 256 == eq + er / 256;
    Grow(eq, er / 256, bytes);
  }

  lemma Nibbles(f: nat, e: nat, n: nat)
    requires 4 <= f <= 6
    ensures Partitions(f, e, n) <==> e * (n % 2) < 2
  {
    Multiple(e, n / 2, n % 2, 2, 1);
    if n % 2 == 1 { assert e * (n / 2 + 1) == e * (n / 2) + e; }
  }

  lemma Singles(f: nat, e: nat, n: nat)
    requires f <= 3
    ensures Partitions(f, e, n)
  {
    Multiple(e, n, 0, 1, BlockBytes(f));
  }

  lemma BytesOf(f: nat, n: nat)
    requires 7 <= f <= 17
    ensures Block(f) == 32 ==> PackedBytes(f, n) == n / 32 * BlockBytes(f)
    ensures Block(f) == 256 ==> PackedBytes(f, n) == n / 256 * BlockBytes(f)
    ensures BlockBytes(f) > 0 && (Block(f) == 32 || Block(f) == 256)
  {}

  /**
   Cutting a packed bank into equal pieces cuts its bytes exactly when the pieces' remainders
   together stay below one block; in particular whenever the block divides the piece.
   */
  lemma SlicesPartition(f: nat, e: nat, n: nat)
    requires f <= 17
    ensures Partitions(f, e, n) <==> e * (n % Block(f)) < Block(f)
    ensures n % Block(f) == 0 ==> Partitions(f, e, n)
  {
    if f >= 7 {
      BytesOf(f, n);
      BytesOf(f, e * n);
    }
    if f <= 3 {
      Singles(f, e, n);
      assert e * (n % 1) == 0;
    } else if f <= 6 {
      Nibbles(f, e, n);
    } else if Block(f) == 32 {
      By32(e, n, BlockBytes(f));
    } else {
      By256(e, n, BlockBytes(f));
    }
    if n % Block(f) == 0 { assert e * (n % Block(f)) == 0; }
  }
}
