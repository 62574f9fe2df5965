/** The packed Morse symbol table and the decoding of one entry.

    Every entry is a nine-bit number (written here in decimal; the source
    writes it in octal as `0npp`): bits 6 to 8 hold the element count, 0
    standing for eight, and bits 0 to 5 a pattern whose bit `k`, least
    significant first, is 1 for a dash and 0 for a dot. */
module MorseTable {

  /** The 128 entries in rows of eight: row `r` holds the entries for
      character codes `8 * r` to `8 * r + 7`. A zero entry marks a character
      the table has no pattern for. */
  const Table: seq<seq<nat>> := [
    /* 0x00 */ [0, 0, 0, 0, 0, 0, 0, 0],
    /* 0x08 */ [0, 0, 266, 0, 0, 266, 0, 0],
    /* 0x10 */ [0, 0, 0, 0, 0, 0, 0, 0],
    /* 0x18 */ [0, 0, 0, 0, 0, 0, 0, 0],
    /* 0x20 */ [0, 437, 402, 0, 0, 0, 322, 414],
    /* 0x28 */ [333, 0, 0, 330, 435, 0, 426, 329],
    /* 0x30 */ [351, 350, 348, 344, 336, 320, 321, 323],
    /* 0x38 */ [327, 335, 391, 405, 0, 337, 0, 396],
    /* 0x40 */ [0, 130, 257, 261, 193, 64, 260, 195],
    /* 0x48 */ [256, 128, 270, 197, 258, 131, 129, 199],
    /* 0x50 */ [262, 267, 194, 192, 65, 196, 264, 198],
    /* 0x58 */ [265, 269, 259, 0, 0, 0, 0, 0],
    /* 0x60 */ [0, 130, 257, 261, 193, 64, 260, 195],
    /* 0x68 */ [256, 128, 270, 197, 258, 131, 129, 199],
    /* 0x70 */ [262, 267, 194, 192, 65, 196, 264, 198],
    /* 0x78 */ [265, 269, 259, 0, 0, 0, 0, 0]
  ]

  lemma TableShape()
    ensures |Table| == 16 && forall r :: 0 <= r < 16 ==> |Table[r]| == 8
  {
  }

  /** Every entry fits the nine bits of the packing: three of count, six of pattern. */
  lemma TableBounded()
    ensures forall r, c :: 0 <= r < 16 && 0 <= c < 8 ==> Table[r][c] < 512
  {
    TableShape();
  }

  /** The entry used for character code `ch`: the source indexes with `ch & 0x7f`. */
  function Entry(ch: nat): (e: nat)
    ensures e < 512
  {
    TableShape();
    TableBounded();
    Table[(ch % 128) / 8][ch % 8]
  }

  /** Codes 128 apart share an entry: only the low seven bits select it. */
  lemma EntryMasked(ch: nat)
    ensures Entry(ch + 128) == Entry(ch)
  {
  }

  /** `(e >> 6) & 07`, where a zero count means eight elements. */
  function ElementCount(e: nat): (n: nat)
    ensures 1 <= n <= 8
    ensures n % 8 == (e / 64) % 8
  {
    var n := (e / 64) % 8;
    if n == 0 then 8 else n
  }

  /** `e & 077`: the dot/dash pattern, one bit per element. */
  function PatternBits(e: nat): (bits: nat)
    ensures bits < 64
  {
    e % 64
  }

  function Pow2(k: nat): (p: nat)
    ensures p >= 1
  {
    if k == 0 then 1 else 2 * Pow2(k - 1)
  }

  /** Bit `k` of `x`, counting from the least significant bit. */
  predicate BitSet(x: nat, k: nat)
  {
    (x / Pow2(k)) % 2 == 1
  }

  lemma MulMono(d: nat, x: nat, y: nat)
    requires x <= y
    ensures d * x <= d * y
  {
    assert d * y == d * x + d * (y - x);
  }

  /** Division by `d` is determined by any quotient/remainder pair. */
  lemma DivUnique(a: nat, d: nat, q: nat, r: nat)
    requires d >= 1 && r < d && a == d * q + r
    ensures a / d == q
  {
    var q' := a / d;
    var r' := a % d;
    assert a == d * q' + r';
    if q' < q {
      MulMono(d, q' + 1, q);
      assert false;
    } else if q < q' {
      MulMono(d, q + 1, q');
      assert false;
    }
  }

  lemma HalfDiv(x: nat, p: nat)
    requires p >= 1
    ensures (x / 2) / p == x / (2 * p)
  {
    var q := x / (2 * p);
    var r := x % (2 * p);
    assert x == (2 * p) * q + r && r < 2 * p;
    var h := r / 2;
    assert r == 2 * h + r % 2;
    assert (2 * p) * q == 2 * (p * q);
    assert x == 2 * (p * q + h) + r % 2;
    DivUnique(x, 2, p * q + h, r % 2);
    assert h < p;
    DivUnique(x / 2, p, q, h);
  }

  /** Shifting right by one moves bit `k + 1` to position `k`. */
  lemma ShiftBit(x: nat)
    ensures forall k: nat {:trigger BitSet(x / 2, k)} :: BitSet(x / 2, k) == BitSet(x, k + 1)
  {
    forall k: nat
      ensures BitSet(x / 2, k) == BitSet(x, k + 1)
    {
      HalfDiv(x, Pow2(k));
    }
  }
}
