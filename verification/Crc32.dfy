/** The CRC-32 of crc32.cc: the table-driven update, the shift register it
    implements (section 8 of RFC 1952), and which corruptions the checksum detects. */
module Crc32 {
  import opened Bitwise
  import opened Bytes

  /** A uint32_t. */
  type Word = w: nat | w < 0x1_0000_0000

  /** The CRC-32 polynomial in reversed form. */
  const POLYNOMIAL: Word := 0xEDB8_8320

  const ALL_ONES: Word := 0xFFFF_FFFF

  lemma PowerFacts()
    ensures Pow2(8) == 256
    ensures Pow2(31) == 0x8000_0000
    ensures Pow2(32) == 0x1_0000_0000
  {
    Four(0, 1);
    Four(4, 0x10);
    ThirtyTwo();
    assert Pow2(32) == 2 * Pow2(31);
  }

  function XorWord(a: Word, b: Word): (r: Word)
    ensures r == Xor(a, b)
  {
    PowerFacts();
    XorBound(a, b, 32);
    Xor(a, b)
  }

  /** The polynomial x^32 + x^26 + x^23 + x^22 + x^16 + x^12 + x^11 + x^10 + x^8 + x^7 + x^5 + x^4 + x^2 + x + 1,
      the coefficient of x^n at place 31 - n. */
  lemma PolynomialIs()
    ensures POLYNOMIAL == Pow2(31 - 26) + Pow2(31 - 23) + Pow2(31 - 22) + Pow2(31 - 16) + Pow2(31 - 12) + Pow2(31 - 11) + Pow2(31 - 10)
                          + Pow2(31 - 8) + Pow2(31 - 7) + Pow2(31 - 5) + Pow2(31 - 4) + Pow2(31 - 2) + Pow2(31 - 1) + Pow2(31 - 0)
  {
    Four(0, 1);
    Four(4, 0x10);
    Four(8, 0x100);
    Four(12, 0x1000);
    Four(16, 0x1_0000);
    Four(20, 0x10_0000);
    Four(24, 0x100_0000);
    Four(28, 0x1000_0000);
  }

  // ----- The reference: a shift register fed one bit at a time -----

  function Shift(c: Word): Word {
    if c % 2 == 1 then XorWord(POLYNOMIAL, c / 2) else c / 2
  }

  function Bit(bit: bool): Word {
    if bit then 1 else 0
  }

  function FeedBit(c: Word, bit: bool): Word {
    Shift(XorWord(c, Bit(bit)))
  }

  function Feed(c: Word, bits: seq<bool>): Word
    decreases bits
  {
    if bits == [] then c else Feed(FeedBit(c, bits[0]), bits[1..])
  }

  /** The low n bits of a word in transmission order, least significant first. */
  function WordBits(w: nat, n: nat): (bits: seq<bool>)
    ensures |bits| == n
    decreases n, w
  {
    if n == 0 then [] else [w % 2 == 1] + WordBits(w / 2, n - 1)
  }

  function MessageBits(m: seq<Byte>): (bits: seq<bool>)
    ensures |bits| == 8 * |m|
  {
    if m == [] then [] else WordBits(m[0], 8) + MessageBits(m[1..])
  }

  /** The checksum a bit-serial implementation computes, continuing from `start`. */
  function Checksum(start: Word, m: seq<Byte>): Word {
    XorWord(Feed(XorWord(start, ALL_ONES), MessageBits(m)), ALL_ONES)
  }

  lemma {:induction false} FeedConcat(c: Word, a: seq<bool>, b: seq<bool>)
    ensures Feed(c, a + b) == Feed(Feed(c, a), b)
    decreases a
  {
    if a == [] {
      assert a + b == b;
    } else {
      assert (a + b)[1..] == a[1..] + b;
      FeedConcat(FeedBit(c, a[0]), a[1..], b);
    }
  }

  lemma {:induction false} MessageBitsConcat(a: seq<Byte>, b: seq<Byte>)
    ensures MessageBits(a + b) == MessageBits(a) + MessageBits(b)
  {
    if a == [] {
      assert a + b == b;
    } else {
      assert (a + b)[1..] == a[1..] + b;
      MessageBitsConcat(a[1..], b);
    }
  }

  // ----- Shifting several places at once -----

  function Shifts(c: Word, n: nat): Word
    decreases n, c
  {
    if n == 0 then c else Shifts(Shift(c), n - 1)
  }

  lemma ShiftLinear(c: Word, mask: Word)
    requires mask % 2 == 0
    ensures Shift(XorWord(c, mask)) == Xor(Shift(c), mask / 2)
  {
    XorHalf(c, mask);
    XorAssociates(POLYNOMIAL, c / 2, mask / 2);
  }

  /** A mask above the low n bits passes through n shifts by just moving down. */
  lemma {:induction false} ShiftsLinear(c: Word, high: nat, n: nat)
    requires high * Pow2(n) < 0x1_0000_0000
    ensures high < 0x1_0000_0000
    ensures Shifts(XorWord(c, high * Pow2(n)), n) == Xor(Shifts(c, n), high)
    decreases n
  {
    if n == 0 {
    } else {
      var mask := high * Pow2(n);
      var half := high * Pow2(n - 1);
      assert mask == 2 * half;
      ShiftLinear(c, mask);
      ShiftsLinear(Shift(c), high, n - 1);
    }
  }

  /** Over eight shifts only the low byte of the register decides what is mixed in. */
  lemma EightShifts(c: Word)
    ensures Shifts(c, 8) == Xor(Shifts(c % 256, 8), c / 256)
  {
    PowerFacts();
    XorDisjoint(c % 256, c / 256, 8);
    ShiftsLinear(c % 256, c / 256, 8);
  }

  /** Feeding the lowest bit of a word leaves the rest of the word waiting one place
      lower in the register. */
  lemma FeedLowBit(c: Word, w: Word)
    ensures Shift(XorWord(c, w)) == Xor(FeedBit(c, w % 2 == 1), w / 2)
  {
    var low, high := w % 2, w / 2 * 2;
    assert Pow2(1) == 2;
    XorDisjoint(low, w / 2, 1);
    XorAssociates(c, low, high);
    ShiftLinear(XorWord(c, low), high);
  }

  /** Feeding an n-bit word bit by bit is mixing it in whole and shifting n times. */
  lemma {:induction false} FeedWord(c: Word, w: Word, n: nat)
    requires w < Pow2(n)
    ensures Feed(c, WordBits(w, n)) == Shifts(XorWord(c, w), n)
    decreases n
  {
    if n == 0 {
      XorZero(c);
    } else {
      FeedLowBit(c, w);
      FeedWord(FeedBit(c, w % 2 == 1), w / 2, n - 1);
      assert WordBits(w, n)[1..] == WordBits(w / 2, n - 1);
    }
  }

  // ----- The table-driven update -----

  ghost predicate IsTable(t: seq<Word>) {
    |t| == 256 && forall i: Byte :: t[i] == Shifts(i, 8)
  }

  lemma XorByte(low: Byte, high: nat)
    ensures Xor(low, high * 256) == low + high * 256
  {
    PowerFacts();
    XorDisjoint(low, high, 8);
  }

  lemma XorBytes(a: Byte, b: Byte)
    ensures Xor(a, b) < 256
  {
    PowerFacts();
    XorBound(a, b, 8);
  }

  lemma XorKeepsHighBytes(c: Word, u: Byte)
    ensures Xor(c, u) / 256 == c / 256
  {
    var low, high := c % 256, c / 256;
    XorBytes(u, low);
    calc {
      Xor(c, u);
      { XorCommutes(c, u); XorByte(low, high); }
      Xor(u, Xor(low, high * 256));
      { XorAssociates(u, low, high * 256); }
      Xor(Xor(u, low), high * 256);
      { XorByte(Xor(u, low), high); }
      Xor(u, low) + high * 256;
    }
  }

  /** One table look-up advances the register by one message byte. */
  lemma TableStep(t: seq<Word>, c: Word, u: Byte)
    requires IsTable(t)
    ensures Xor(t[XorWord(c, u) % 256], c / 256) == Feed(c, WordBits(u, 8))
  {
    EightShifts(XorWord(c, u));
    XorKeepsHighBytes(c, u);
    PowerFacts();
    FeedWord(c, u, 8);
  }

  method LoadCrc32Table() returns (table: array<Word>)
    ensures fresh(table) && IsTable(table[..])
  {
    table := new Word[256];
    var i: nat := 0;
    while i < 256
      invariant i <= 256
      invariant forall k: nat :: k < i ==> table[k] == Shifts(k, 8)
    {
      var c: Word := i;
      var j := 0;
      while j < 8
        invariant 0 <= j <= 8 && Shifts(c, 8 - j) == Shifts(i, 8)
        invariant forall k: nat :: k < i ==> table[k] == Shifts(k, 8)
      {
        if c % 2 == 1 {
          c := XorWord(POLYNOMIAL, c / 2);
        } else {
          c := c / 2;
        }
        j := j + 1;
      }
      table[i] := c;
      i := i + 1;
    }
  }

  method UpdateCrc32(start: Word, buf: seq<Byte>) returns (crc: Word)
    ensures crc == Checksum(start, buf)
  {
    var table := LoadCrc32Table();
    ghost var t := table[..];
    var c := XorWord(start, ALL_ONES);
    var i := 0;
    while i < |buf|
      invariant 0 <= i <= |buf|
      invariant table[..] == t && IsTable(t)
      invariant c == Feed(XorWord(start, ALL_ONES), MessageBits(buf[..i]))
    {
      TableStep(t, c, buf[i]);
      NextByte(XorWord(start, ALL_ONES), buf, i);
      c := XorWord(table[XorWord(c, buf[i]) % 256], c / 256);
      i := i + 1;
    }
    assert buf[..i] == buf;
    crc := XorWord(c, ALL_ONES);
  }

  lemma NextByte(c: Word, m: seq<Byte>, i: nat)
    requires i < |m|
    ensures Feed(c, MessageBits(m[..i + 1])) == Feed(Feed(c, MessageBits(m[..i])), WordBits(m[i], 8))
  {
    assert m[..i + 1] == m[..i] + [m[i]];
    MessageBitsConcat(m[..i], [m[i]]);
    assert MessageBits([m[i]]) == WordBits(m[i], 8) + [] == WordBits(m[i], 8);
    FeedConcat(c, MessageBits(m[..i]), WordBits(m[i], 8));
  }

  /** A checksum can be continued: the second update starts from the first's result. */
  lemma ChecksumComposes(start: Word, a: seq<Byte>, b: seq<Byte>)
    ensures Checksum(start, a + b) == Checksum(Checksum(start, a), b)
  {
    var c := XorWord(start, ALL_ONES);
    MessageBitsConcat(a, b);
    FeedConcat(c, MessageBits(a), MessageBits(b));
    XorTwice(Feed(c, MessageBits(a)), ALL_ONES);
  }

  // ----- What the checksum detects -----

  lemma ShiftDifference(p: Word, q: Word)
    ensures Xor(Shift(p), Shift(q)) == Shift(XorWord(p, q))
  {
    var a, b, g := p / 2, q / 2, POLYNOMIAL;
    XorHalf(p, q);
    XorAssociates(g, a, b);
    XorCommutes(a, g);
    if p % 2 == 1 && q % 2 == 1 {
      XorAssociates(Xor(g, a), g, b);
      XorTwice(a, g);
    } else if q % 2 == 1 {
      XorAssociates(a, g, b);
    }
  }

  /** The difference of two registers evolves like a register fed the difference of
      the bits. */
  lemma FeedDifference(p: Word, x: bool, q: Word, y: bool)
    ensures Xor(FeedBit(p, x), FeedBit(q, y)) == FeedBit(XorWord(p, q), x != y)
  {
    var i, j := Bit(x), Bit(y);
    ShiftDifference(XorWord(p, i), XorWord(q, j));
    XorAssociates(Xor(p, i), q, j);
    XorAssociates(p, i, q);
    XorCommutes(i, q);
    XorAssociates(p, q, i);
    XorAssociates(Xor(p, q), i, j);
    assert Xor(i, j) == Bit(x != y) by { XorSelf(i); XorZero(i); XorCommutes(i, j); XorZero(j); }
  }

  /** Mixing in the polynomial sets the top bit. */
  lemma PolynomialTopBit(y: nat)
    requires y < 0x8000_0000
    ensures Xor(POLYNOMIAL, y) >= 0x8000_0000
  {
    PowerFacts();
    var g := POLYNOMIAL - 0x8000_0000;
    XorBound(y, g, 31);
    XorDisjoint(g, 1, 31);
    XorDisjoint(Xor(y, g), 1, 31);
    XorAssociates(y, g, 0x8000_0000);
    XorCommutes(y, POLYNOMIAL);
  }

  lemma {:induction false} FeedInjective(p: Word, q: Word, bits: seq<bool>)
    requires p != q
    ensures Feed(p, bits) != Feed(q, bits)
    decreases bits
  {
    if bits != [] {
      var d := XorWord(p, q);
      FeedDifference(p, bits[0], q, bits[0]);
      XorNonzero(p, q);
      XorZero(d);
      PolynomialTopBit(d / 2);
      XorNonzero(FeedBit(p, bits[0]), FeedBit(q, bits[0]));
      FeedInjective(FeedBit(p, bits[0]), FeedBit(q, bits[0]), bits[1..]);
    }
  }

  /** Feeding a bit lowers a difference by at most one place. */
  lemma DifferenceSinks(p: Word, x: bool, q: Word, y: bool, n: nat)
    requires n < 31 && Xor(p, q) >= Pow2(n + 1)
    ensures Xor(FeedBit(p, x), FeedBit(q, y)) >= Pow2(n)
  {
    var d := XorWord(p, q);
    var e := XorWord(d, Bit(x != y));
    FeedDifference(p, x, q, y);
    XorHalf(d, Bit(x != y));
    XorZero(d / 2);
    PolynomialTopBit(e / 2);
    PowerFacts();
    Pow2Monotone(n, 31);
  }

  /** Registers that differ at bit n or above cannot be brought together by n bits. */
  lemma {:induction false} NotMergedSoon(p: Word, x: seq<bool>, q: Word, y: seq<bool>)
    requires |x| == |y| <= 31
    requires Xor(p, q) >= Pow2(|x|)
    ensures Feed(p, x) != Feed(q, y)
    decreases x
  {
    if x == [] {
      XorNonzero(p, q);
    } else {
      DifferenceSinks(p, x[0], q, y[0], |x| - 1);
      NotMergedSoon(FeedBit(p, x[0]), x[1..], FeedBit(q, y[0]), y[1..]);
    }
  }

  /** The first differing bit sets the top bit of the difference. */
  lemma FirstDifference(c: Word, x: bool, y: bool, n: nat)
    requires x != y && n <= 31
    ensures Xor(FeedBit(c, x), FeedBit(c, y)) >= Pow2(n)
  {
    FeedDifference(c, x, c, y);
    XorSelf(c);
    assert FeedBit(0, true) == POLYNOMIAL by { assert Xor(0, 1) == 1; XorZero(POLYNOMIAL); }
    PowerFacts();
    Pow2Monotone(n, 31);
  }

  /** Two different windows of at most 32 bits leave different registers. */
  lemma {:induction false} WindowDistinguished(c: Word, x: seq<bool>, y: seq<bool>)
    requires |x| == |y| <= 32 && x != y
    ensures Feed(c, x) != Feed(c, y)
    decreases x
  {
    if x[0] == y[0] {
      assert x == [x[0]] + x[1..] && y == [y[0]] + y[1..];
      WindowDistinguished(FeedBit(c, x[0]), x[1..], y[1..]);
    } else {
      FirstDifference(c, x[0], y[0], |x| - 1);
      NotMergedSoon(FeedBit(c, x[0]), x[1..], FeedBit(c, y[0]), y[1..]);
    }
  }

  /** Two messages of equal length agree outside the 32 bits that start at bit k. */
  ghost predicate DifferOnlyInBurst(a: seq<Byte>, b: seq<Byte>, k: nat) {
    |a| == |b| &&
    forall i :: 0 <= i < 8 * |a| && !(k <= i < k + 32) ==> MessageBits(a)[i] == MessageBits(b)[i]
  }

  /** Every error burst of at most 32 bits changes the checksum, wherever it starts and
      whatever the running value was. */
  lemma BurstDetected(start: Word, a: seq<Byte>, b: seq<Byte>, k: nat)
    requires DifferOnlyInBurst(a, b, k) && a != b
    ensures Checksum(start, a) != Checksum(start, b)
  {
    var c := XorWord(start, ALL_ONES);
    var x, y := MessageBits(a), MessageBits(b);
    MessageBitsInjective(a, b);
    var lo := if k < |x| then k else |x|;
    var hi := if lo + 32 < |x| then lo + 32 else |x|;
    assert x == x[..lo] + x[lo..hi] + x[hi..];
    assert y == y[..lo] + y[lo..hi] + y[hi..];
    assert x[..lo] == y[..lo];
    assert x[hi..] == y[hi..];
    FeedConcat(c, x[..lo] + x[lo..hi], x[hi..]);
    FeedConcat(c, x[..lo], x[lo..hi]);
    FeedConcat(c, y[..lo] + y[lo..hi], y[hi..]);
    FeedConcat(c, y[..lo], y[lo..hi]);
    var s := Feed(c, x[..lo]);
    WindowDistinguished(s, x[lo..hi], y[lo..hi]);
    FeedInjective(Feed(s, x[lo..hi]), Feed(s, y[lo..hi]), x[hi..]);
    XorTwice(Feed(c, x), ALL_ONES);
    XorTwice(Feed(c, y), ALL_ONES);
  }

  lemma {:induction false} WordBitsInjective(v: nat, w: nat, n: nat)
    requires v < Pow2(n) && w < Pow2(n)
    requires WordBits(v, n) == WordBits(w, n)
    ensures v == w
    decreases n
  {
    if n > 0 {
      assert WordBits(v, n)[0] == WordBits(w, n)[0];
      assert WordBits(v, n)[1..] == WordBits(v / 2, n - 1);
      assert WordBits(w, n)[1..] == WordBits(w / 2, n - 1);
      WordBitsInjective(v / 2, w / 2, n - 1);
    }
  }

  lemma {:induction false} MessageBitsInjective(a: seq<Byte>, b: seq<Byte>)
    requires |a| == |b|
    ensures MessageBits(a) == MessageBits(b) ==> a == b
  {
    if a != [] && MessageBits(a) == MessageBits(b) {
      PowerFacts();
      assert WordBits(a[0], 8) == MessageBits(a)[..8];
      assert WordBits(b[0], 8) == MessageBits(b)[..8];
      assert MessageBits(a)[8..] == MessageBits(a[1..]);
      assert MessageBits(b)[8..] == MessageBits(b[1..]);
      WordBitsInjective(a[0], b[0], 8);
      MessageBitsInjective(a[1..], b[1..]);
      assert a == [a[0]] + a[1..] && b == [b[0]] + b[1..];
    }
  }

  /** In particular, changes confined to four consecutive bytes are always detected. */
  lemma FourBytesDetected(start: Word, pre: seq<Byte>, x: seq<Byte>, y: seq<Byte>, post: seq<Byte>)
    requires |x| == |y| <= 4 && x != y
    ensures Checksum(start, pre + x + post) != Checksum(start, pre + y + post)
  {
    var a, b := pre + x + post, pre + y + post;
    MessageBitsConcat(pre + x, post);
    MessageBitsConcat(pre, x);
    MessageBitsConcat(pre + y, post);
    MessageBitsConcat(pre, y);
    assert a[|pre|..|pre| + |x|] == x && b[|pre|..|pre| + |y|] == y;
    BurstDetected(start, a, b, 8 * |pre|);
  }
}
