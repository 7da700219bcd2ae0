/** Prefix arithmetic of ip_address.cc, on addresses in host byte order. */
module IpPrefix {
  import opened Bitwise

  datatype IpAddress = Unspecified | V4(word: nat) | V6(words: seq<nat>) {
    predicate Valid() {
      match this
      case Unspecified => true
      case V4(word) => word < Pow2(32)
      case V6(words) => |words| == 4 && forall i :: 0 <= i < 4 ==> words[i] < Pow2(32)
    }
  }

  // ----- Addresses as bits, most significant first -----

  function WordBits(w: nat, n: nat): (b: seq<bool>)
    ensures |b| == n
  {
    if n == 0 then [] else WordBits(w / 2, n - 1) + [w % 2 == 1]
  }

  function AllBits(words: seq<nat>): (b: seq<bool>)
    ensures |b| == 32 * |words|
  {
    if words == [] then [] else AllBits(words[..|words| - 1]) + WordBits(words[|words| - 1], 32)
  }

  function Bits(ip: IpAddress): seq<bool> {
    match ip
    case Unspecified => []
    case V4(word) => WordBits(word, 32)
    case V6(words) => AllBits(words)
  }

  function Zeros(n: nat): (b: seq<bool>)
    ensures |b| == n && forall i :: 0 <= i < n ==> !b[i]
  {
    seq(n, _ => false)
  }

  function Ones(n: nat): (b: seq<bool>)
    ensures |b| == n && forall i :: 0 <= i < n ==> b[i]
  {
    seq(n, _ => true)
  }

  /** The first n bits, and nothing behind them. */
  function Prefix(b: seq<bool>, n: nat): (r: seq<bool>)
    ensures |r| == |b| && forall i :: 0 <= i < |b| ==> r[i] == (i < n && b[i])
  {
    if n >= |b| then b else b[..n] + Zeros(|b| - n)
  }

  lemma PrefixOfPrefix(b: seq<bool>, m: nat, n: nat)
    ensures Prefix(Prefix(b, m), n) == Prefix(b, if m < n then m else n)
  {
  }

  // ----- Masks -----

  /** A word with its low s bits cleared. */
  function Cleared(w: nat, s: nat): nat {
    if s == 0 then w else 2 * Cleared(w / 2, s - 1)
  }

  lemma {:induction false} AndMask(w: nat, n: nat, s: nat)
    requires s <= n && w < Pow2(n)
    ensures And(w, Shl(Pow2(n - s) - 1, s)) == Cleared(w, s)
  {
    if s == 0 {
      AndLow(w, n);
      QuotientRemainder(w, Pow2(n), 0, w);
    } else {
      AndMask(w / 2, n - 1, s - 1);
      AndDouble(w, Shl(Pow2(n - s) - 1, s - 1));
    }
  }

  lemma {:induction false} ClearedAtMost(w: nat, s: nat)
    ensures Cleared(w, s) <= w
  {
    if s > 0 {
      ClearedAtMost(w / 2, s - 1);
    }
  }

  lemma AndDouble(w: nat, m: nat)
    ensures And(w, 2 * m) == 2 * And(w / 2, m)
  {
    if w == 0 || m == 0 {
      assert And(w / 2, m) == 0;
    }
  }

  lemma {:induction false} ClearedBits(w: nat, n: nat, s: nat)
    requires s <= n
    ensures WordBits(Cleared(w, s), n) == Prefix(WordBits(w, n), n - s)
  {
    if s > 0 {
      ClearedBits(w / 2, n - 1, s - 1);
    }
  }

  /** 0xFFFFFFFF shifted left in 32 bits. */
  function Mask(s: nat): nat {
    Shl(0xFFFF_FFFF, s) % 0x1_0000_0000
  }

  lemma MaskKeeps(w: nat, s: nat)
    requires s <= 32 && w < Pow2(32)
    ensures And(w, Mask(s)) <= w && WordBits(And(w, Mask(s)), 32) == Prefix(WordBits(w, 32), 32 - s)
  {
    ThirtyTwo();
    ShlWraps(0xFFFF_FFFF, 32 - s, s);
    OnesRemainder(32, 32 - s);
    AndMask(w, 32, s);
    ClearedBits(w, 32, s);
    ClearedAtMost(w, s);
  }

  // ----- TruncateIP -----

  lemma PrefixOfConcat(a: seq<bool>, b: seq<bool>, n: nat)
    ensures Prefix(a + b, n) == Prefix(a, n) + Prefix(b, Beyond(n, |a|))
  {
  }

  /** How much of a length is left after the first k bits. */
  function Beyond(n: nat, k: nat): nat {
    if n < k then 0 else n - k
  }

  ghost predicate WordTruncated(w': nat, w: nat, n: nat) {
    w' < Pow2(32) && WordBits(w', 32) == Prefix(WordBits(w, 32), n)
  }

  lemma WordsTruncated(words: seq<nat>, words': seq<nat>, n: nat, i: nat)
    requires i <= |words| == |words'|
    requires forall j :: 0 <= j < i ==> WordTruncated(words'[j], words[j], Beyond(n, 32 * j))
    ensures AllBits(words'[..i]) == Prefix(AllBits(words[..i]), n)
  {
    if i > 0 {
      WordsTruncated(words, words', n, i - 1);
      assert words[..i][..i - 1] == words[..i - 1] && words'[..i][..i - 1] == words'[..i - 1];
      assert WordTruncated(words'[i - 1], words[i - 1], Beyond(n, 32 * (i - 1)));
      PrefixOfConcat(AllBits(words[..i - 1]), WordBits(words[i - 1], 32), n);
    }
  }

  /** Exactly the first bits of the address; a negative length gives no address. */
  method TruncateIP(ip: IpAddress, length: int) returns (r: IpAddress)
    requires ip.Valid()
    ensures r.Valid() && (length < 0 ==> r == Unspecified)
    ensures length >= 0 ==> (r.V4? <==> ip.V4?) && (r.V6? <==> ip.V6?) && Bits(r) == Prefix(Bits(ip), length)
  {
    if length < 0 {
      return Unspecified;
    }
    match ip
    case V4(word) =>
      if length > 31 {
        return ip;
      }
      var word' := TruncateV4(word, length);
      return V4(word');
    case V6(words) =>
      if length > 127 {
        return ip;
      }
      if length == 0 {
        NoWords(words);
        return V6([0, 0, 0, 0]);
      }
      var words' := TruncateWords(words, length);
      return V6(words');
    case Unspecified => return Unspecified;
  }

  method TruncateV4(word: nat, length: nat) returns (word': nat)
    requires word < Pow2(32) && length <= 31
    ensures word' < Pow2(32) && WordBits(word', 32) == Prefix(WordBits(word, 32), length)
  {
    if length == 0 {
      ClearedAway(word);
      return 0;
    }
    MaskKeeps(word, 32 - length);
    return And(word, Mask(32 - length));
  }

  method TruncateWords(words: seq<nat>, length: nat) returns (words': seq<nat>)
    requires V6(words).Valid() && length <= 127
    ensures V6(words').Valid() && AllBits(words') == Prefix(AllBits(words), length)
  {
    words' := words;
    var i := 0;
    while i < 4
      invariant 0 <= i <= 4 == |words'|
      invariant forall j :: i <= j < 4 ==> words'[j] == words[j]
      invariant forall j :: 0 <= j < i ==> WordTruncated(words'[j], words[j], Beyond(length, 32 * j))
    {
      var w := TruncateWord(words'[i], i, length);
      words' := words'[i := w];
      i := i + 1;
    }
    WordsTruncated(words, words', length, 4);
    assert words[..4] == words && words'[..4] == words';
  }

  /** The word in which the prefix ends is masked, those before it are kept and those behind
      it cleared. */
  method TruncateWord(w: nat, i: nat, length: nat) returns (w': nat)
    requires w < Pow2(32) && length <= 127
    ensures WordTruncated(w', w, Beyond(length, 32 * i))
  {
    var position := length / 32;
    var innerLength := 32 - (length - position * 32);
    if i == position {
      MaskKeeps(w, innerLength);
      return And(w, Mask(innerLength));
    } else if i > position {
      ClearedAway(w);
      return 0;
    }
    return w;
  }

  lemma NoWords(words: seq<nat>)
    requires |words| == 4
    ensures AllBits([0, 0, 0, 0]) == Prefix(AllBits(words), 0)
  {
    var zeros := [0, 0, 0, 0];
    forall j | 0 <= j < 4
      ensures WordTruncated(zeros[j], words[j], Beyond(0, 32 * j))
    {
      ClearedAway(words[j]);
    }
    WordsTruncated(words, zeros, 0, 4);
    assert words[..4] == words && zeros[..4] == zeros;
  }

  lemma ClearedAway(w: nat)
    ensures WordBits(0, 32) == Prefix(WordBits(w, 32), 0)
  {
    ZeroBits(32);
  }

  lemma {:induction false} ZeroBits(n: nat)
    ensures WordBits(0, n) == Zeros(n)
  {
    if n > 0 {
      ZeroBits(n - 1);
    }
  }

  // ----- CountIPMaskBits -----

  function TrailingZeros(w: nat): nat
    requires w > 0
  {
    if w % 2 == 1 then 0 else 1 + TrailingZeros(w / 2)
  }

  lemma {:induction false} AndComplement(x: nat, n: nat)
    requires x < Pow2(n)
    ensures And(x, Pow2(n) - 1 - x) == 0
  {
    if n > 0 {
      AndComplement(x / 2, n - 1);
      assert (Pow2(n) - 1 - x) / 2 == Pow2(n - 1) - 1 - x / 2;
    }
  }

  /** w & (~w + 1) is the lowest set bit. */
  lemma {:induction false} Isolated(w: nat, n: nat)
    requires 0 < w < Pow2(n)
    ensures And(w, Pow2(n) - w) == Pow2(TrailingZeros(w)) && TrailingZeros(w) < n
  {
    if w % 2 == 0 {
      Isolated(w / 2, n - 1);
      AndDouble(w, Pow2(n - 1) - w / 2);
      assert Pow2(n) - w == 2 * (Pow2(n - 1) - w / 2);
    } else {
      AndComplement(w / 2, n - 1);
      assert (Pow2(n) - w) / 2 == Pow2(n - 1) - 1 - w / 2;
    }
  }

  predicate BitAt(m: nat, k: nat) {
    if k == 0 then m % 2 == 1 else BitAt(m / 2, k - 1)
  }

  lemma {:induction false} AndPow2(m: nat, k: nat)
    ensures And(Pow2(k), m) != 0 <==> BitAt(m, k)
  {
    if k > 0 {
      AndPow2(m / 2, k - 1);
      if m == 0 {
        ZeroBitAt(k);
      }
    } else if m > 0 {
      assert And(0, m / 2) == 0;
    }
  }

  lemma {:induction false} ZeroBitAt(k: nat)
    ensures !BitAt(0, k)
  {
    if k > 0 {
      ZeroBitAt(k - 1);
    }
  }

  /** A mask of two equal halves. */
  lemma {:induction false} BitAtShl(high: nat, low: nat, n: nat, k: nat)
    requires low < Pow2(n)
    ensures BitAt(Shl(high, n) + low, k) == if k < n then BitAt(low, k) else BitAt(high, k - n)
  {
    if n > 0 && k > 0 {
      BitAtShl(high, low / 2, n - 1, k - 1);
    }
  }

  /** Runs of p set bits, p apart, from bit 0. */
  ghost predicate Pattern(m: nat, n: nat, p: nat)
    requires p > 0
  {
    forall k: nat :: k < n ==> (BitAt(m, k) <==> k % (2 * p) < p)
  }

  lemma {:induction false} OnesAt(p: nat, k: nat)
    ensures BitAt(Pow2(p) - 1, k) <==> k < p
  {
    if p == 0 {
      ZeroBitAt(k);
    } else if k > 0 {
      OnesAt(p - 1, k - 1);
    }
  }

  lemma PatternOnes(p: nat)
    requires p > 0
    ensures Pattern(Pow2(p) - 1, 2 * p, p)
  {
    forall k: nat | k < 2 * p
      ensures BitAt(Pow2(p) - 1, k) <==> k % (2 * p) < p
    {
      OnesAt(p, k);
      QuotientRemainder(k, 2 * p, 0, k);
    }
  }

  lemma PatternDoubled(m: nat, n: nat, p: nat, times: nat)
    requires p > 0 && Pattern(m, n, p) && m < Pow2(n) && n == times * (2 * p)
    ensures Pattern(Shl(m, n) + m, 2 * n, p)
  {
    forall k: nat | k < 2 * n
      ensures BitAt(Shl(m, n) + m, k) <==> k % (2 * p) < p
    {
      BitAtShl(m, m, n, k);
      if k >= n {
        SameRemainder(k - n, 2 * p, times);
      }
    }
  }

  lemma SameRemainder(k: nat, d: nat, times: nat)
    requires d > 0
    ensures (k + times * d) % d == k % d
  {
    var q := k / d;
    assert k + times * d == (q + times) * d + k % d;
    QuotientRemainder(k + times * d, d, q + times, k % d);
  }

  lemma SmallPowers()
    ensures Pow2(1) == 2 && Pow2(2) == 4 && Pow2(4) == 0x10 && Pow2(8) == 0x100 && Pow2(16) == 0x1_0000
  {
    Four(0, 1);
    Four(4, 0x10);
    Sixteen(0, 1);
  }

  lemma Doubled(m: nat, n: nat, p: nat, times: nat, m': nat)
    requires p > 0 && Pattern(m, n, p) && m < Pow2(n) && n == times * (2 * p) && m' == m * Pow2(n) + m
    ensures Pattern(m', 2 * n, p)
  {
    ShlIsTimes(m, n);
    PatternDoubled(m, n, p, times);
  }

  lemma Masks16And8()
    ensures Pattern(0x0000_FFFF, 32, 16) && Pattern(0x00FF_00FF, 32, 8)
  {
    SmallPowers();
    PatternOnes(16);
    PatternOnes(8);
    Doubled(0xFF, 16, 8, 1, 0x00FF_00FF);
  }

  lemma Mask4()
    ensures Pattern(0x0F0F_0F0F, 32, 4)
  {
    SmallPowers();
    PatternOnes(4);
    Doubled(0xF, 8, 4, 1, 0x0F0F);
    Doubled(0x0F0F, 16, 4, 2, 0x0F0F_0F0F);
  }

  lemma Mask2()
    ensures Pattern(0x3333_3333, 32, 2)
  {
    SmallPowers();
    PatternOnes(2);
    Doubled(0x3, 4, 2, 1, 0x33);
    Doubled(0x33, 8, 2, 2, 0x3333);
    Doubled(0x3333, 16, 2, 4, 0x3333_3333);
  }

  lemma Mask1()
    ensures Pattern(0x5555_5555, 32, 1)
  {
    SmallPowers();
    PatternOnes(1);
    Doubled(0x1, 2, 1, 1, 0x5);
    Doubled(0x5, 4, 1, 2, 0x55);
    Doubled(0x55, 8, 1, 4, 0x5555);
    Doubled(0x5555, 16, 1, 8, 0x5555_5555);
  }

  /** Whether a mask meets an isolated bit. */
  lemma MaskMeets(m: nat, p: nat, k: nat)
    requires p > 0 && Pattern(m, 32, p) && k < 32
    ensures And(Pow2(k), m) != 0 <==> k % (2 * p) < p
  {
    AndPow2(m, k);
  }

  /** The five masks tell bit k from the others. */
  predicate Tells(bit: nat, k: nat) {
    && (And(bit, 0x0000_FFFF) != 0 <==> k % 32 < 16)
    && (And(bit, 0x00FF_00FF) != 0 <==> k % 16 < 8)
    && (And(bit, 0x0F0F_0F0F) != 0 <==> k % 8 < 4)
    && (And(bit, 0x3333_3333) != 0 <==> k % 4 < 2)
    && (And(bit, 0x5555_5555) != 0 <==> k % 2 < 1)
  }

  lemma MasksTell(k: nat)
    requires k < 32
    ensures Tells(Pow2(k), k)
  {
    Masks16And8();
    MaskMeets(0x0000_FFFF, 16, k);
    MaskMeets(0x00FF_00FF, 8, k);
    Mask4();
    MaskMeets(0x0F0F_0F0F, 4, k);
    Mask2();
    MaskMeets(0x3333_3333, 2, k);
    Mask1();
    MaskMeets(0x5555_5555, 1, k);
  }

  lemma IsolatedWord(w: nat) returns (k: nat)
    requires 0 < w < Pow2(32)
    ensures k == TrailingZeros(w) < 32 && And(w, (0xFFFF_FFFF - w + 1) % 0x1_0000_0000) == Pow2(k)
  {
    ThirtyTwo();
    Isolated(w, 32);
    k := TrailingZeros(w);
    QuotientRemainder(0xFFFF_FFFF - w + 1, 0x1_0000_0000, 0, 0xFFFF_FFFF - w + 1);
  }

  /** The bit-twiddling count of trailing zeros. */
  method CountTrailingZeros(w: nat) returns (zeroes: nat)
    requires 0 < w < Pow2(32)
    ensures zeroes == TrailingZeros(w) < 32
  {
    ThirtyTwo();
    ghost var k := IsolatedWord(w);
    MasksTell(k);
    var bit := And(w, (0xFFFF_FFFF - w + 1) % 0x1_0000_0000);
    zeroes := Binary(bit, k);
  }

  method Binary(bit: nat, ghost k: nat) returns (zeroes: nat)
    requires k < 32 && bit > 0 && Tells(bit, k)
    ensures zeroes == k
  {
    zeroes := 32;
    if bit != 0 {
      zeroes := zeroes - 1;
    }
    if And(bit, 0x0000_FFFF) != 0 {
      zeroes := zeroes - 16;
    }
    if And(bit, 0x00FF_00FF) != 0 {
      zeroes := zeroes - 8;
    }
    if And(bit, 0x0F0F_0F0F) != 0 {
      zeroes := zeroes - 4;
    }
    if And(bit, 0x3333_3333) != 0 {
      zeroes := zeroes - 2;
    }
    if And(bit, 0x5555_5555) != 0 {
      zeroes := zeroes - 1;
    }
  }

  // ----- What is counted -----

  /** Up to and with the last set bit. */
  function LastSet(b: seq<bool>): (n: nat)
    ensures n <= |b| && (n > 0 ==> b[n - 1]) && forall i :: n <= i < |b| ==> !b[i]
  {
    if b == [] then 0 else if b[|b| - 1] then |b| else LastSet(b[..|b| - 1])
  }

  /** The number of bits set before the first that is not. */
  function LeadingOnes(b: seq<bool>): (n: nat)
    ensures n <= |b| && (n < |b| ==> !b[n]) && forall i :: 0 <= i < n ==> b[i]
  {
    if b == [] || !b[0] then 0 else 1 + LeadingOnes(b[1..])
  }

  /** No set bit behind one that is not set. */
  predicate Contiguous(b: seq<bool>) {
    forall i, j :: 0 <= i < j < |b| && b[j] ==> b[i]
  }

  lemma LastSetIsLeadingOnes(b: seq<bool>)
    ensures LastSet(b) == LeadingOnes(b) <==> Contiguous(b)
  {
    var last, lead := LastSet(b), LeadingOnes(b);
    if Contiguous(b) && last > 0 {
      assert forall i :: 0 <= i < last ==> b[i];
    }
  }

  lemma {:induction false} LastSetOfWord(w: nat, n: nat)
    requires w < Pow2(n)
    ensures LastSet(WordBits(w, n)) == if w == 0 then 0 else n - TrailingZeros(w)
  {
    if n > 0 {
      var b := WordBits(w, n);
      assert b[..n - 1] == WordBits(w / 2, n - 1);
      if w % 2 == 0 {
        LastSetOfWord(w / 2, n - 1);
      }
    }
  }

  /** The word that decides: the first that is not full, if any. */
  function Deciding(words: seq<nat>, i: nat): (d: nat)
    requires i <= |words|
    ensures i <= d <= |words| && (d < |words| ==> words[d] != 0xFFFF_FFFF)
    ensures forall j :: i <= j < d ==> words[j] == 0xFFFF_FFFF
    decreases |words| - i
  {
    if i < |words| && words[i] == 0xFFFF_FFFF then Deciding(words, i + 1) else i
  }

  function CountedBits(mask: IpAddress): seq<bool> {
    match mask
    case Unspecified => []
    case V4(word) => WordBits(word, 32)
    case V6(words) => var i := Deciding(words, 0); if i < |words| then WordBits(words[i], 32) else []
  }

  function FullBits(mask: IpAddress): nat {
    if mask.V6? then 32 * Deciding(mask.words, 0) else 0
  }

  lemma {:induction false} FullWordBits(n: nat)
    ensures WordBits(Pow2(n) - 1, n) == Ones(n)
  {
    if n > 0 {
      var w, half := Pow2(n) - 1, Pow2(n - 1) - 1;
      FullWordBits(n - 1);
      assert w == 2 * half + 1 && w / 2 == half && w % 2 == 1;
      assert Ones(n) == Ones(n - 1) + [true];
    }
  }

  lemma {:induction false} LeadingOnesThen(a: seq<bool>, b: seq<bool>)
    ensures LeadingOnes(a + b) == if LeadingOnes(a) == |a| then |a| + LeadingOnes(b) else LeadingOnes(a)
  {
    if a == [] {
      assert a + b == b;
    } else if a[0] {
      assert (a + b)[1..] == a[1..] + b;
      LeadingOnesThen(a[1..], b);
    }
  }

  lemma LeadingOnesOfFull(w: nat)
    requires w == 0xFFFF_FFFF
    ensures LeadingOnes(WordBits(w, 32)) == 32
  {
    ThirtyTwo();
    FullWordBits(32);
  }

  lemma {:induction false} LeadingOnesOfOther(w: nat, n: nat)
    requires w < Pow2(n) - 1
    ensures LeadingOnes(WordBits(w, n)) < n
  {
    var b := WordBits(w, n);
    if w % 2 == 0 {
      assert !b[n - 1];
    } else {
      LeadingOnesOfOther(w / 2, n - 1);
      LeadingOnesThen(WordBits(w / 2, n - 1), [true]);
    }
  }

  /** One more word, before, at or behind the one that decides. */
  lemma LeadingOnesNext(b: seq<bool>, words: seq<nat>, k: nat, d: nat)
    requires k < |words| && d == Deciding(words, 0) && words[k] < Pow2(32) && |b| == 32 * k
    requires LeadingOnes(b) == if k <= d then 32 * k else 32 * d + LeadingOnes(WordBits(words[d], 32))
    requires k > d ==> LeadingOnes(WordBits(words[d], 32)) < 32
    ensures LeadingOnes(b + WordBits(words[k], 32)) == if k < d then 32 * (k + 1) else 32 * d + LeadingOnes(WordBits(words[d], 32))
  {
    LeadingOnesThen(b, WordBits(words[k], 32));
    if k < d {
      LeadingOnesOfFull(words[k]);
    }
  }

  lemma {:induction false} LeadingOnesOfWords(words: seq<nat>, k: nat)
    requires k <= |words| && forall i :: 0 <= i < |words| ==> words[i] < Pow2(32)
    ensures var d := Deciding(words, 0);
            LeadingOnes(AllBits(words[..k])) == if k <= d then 32 * k else 32 * d + LeadingOnes(WordBits(words[d], 32))
  {
    if k > 0 {
      var d := Deciding(words, 0);
      LeadingOnesOfWords(words, k - 1);
      assert words[..k][..k - 1] == words[..k - 1];
      if d < |words| {
        ThirtyTwo();
        LeadingOnesOfOther(words[d], 32);
      }
      LeadingOnesNext(AllBits(words[..k - 1]), words, k - 1, d);
    }
  }

  /** The documented count is the one of the word that decides. */
  lemma LeadingOnesOfMask(mask: IpAddress)
    requires mask.Valid()
    ensures LeadingOnes(Bits(mask)) == FullBits(mask) + LeadingOnes(CountedBits(mask))
  {
    if mask.V6? {
      LeadingOnesOfWords(mask.words, 4);
      assert mask.words[..4] == mask.words;
    }
  }

  /** CountIPMaskBits counts up to the lowest set bit of the deciding word. It is the
      documented number of leading ones if and only if that word is contiguous. */
  method CountIPMaskBits(mask: IpAddress) returns (bits: nat)
    requires mask.Valid()
    ensures bits == FullBits(mask) + LastSet(CountedBits(mask))
    ensures bits == LeadingOnes(Bits(mask)) <==> Contiguous(CountedBits(mask))
  {
    LeadingOnesOfMask(mask);
    LastSetIsLeadingOnes(CountedBits(mask));
    var word := 0;
    bits := 0;
    match mask {
      case V4(w) => word := w;
      case V6(words) =>
        var i := 0;
        while i < 4 && words[i] == 0xFFFF_FFFF
          invariant 0 <= i <= 4 && Deciding(words, 0) == Deciding(words, i)
        {
          i := i + 1;
        }
        if i < 4 {
          word := words[i];
        }
        bits := i * 32;
      case Unspecified => return 0;
    }
    WordCounted(mask, word);
    if word != 0 {
      var zeroes := CountTrailingZeros(word);
      bits := bits + (32 - zeroes);
    }
  }

  lemma WordCounted(mask: IpAddress, word: nat)
    requires mask.Valid() && !mask.Unspecified? && word < Pow2(32)
    requires if CountedBits(mask) == [] then word == 0 else CountedBits(mask) == WordBits(word, 32)
    ensures LastSet(CountedBits(mask)) == if word == 0 then 0 else 32 - TrailingZeros(word)
  {
    LastSetOfWord(word, 32);
  }

  // ----- Both together -----

  lemma {:induction false} WordsSlice(words: seq<nat>, i: nat)
    requires i < |words|
    ensures AllBits(words)[32 * i..32 * i + 32] == WordBits(words[i], 32)
  {
    var front := words[..|words| - 1];
    if i < |words| - 1 {
      WordsSlice(front, i);
      assert AllBits(words)[32 * i..32 * i + 32] == AllBits(front)[32 * i..32 * i + 32];
    }
  }

  lemma ContiguousWord(mask: IpAddress)
    requires mask.Valid() && Contiguous(Bits(mask))
    ensures Contiguous(CountedBits(mask))
  {
    if mask.V6? && Deciding(mask.words, 0) < 4 {
      WordsSlice(mask.words, Deciding(mask.words, 0));
    }
  }

  /** Truncating again is truncating once to the shorter length. */
  method TruncateTwice(ip: IpAddress, m: nat, n: nat) returns (r: IpAddress)
    requires ip.Valid()
    ensures Bits(r) == Prefix(Bits(ip), if m < n then m else n)
  {
    r := TruncateIP(ip, m);
    PrefixOfPrefix(Bits(ip), m, n);
    r := TruncateIP(r, n);
  }

  /** The mask of a prefix length counts as that length, up to the width of the family. */
  method CountPrefixMask(ones: IpAddress, n: nat) returns (bits: nat)
    requires ones.Valid() && forall i :: 0 <= i < |Bits(ones)| ==> Bits(ones)[i]
    ensures bits == if n < |Bits(ones)| then n else |Bits(ones)|
  {
    var mask := TruncateIP(ones, n);
    LeadingOnesOfPrefix(Bits(ones), n);
    ContiguousWord(mask);
    bits := CountIPMaskBits(mask);
  }

  lemma LeadingOnesOfPrefix(b: seq<bool>, n: nat)
    requires forall i :: 0 <= i < |b| ==> b[i]
    ensures LeadingOnes(Prefix(b, n)) == if n < |b| then n else |b|
  {
    var p := Prefix(b, n);
    assert n < |b| ==> !p[n];
    assert forall i :: 0 <= i < |b| && i < n ==> p[i];
  }

  /** The addresses that CountPrefixMask is about. */
  lemma AllOnes()
    ensures var ones := V4(0xFFFF_FFFF); ones.Valid() && forall i :: 0 <= i < 32 ==> Bits(ones)[i]
    ensures var ones := V6([0xFFFF_FFFF, 0xFFFF_FFFF, 0xFFFF_FFFF, 0xFFFF_FFFF]); ones.Valid() && forall i :: 0 <= i < 128 ==> Bits(ones)[i]
  {
    ThirtyTwo();
    LeadingOnesOfFull(0xFFFF_FFFF);
    var words := [0xFFFF_FFFF, 0xFFFF_FFFF, 0xFFFF_FFFF, 0xFFFF_FFFF];
    LeadingOnesOfWords(words, 4);
    assert words[..4] == words;
  }

  /** The address 0.0.0.1, which has no leading one, counts as 32. */
  method Miscounted() returns (bits: nat)
    ensures bits == 32 && LeadingOnes(Bits(V4(1))) == 0
  {
    ThirtyTwo();
    LastSetOfWord(1, 32);
    FirstBit(1, 32);
    bits := CountIPMaskBits(V4(1));
  }

  lemma {:induction false} FirstBit(w: nat, n: nat)
    requires n > 0 && 2 * w < Pow2(n)
    ensures !WordBits(w, n)[0]
  {
    if n > 1 {
      FirstBit(w / 2, n - 1);
    }
  }
}
