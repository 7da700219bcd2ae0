/** Variable-length integers of byte_buffer.h and byte_buffer.cc: seven bits to a byte, lowest
    first, the top bit set on all but the last. */
module Varint {
  import opened Bytes
  import opened Wrappers
  import opened Bitwise
  import opened Buffers

  type UInt64 = n: nat | n < 0x1_0000_0000_0000_0000

  /** The bytes of a value. */
  function Encoding(v: nat): (bytes: seq<Byte>)
    ensures bytes != []
    decreases v
  {
    if v < 128 then [v] else [128 + v % 128] + Encoding(v / 128)
  }

  // ----- Writing -----

  lemma ContinuationByte(v: nat)
    ensures Or(v % 256, 128) == 128 + v % 128
  {
    ByteParts(v);
    TopBit(v / 128 % 2, v % 128);
  }

  lemma ByteParts(v: nat)
    ensures v % 256 == 128 * (v / 128 % 2) + v % 128
  {
  }

  lemma TopBit(high: nat, low: nat)
    requires high < 2 && low < 128
    ensures Or(128 * high + low, 128) == 128 + low
  {
    Seven(high);
    Seven(1);
    OrHigh(high, low, 1, 7);
    OrOne(high);
  }

  lemma OrOne(x: nat)
    requires x < 2
    ensures Or(x, 1) == 1
  {
    OrZero(0);
  }

  class ByteBufferWriter {
    const buffer: Buffer

    ghost predicate Valid()
      reads this, buffer
    {
      buffer.Valid()
    }

    constructor ()
      ensures Valid() && buffer.Contents() == [] && fresh(buffer)
    {
      buffer := new Buffer.Sized(0, 4096);
    }

    method WriteUVarint(value: UInt64)
      requires Valid()
      modifies buffer
      ensures Valid() && buffer.Contents() == old(buffer.Contents()) + Encoding(value)
    {
      var val: nat := value;
      while val >= 0x80
        invariant Valid() && buffer.Contents() + Encoding(val) == old(buffer.Contents()) + Encoding(value)
        decreases val
      {
        ContinuationByte(val);
        ConcatAssociates(buffer.Contents(), [128 + val % 128], Encoding(val / 128));
        var byte := Or(val % 256, 0x80);
        buffer.AppendData([byte]);
        val := val / 128;
      }
      buffer.AppendData([val]);
    }
  }

  // ----- Reading -----

  datatype Decoded = Decoded(value: Option<nat>, next: nat)

  /** The low seven bits of a byte, in place; what does not fit in 64 bits is lost. */
  function Part(b: Byte, i: nat): nat
    requires i < 64
  {
    Shl(b % 128 % Pow2(64 - i), i)
  }

  /** What reading from a position gives, from bit i on. After ten bytes with the top bit set
      it gives up. */
  function Decode(bytes: seq<Byte>, at: nat, i: nat): (d: Decoded)
    ensures at <= |bytes| ==> at <= d.next <= |bytes|
    decreases |bytes| - at
  {
    if i >= 64 || at >= |bytes| then Decoded(None, at)
    else if bytes[at] < 128 then Decoded(Some(Part(bytes[at], i)), at + 1)
    else Onto(Part(bytes[at], i), Decode(bytes, at + 1, i + 7))
  }

  function Onto(part: nat, d: Decoded): (r: Decoded)
    ensures r.next == d.next
  {
    Decoded(if d.value.Some? then Some(part + d.value.value) else None, d.next)
  }

  predicate Holds(bytes: seq<Byte>, at: nat, piece: seq<Byte>) {
    at + |piece| <= |bytes| && bytes[at..at + |piece|] == piece
  }

  lemma HoldsTail(bytes: seq<Byte>, at: nat, b: Byte, piece: seq<Byte>)
    requires Holds(bytes, at, [b] + piece)
    ensures bytes[at] == b && Holds(bytes, at + 1, piece)
  {
    var n := |piece|;
    assert bytes[at..at + (1 + n)][0] == b;
    assert bytes[at + 1..at + 1 + n] == bytes[at..at + (1 + n)][1..];
    assert ([b] + piece)[1..] == piece;
  }

  lemma {:induction false} DecodeEncoding(bytes: seq<Byte>, at: nat, v: nat, i: nat)
    requires i < 64 && v < Pow2(64 - i) && Holds(bytes, at, Encoding(v))
    ensures Decode(bytes, at, i) == Decoded(Some(Shl(v, i)), at + |Encoding(v)|)
    decreases v, bytes
  {
    Fits(v, 64 - i);
    if v >= 128 {
      HoldsTail(bytes, at, 128 + v % 128, Encoding(v / 128));
      DecodeEncoding(bytes, at + 1, v / 128, i + 7);
      DecodeStep(bytes, at, v % 128, v / 128, i);
    } else {
      HoldsTail(bytes, at, v, []);
    }
  }

  lemma DecodeStep(bytes: seq<Byte>, at: nat, low: nat, high: nat, i: nat)
    requires i < 64 && at < |bytes| && low < 128 && bytes[at] == 128 + low && low % Pow2(64 - i) == low
    requires Decode(bytes, at + 1, i + 7).value == Some(Shl(high, i + 7))
    ensures Decode(bytes, at, i) == Decoded(Some(Shl(low + 128 * high, i)), Decode(bytes, at + 1, i + 7).next)
  {
    assert (128 + low) % 128 == low;
    SevenBitsMore(low, high, i);
  }

  lemma Seven(x: nat)
    ensures Pow2(7) == 128 && Shl(x, 7) == 128 * x
  {
    ShlIsTimes(x, 7);
  }

  /** A value of more than seven bits leaves room for more than seven bits. */
  lemma Fits(v: nat, m: nat)
    requires v < Pow2(m)
    ensures v % 128 % Pow2(m) == v % 128
    ensures v >= 128 ==> m > 7 && v / 128 < Pow2(m - 7)
  {
    QuotientRemainder(v % 128, Pow2(m), 0, v % 128);
    if v >= 128 {
      Seven(if m <= 7 then 0 else Pow2(m - 7));
      if m <= 7 {
        Pow2Monotone(m, 7);
      } else {
        Pow2Adds(m - 7, 7);
      }
    }
  }

  lemma SevenBitsMore(low: nat, high: nat, i: nat)
    ensures Shl(low, i) + Shl(high, i + 7) == Shl(low + 128 * high, i)
  {
    Seven(high);
    ShlFurther(high, 7, i);
    ShlAdds(low, 128 * high, i);
  }

  // ----- Any bytes -----

  /** The number that n + 1 bytes spell, seven bits each, lowest first. */
  function Number(bytes: seq<Byte>, at: nat, n: nat): nat
    requires at + n < |bytes|
    decreases n
  {
    bytes[at] % 128 + if n == 0 then 0 else 128 * Number(bytes, at + 1, n - 1)
  }

  predicate Continued(bytes: seq<Byte>, at: nat, n: nat) {
    at + n <= |bytes| && forall j :: at <= j < at + n ==> bytes[j] >= 128
  }

  /** Whatever the bytes are, a number that ends within ten of them is read modulo 2^64. */
  lemma {:induction false} DecodeEnds(bytes: seq<Byte>, at: nat, i: nat, n: nat)
    requires at + n < |bytes| && Continued(bytes, at, n) && bytes[at + n] < 128 && i + 7 * n < 64
    ensures Decode(bytes, at, i) == Decoded(Some(Shl(Number(bytes, at, n) % Pow2(64 - i), i)), at + n + 1)
    decreases n
  {
    if n > 0 {
      DecodeEnds(bytes, at + 1, i + 7, n - 1);
      var low, high := bytes[at] % 128, Number(bytes, at + 1, n - 1);
      TopSet(bytes[at]);
      LowRemainder(low, high, 57 - i);
      DecodeStep(bytes, at, low, high % Pow2(57 - i), i);
    }
  }

  lemma TopSet(b: Byte)
    requires b >= 128
    ensures b == 128 + b % 128
  {
  }

  lemma LowRemainder(low: nat, high: nat, m: nat)
    requires low < 128
    ensures low % Pow2(m + 7) == low && (low + 128 * high) % Pow2(m + 7) == low + 128 * (high % Pow2(m))
  {
    var p, r, q := Pow2(m), high % Pow2(m), high / Pow2(m);
    Pow2Adds(m, 7);
    Seven(p);
    assert Pow2(m + 7) == 128 * p;
    QuotientRemainder(low, 128 * p, 0, low);
    Spread(p, q, r, low, high);
    QuotientRemainder(low + 128 * high, 128 * p, q, low + 128 * r);
  }

  lemma Spread(p: nat, q: nat, r: nat, low: nat, high: nat)
    requires p > 0 && high == p * q + r && r < p && low < 128
    ensures low + 128 * high == 128 * p * q + (low + 128 * r) && low + 128 * r < 128 * p
  {
  }

  /** And one that does not end within ten bytes, or not at all, is refused. */
  lemma {:induction false} DecodeGivesUp(bytes: seq<Byte>, at: nat, i: nat, n: nat)
    requires Continued(bytes, at, n) && (at + n == |bytes| || i + 7 * n >= 64) && (n > 0 ==> i + 7 * (n - 1) < 64)
    ensures Decode(bytes, at, i) == Decoded(None, at + n)
    decreases n
  {
    if n > 0 {
      DecodeGivesUp(bytes, at + 1, i + 7, n - 1);
    }
  }

  lemma PartIs(b: Byte, i: nat)
    requires i < 64
    ensures Shl(And(b, 0x7F), i) % Pow2(64) == Part(b, i)
  {
    Seven(0);
    AndLow(b, 7);
    ShlWraps(b % 128, 64 - i, i);
  }

  /** Seven more bits above i make a number of i + 7 bits, and nothing overlaps. */
  lemma PartAdds(v: nat, b: Byte, i: nat)
    requires i < 64 && v < Pow2(i)
    ensures Or(v, Part(b, i)) == v + Part(b, i) < Pow2(i + 7)
  {
    RemainderAtMost(b % 128, Pow2(64 - i));
    ShiftedAdds(v, b % 128 % Pow2(64 - i), i);
  }

  lemma ShiftedAdds(v: nat, q: nat, i: nat)
    requires v < Pow2(i) && q < 128
    ensures Or(v, Shl(q, i)) == v + Shl(q, i) < Pow2(i + 7)
  {
    OrDisjoint(v, q, i);
    SevenAbove(v, q, i);
  }

  lemma SevenAbove(v: nat, q: nat, i: nat)
    requires v < Pow2(i) && q < 128
    ensures v + Shl(q, i) < Pow2(i + 7)
  {
    Seven(0);
    ShlIsTimes(1, i);
    ShlAdds(q, 1, i);
    ShlAdds(q + 1, 127 - q, i);
    Pow2Adds(7, i);
  }

  function Accumulated(v: nat, b: Byte, i: nat): nat {
    Or(v, Shl(And(b, 0x7F), i) % Pow2(64))
  }

  lemma AccumulatedIs(v: nat, b: Byte, i: nat)
    requires i < 64 && v < Pow2(i)
    ensures Accumulated(v, b, i) == v + Part(b, i) < Pow2(i + 7)
  {
    PartIs(b, i);
    PartAdds(v, b, i);
  }

  /** One turn of the reader's loop. */
  lemma ReadStep(bytes: seq<Byte>, at: nat, v: nat, v': nat, i: nat)
    requires at < |bytes| && i < 64 && v' == v + Part(bytes[at], i)
    ensures Onto(v, Decode(bytes, at, i)) == if bytes[at] < 128 then Decoded(Some(v'), at + 1) else Onto(v', Decode(bytes, at + 1, i + 7))
  {
  }

  class ByteBufferReader {
    const bytes: seq<Byte>
    var start: nat

    ghost predicate Valid()
      reads this
    {
      start <= |bytes|
    }

    constructor (bytes: seq<Byte>)
      ensures Valid() && this.bytes == bytes && start == 0
    {
      this.bytes := bytes;
      start := 0;
    }

    method ReadUVarint() returns (val: Option<nat>)
      requires Valid()
      modifies this`start
      ensures Valid() && Decoded(val, start) == Decode(bytes, old(start), 0)
    {
      var v: nat, i: nat := 0, 0;
      while i < 64
        invariant Valid() && v < Pow2(i)
        invariant Onto(v, Decode(bytes, start, i)) == Decode(bytes, old(start), 0)
      {
        if start == |bytes| {
          return None;
        }
        var byte := bytes[start];
        start := start + 1;
        AccumulatedIs(v, byte, i);
        ReadStep(bytes, start - 1, v, v + Part(byte, i), i);
        v := Accumulated(v, byte, i);
        if byte < 0x80 {
          return Some(v);
        }
        i := i + 7;
      }
      return None;
    }
  }

  // ----- Round trips -----

  function EncodingAll(vs: seq<UInt64>): seq<Byte> {
    if vs == [] then [] else EncodingAll(vs[..|vs| - 1]) + Encoding(vs[|vs| - 1])
  }

  method WriteAll(w: ByteBufferWriter, vs: seq<UInt64>)
    requires w.Valid()
    modifies w.buffer
    ensures w.Valid() && w.buffer.Contents() == old(w.buffer.Contents()) + EncodingAll(vs)
  {
    var i := 0;
    while i < |vs|
      invariant 0 <= i <= |vs| && w.Valid()
      invariant w.buffer.Contents() == old(w.buffer.Contents()) + EncodingAll(vs[..i])
    {
      assert vs[..i + 1][..i] == vs[..i];
      ConcatAssociates(old(w.buffer.Contents()), EncodingAll(vs[..i]), Encoding(vs[i]));
      w.WriteUVarint(vs[i]);
      i := i + 1;
    }
    assert vs[..i] == vs;
  }

  /** A written value is read back, and the reader stops right behind it. */
  lemma ReadsBack(bytes: seq<Byte>, at: nat, v: UInt64)
    requires Holds(bytes, at, Encoding(v))
    ensures Decode(bytes, at, 0) == Decoded(Some(v), at + |Encoding(v)|)
  {
    SixtyFour();
    DecodeEncoding(bytes, at, v, 0);
  }

  method ReadAll(r: ByteBufferReader, n: nat, ghost vs: seq<UInt64>) returns (values: seq<nat>, ok: bool)
    requires r.Valid() && |vs| == n && Holds(r.bytes, r.start, EncodingAll(vs))
    modifies r`start
    ensures r.Valid() && ok && values == vs && r.start == old(r.start) + |EncodingAll(vs)|
  {
    values, ok := [], true;
    var i := 0;
    assert EncodingAll(vs[..0]) == [];
    while i < n
      invariant 0 <= i <= n && r.Valid() && ok
      invariant values == vs[..i] && r.start == old(r.start) + |EncodingAll(vs[..i])|
    {
      NextHolds(r.bytes, old(r.start), vs, i);
      ReadsBack(r.bytes, r.start, vs[i]);
      var val := r.ReadUVarint();
      if val.None? {
        return values, false;
      }
      values := values + [val.value];
      i := i + 1;
    }
    assert vs[..i] == vs;
  }

  lemma {:induction false} NextHolds(bytes: seq<Byte>, at: nat, vs: seq<UInt64>, i: nat)
    requires i < |vs| && Holds(bytes, at, EncodingAll(vs))
    ensures Holds(bytes, at + |EncodingAll(vs[..i])|, Encoding(vs[i]))
    ensures EncodingAll(vs[..i + 1]) == EncodingAll(vs[..i]) + Encoding(vs[i])
    decreases |vs|
  {
    assert vs[..i + 1][..i] == vs[..i];
    var front := vs[..|vs| - 1];
    HoldsParts(bytes, at, EncodingAll(front), Encoding(vs[|vs| - 1]));
    if i < |vs| - 1 {
      NextHolds(bytes, at, front, i);
      assert front[..i] == vs[..i];
    }
  }

  lemma HoldsParts(bytes: seq<Byte>, at: nat, a: seq<Byte>, b: seq<Byte>)
    requires Holds(bytes, at, a + b)
    ensures Holds(bytes, at, a) && Holds(bytes, at + |a|, b)
  {
    var whole := bytes[at..at + |a + b|];
    assert bytes[at..at + |a|] == whole[..|a|] && (a + b)[..|a|] == a;
    assert bytes[at + |a|..at + |a| + |b|] == whole[|a|..] && (a + b)[|a|..] == b;
  }

  /** Any list of values, written and read back, with any bytes behind it untouched. */
  method RoundTrip(vs: seq<UInt64>, suffix: seq<Byte>) returns (values: seq<nat>, rest: seq<Byte>)
    ensures values == vs && rest == suffix
  {
    var w := new ByteBufferWriter();
    WriteAll(w, vs);
    assert w.buffer.Contents() == EncodingAll(vs);
    w.buffer.AppendData(suffix);
    var bytes := w.buffer.data[..w.buffer.size];
    var r := new ByteBufferReader(bytes);
    assert bytes[0..0 + |EncodingAll(vs)|] == EncodingAll(vs);
    var ok;
    values, ok := ReadAll(r, |vs|, vs);
    rest := bytes[r.start..];
  }

  // ----- Lengths -----

  function BitLength(v: nat): nat {
    if v == 0 then 0 else 1 + BitLength(v / 2)
  }

  lemma {:induction false} BitLengthBound(v: nat, n: nat)
    requires v < Pow2(n)
    ensures BitLength(v) <= n
  {
    if v > 0 {
      BitLengthBound(v / 2, n - 1);
    }
  }

  lemma BitLengthOfShifted(v: nat)
    requires v >= 128
    ensures BitLength(v) == 7 + BitLength(v / 128)
  {
    BitLengthOfQuarter(v);
    BitLengthOfQuarter(v / 4);
    BitLengthOfQuarter(v / 16);
    assert v / 4 / 4 == v / 16 && v / 16 / 4 == v / 64 && v / 64 / 2 == v / 128;
  }

  lemma BitLengthOfQuarter(v: nat)
    requires v >= 2
    ensures BitLength(v) == 2 + BitLength(v / 4)
  {
    assert v / 2 / 2 == v / 4;
  }

  /** One byte for each seven bits begun, and at least one: never more than ten. */
  lemma {:induction false} EncodingLength(v: nat)
    ensures |Encoding(v)| == Max(1, (BitLength(v) + 6) / 7)
    ensures v < 0x1_0000_0000_0000_0000 ==> |Encoding(v)| <= 10
    decreases v
  {
    if v < 128 {
      BitLengthBound(v, 7);
    } else {
      EncodingLength(v / 128);
      BitLengthOfShifted(v);
    }
    if v < 0x1_0000_0000_0000_0000 {
      SixtyFour();
      BitLengthBound(v, 64);
    }
  }
}
