/** CRC-32 (`crates/nexum-core/src/binary.rs`): the reflected polynomial of
    clause 3.2.9 of IEEE 802.3, computed with a 256-entry table. */
module Crc {
  import opened Bits

  const POLY: nat := 0xEDB8_8320
  const ALL_ONES: nat := 0xFFFF_FFFF
  const CRC_BITS: nat := 32
  const BYTE_BITS: nat := 8

  lemma Sizes()
    ensures Pow2(BYTE_BITS) == 256
    ensures Pow2(CRC_BITS - 1) == 0x8000_0000
    ensures Pow2(CRC_BITS) == 0x1_0000_0000
  {
    Pow2Byte(0);
    Pow2Byte(8);
    Pow2Byte(16);
    Pow2Byte(24);
  }

  // ----------------------------------------------------------- reference

  /** Feeds one message bit into the shift register. */
  function FeedBit(c: nat, bit: nat): nat
  {
    if c % 2 == bit then c / 2 else Xor(c / 2, POLY)
  }

  /** Feeds the `n` low bits of `b`, least significant first. */
  function FeedBits(c: nat, b: nat, n: nat): nat
    decreases n
  {
    if n == 0 then c else FeedBits(FeedBit(c, b % 2), b / 2, n - 1)
  }

  /** The bit-serial definition: every message bit in transmission order. */
  function BitSerial(c: nat, data: Bytes): nat
    decreases |data|
  {
    if data == [] then c else BitSerial(FeedBits(c, data[0], BYTE_BITS), data[1..])
  }

  // --------------------------------------------------------------- table

  /** One reduction step of a table entry. */
  function BitStep(c: nat): nat
  {
    if c % 2 != 0 then Xor(c / 2, POLY) else c / 2
  }

  function Steps(c: nat, n: nat): nat
    decreases n
  {
    if n == 0 then c else Steps(BitStep(c), n - 1)
  }

  method BuildCrcTable() returns (table: seq<nat>)
    ensures |table| == 256
    ensures forall i :: 0 <= i < 256 ==> table[i] == Steps(i, BYTE_BITS)
  {
    hide Xor;
    table := [];
    for i := 0 to 256
      invariant |table| == i
      invariant forall k :: 0 <= k < i ==> table[k] == Steps(k, BYTE_BITS)
    {
      var crc: nat := i;
      var n := 0;
      while n < BYTE_BITS
        invariant 0 <= n <= BYTE_BITS
        invariant Steps(crc, BYTE_BITS - n) == Steps(i, BYTE_BITS)
      {
        crc := BitStep(crc);
        n := n + 1;
      }
      table := table + [crc];
    }
  }

  lemma BitStepLinear(a: nat, b: nat)
    ensures BitStep(Xor(a, b)) == Xor(BitStep(a), BitStep(b))
  {
    var p, q := a / 2, b / 2;
    XorParts(a, b);
    XorExchange(p, POLY, q, POLY);
    XorSelf(POLY);
    XorZero(Xor(p, q));
    XorAssociates(p, q, POLY);
    XorCommutes(q, POLY);
    XorAssociates(p, POLY, q);
  }

  lemma {:induction false} StepsLinear(a: nat, b: nat, n: nat)
    ensures Steps(Xor(a, b), n) == Xor(Steps(a, n), Steps(b, n))
    decreases n
  {
    if n > 0 {
      BitStepLinear(a, b);
      StepsLinear(BitStep(a), BitStep(b), n - 1);
    }
  }

  /** Steps on a word whose low bits are clear only shift it. */
  lemma {:induction false} StepsShift(h: nat, n: nat)
    ensures Steps(Pow2(n) * h, n) == h
    decreases n
  {
    if n > 0 {
      var c := Pow2(n - 1) * h;
      assert Pow2(n) * h == 2 * c;
      StepsShift(h, n - 1);
    }
  }

  /** The table splits eight steps into one lookup and one shift. */
  lemma TableStep(c: nat)
    ensures Steps(c, BYTE_BITS) == Xor(Steps(c % 256, BYTE_BITS), c / 256)
  {
    hide Xor, Steps;
    Sizes();
    var h, l := c / 256, c % 256;
    XorDisjoint(h, l, BYTE_BITS);
    StepsLinear(Pow2(BYTE_BITS) * h, l, BYTE_BITS);
    StepsShift(h, BYTE_BITS);
    XorCommutes(h, Steps(l, BYTE_BITS));
  }

  lemma HighBitsOfXor(c: nat, b: Byte)
    ensures Xor(c, b) / 256 == c / 256
  {
    Sizes();
    var h, l := c / 256, c % 256;
    XorDisjoint(h, l, BYTE_BITS);
    XorAssociates(256 * h, l, b);
    XorBound(l, b, BYTE_BITS);
    XorDisjoint(h, Xor(l, b), BYTE_BITS);
  }

  /** Eight bit-serial steps absorb a whole byte at once. */
  lemma {:induction false} FeedBitsIsSteps(c: nat, b: nat, n: nat)
    requires b < Pow2(n)
    ensures FeedBits(c, b, n) == Steps(Xor(c, b), n)
    decreases n
  {
    if n == 0 {
      XorZero(c);
    } else {
      XorParts(c, b);
      XorAssociates(c / 2, POLY, b / 2);
      XorCommutes(POLY, b / 2);
      XorAssociates(c / 2, b / 2, POLY);
      FeedBitsIsSteps(FeedBit(c, b % 2), b / 2, n - 1);
    }
  }

  // -------------------------------------------------------------- hasher

  class Crc32 {
    var crc: nat
    ghost var fed: Bytes

    ghost predicate Valid()
      reads this
    {
      crc == BitSerial(ALL_ONES, fed)
    }

    constructor ()
      ensures Valid() && fed == []
    {
      crc, fed := ALL_ONES, [];
    }

    /** Table-driven update; its result is the bit-serial one. */
    method Chain(data: Bytes)
      requires Valid()
      modifies this
      ensures Valid() && fed == old(fed) + data && crc == BitSerial(old(crc), data)
    {
      ghost var before := fed;
      var table := BuildCrcTable();
      var i := 0;
      while i < |data|
        invariant 0 <= i <= |data|
        invariant BitSerial(crc, data[i..]) == BitSerial(old(crc), data)
      {
        var index := And(Xor(crc, data[i]), 255);
        LookupIsByte(crc, data[i]);
        crc := Xor(table[index], Shr(crc, BYTE_BITS));
        i := i + 1;
      }
      ChainConcatenates(ALL_ONES, before, data);
      fed := before + data;
    }

    /** The checksum of everything fed so far, in however many pieces. */
    method Finalize() returns (sum: nat)
      requires Valid()
      ensures sum == Checksum(fed)
    {
      sum := Xor(crc, ALL_ONES);
    }
  }

  lemma LookupIsByte(c: nat, b: Byte)
    ensures And(Xor(c, b), 255) == Xor(c, b) % 256
    ensures Xor(Steps(Xor(c, b) % 256, BYTE_BITS), Shr(c, BYTE_BITS)) == FeedBits(c, b, BYTE_BITS)
  {
    Sizes();
    AndMask(Xor(c, b), BYTE_BITS);
    FeedBitsIsSteps(c, b, BYTE_BITS);
    TableStep(Xor(c, b));
    HighBitsOfXor(c, b);
    ShrByte(c);
  }

  lemma ShrByte(c: nat)
    ensures Shr(c, BYTE_BITS) == c / 256
  {
    assert Shr(c, 4) == c / 16;
    assert Shr(c / 16, 4) == c / 256;
    ShrAdds(c, 4, 4);
  }

  /** The checksum of a byte string. */
  function Checksum(data: Bytes): nat
  {
    Xor(BitSerial(ALL_ONES, data), ALL_ONES)
  }

  /** Chaining slices hashes their concatenation. */
  lemma {:induction false} ChainConcatenates(c: nat, a: Bytes, b: Bytes)
    ensures BitSerial(c, a + b) == BitSerial(BitSerial(c, a), b)
    decreases |a|
  {
    if a == [] {
      assert a + b == b;
    } else {
      assert (a + b)[1..] == a[1..] + b;
      ChainConcatenates(FeedBits(c, a[0], BYTE_BITS), a[1..], b);
    }
  }

  // ------------------------------------------------------ burst detection

  /** On 32-bit words one step loses no information: the polynomial's top bit
      tells which branch was taken. */
  lemma BitStepInjective(c: nat, d: nat)
    requires c < Pow2(CRC_BITS) && d < Pow2(CRC_BITS)
    requires BitStep(c) == BitStep(d)
    ensures c == d
  {
    Sizes();
    TopBit(c / 2);
    TopBit(d / 2);
    if c % 2 == 1 && d % 2 == 1 { XorInjective(c / 2, d / 2, POLY); }
  }

  lemma TopBit(h: nat)
    requires h < Pow2(CRC_BITS - 1)
    ensures Pow2(CRC_BITS - 1) <= Xor(h, POLY) < Pow2(CRC_BITS)
  {
    var k, low := CRC_BITS - 1, 0x6DB8_8320;
    Sizes();
    XorDisjoint(1, low, k);
    assert POLY == Xor(Pow2(k), low);
    XorCommutes(Pow2(k), low);
    XorAssociates(h, low, Pow2(k));
    XorBound(h, low, k);
    XorCommutes(Xor(h, low), Pow2(k));
    XorDisjoint(1, Xor(h, low), k);
  }

  lemma BitStepFits(c: nat)
    requires c < Pow2(CRC_BITS)
    ensures BitStep(c) < Pow2(CRC_BITS)
  {
    Sizes();
    TopBit(c / 2);
  }

  lemma {:induction false} StepsInjective(c: nat, d: nat, n: nat)
    requires c < Pow2(CRC_BITS) && d < Pow2(CRC_BITS)
    requires Steps(c, n) == Steps(d, n)
    ensures c == d
    decreases n
  {
    hide Xor, Pow2, BitStep;
    if n > 0 {
      BitStepFits(c);
      BitStepFits(d);
      StepsInjective(BitStep(c), BitStep(d), n - 1);
      BitStepInjective(c, d);
    }
  }

  lemma {:induction false} StepsFit(c: nat, n: nat)
    requires c < Pow2(CRC_BITS)
    ensures Steps(c, n) < Pow2(CRC_BITS)
    decreases n
  {
    hide Xor, Pow2, BitStep;
    if n > 0 {
      BitStepFits(c);
      StepsFit(BitStep(c), n - 1);
    }
  }

  lemma ByteFits(c: nat, b: Byte)
    requires c < Pow2(CRC_BITS)
    ensures Xor(c, b) < Pow2(CRC_BITS)
    ensures FeedBits(c, b, BYTE_BITS) < Pow2(CRC_BITS)
  {
    Sizes();
    XorBound(c, b, CRC_BITS);
    FeedBitsIsSteps(c, b, BYTE_BITS);
    StepsFit(Xor(c, b), BYTE_BITS);
  }

  lemma {:induction false} SerialFits(c: nat, data: Bytes)
    requires c < Pow2(CRC_BITS)
    ensures BitSerial(c, data) < Pow2(CRC_BITS)
    decreases |data|
  {
    if data != [] {
      ByteFits(c, data[0]);
      SerialFits(FeedBits(c, data[0], BYTE_BITS), data[1..]);
    }
  }

  /** Distinct register states stay distinct over any common message. */
  lemma {:induction false} SerialInjective(c: nat, d: nat, data: Bytes)
    requires c < Pow2(CRC_BITS) && d < Pow2(CRC_BITS)
    requires BitSerial(c, data) == BitSerial(d, data)
    ensures c == d
    decreases |data|
  {
    if data != [] {
      var b := data[0];
      ByteFits(c, b);
      ByteFits(d, b);
      SerialInjective(FeedBits(c, b, BYTE_BITS), FeedBits(d, b, BYTE_BITS), data[1..]);
      Sizes();
      FeedBitsIsSteps(c, b, BYTE_BITS);
      FeedBitsIsSteps(d, b, BYTE_BITS);
      StepsInjective(Xor(c, b), Xor(d, b), BYTE_BITS);
      XorInjective(c, d, b);
    }
  }

  /** A whole block enters the register as one number. */
  lemma {:induction false} BlockIsSteps(c: nat, data: Bytes)
    ensures BitSerial(c, data) == Steps(Xor(c, LittleEndian(data)), BYTE_BITS * |data|)
    decreases |data|
  {
    hide Xor, FeedBits;
    if data == [] {
      XorZero(c);
    } else {
      BlockIsSteps(FeedBits(c, data[0], BYTE_BITS), data[1..]);
      BlockHead(c, data);
    }
  }

  lemma BlockHead(c: nat, data: Bytes)
    requires data != []
    requires var d := FeedBits(c, data[0], BYTE_BITS);
      BitSerial(d, data[1..]) == Steps(Xor(d, LittleEndian(data[1..])), BYTE_BITS * (|data| - 1))
    ensures BitSerial(c, data) == Steps(Xor(c, LittleEndian(data)), BYTE_BITS * |data|)
  {
    hide Xor, Steps, FeedBits;
    var b, v := data[0], LittleEndian(data[1..]);
    AbsorbByte(c, b, v);
    StepsAdd(Xor(c, b + 256 * v), BYTE_BITS, BYTE_BITS * (|data| - 1));
  }

  lemma AbsorbByte(c: nat, b: Byte, v: nat)
    ensures Xor(FeedBits(c, b, BYTE_BITS), v) == Steps(Xor(c, b + 256 * v), BYTE_BITS)
  {
    hide Xor, Steps, FeedBits;
    Sizes();
    FeedBitsIsSteps(c, b, BYTE_BITS);
    StepsShift(v, BYTE_BITS);
    StepsLinear(Xor(c, b), 256 * v, BYTE_BITS);
    XorAssociates(c, b, 256 * v);
    XorCommutes(b, 256 * v);
    XorDisjoint(v, b, BYTE_BITS);
  }

  lemma {:induction false} StepsAdd(c: nat, m: nat, n: nat)
    ensures Steps(Steps(c, m), n) == Steps(c, m + n)
    decreases m
  {
    if m > 0 { StepsAdd(BitStep(c), m - 1, n); }
  }

  lemma FourBytesFit(a: Bytes)
    requires |a| <= 4
    ensures LittleEndian(a) < Pow2(CRC_BITS)
  {
    Sizes();
    if |a| > 0 { assert LittleEndian(a[1..]) < 0x100_0000 by { ThreeBytesFit(a[1..]); } }
  }

  lemma ThreeBytesFit(a: Bytes)
    requires |a| <= 3
    ensures LittleEndian(a) < 0x100_0000
  {
    if |a| > 0 {
      var t := a[1..];
      assert LittleEndian(t) < 0x1_0000 by {
        if |t| > 0 { assert LittleEndian(t[1..]) < 256; }
      }
    }
  }

  lemma BlockInjective(c: nat, a: Bytes, b: Bytes)
    requires c < Pow2(CRC_BITS) && |a| == |b| <= 4
    requires BitSerial(c, a) == BitSerial(c, b)
    ensures a == b
  {
    FourBytesFit(a);
    FourBytesFit(b);
    var x, y := LittleEndian(a), LittleEndian(b);
    BlockIsSteps(c, a);
    BlockIsSteps(c, b);
    XorBound(c, x, CRC_BITS);
    XorBound(c, y, CRC_BITS);
    StepsInjective(Xor(c, x), Xor(c, y), BYTE_BITS * |a|);
    XorCommutes(c, x);
    XorCommutes(c, y);
    XorInjective(x, y, c);
    LittleEndianInjective(a, b);
  }

  /** Every error burst within four consecutive bytes changes the register. */
  lemma BurstDiffers(a: Bytes, b: Bytes, i: nat)
    requires |a| == |b| && a != b
    requires forall k :: 0 <= k < |a| && !(i <= k < i + 4) ==> a[k] == b[k]
    ensures BitSerial(ALL_ONES, a) != BitSerial(ALL_ONES, b)
  {
    var lo := if i < |a| then i else |a|;
    var hi := if i + 4 < |a| then i + 4 else |a|;
    var pre, post := a[..lo], a[hi..];
    var u, v := a[lo..hi], b[lo..hi];
    assert a == pre + (u + post) && b == pre + (v + post);
    if BitSerial(ALL_ONES, a) == BitSerial(ALL_ONES, b) {
      var c := BitSerial(ALL_ONES, pre);
      Sizes();
      SerialFits(ALL_ONES, pre);
      ChainConcatenates(ALL_ONES, pre, u + post);
      ChainConcatenates(ALL_ONES, pre, v + post);
      ChainConcatenates(c, u, post);
      ChainConcatenates(c, v, post);
      SerialFits(c, u);
      SerialFits(c, v);
      SerialInjective(BitSerial(c, u), BitSerial(c, v), post);
      BlockInjective(c, u, v);
    }
  }

  /** Two inputs of equal length that differ only within four consecutive
      bytes have different checksums. */
  lemma BurstDetected(a: Bytes, b: Bytes, i: nat)
    requires |a| == |b| && a != b
    requires forall k :: 0 <= k < |a| && !(i <= k < i + 4) ==> a[k] == b[k]
    ensures Checksum(a) != Checksum(b)
  {
    hide BitSerial;
    BurstDiffers(a, b, i);
    if Checksum(a) == Checksum(b) {
      XorInjective(BitSerial(ALL_ONES, a), BitSerial(ALL_ONES, b), ALL_ONES);
    }
  }

  lemma ChecksumFits(data: Bytes)
    ensures Checksum(data) < Pow2(CRC_BITS)
  {
    hide BitSerial;
    Sizes();
    SerialFits(ALL_ONES, data);
    XorBound(BitSerial(ALL_ONES, data), ALL_ONES, CRC_BITS);
  }

  /** Data followed by its checksum always leaves the same register, and only
      the checksum does. */
  lemma ResidueExact(data: Bytes, stored: Bytes)
    requires |stored| == 4
    ensures LittleEndian(stored) == Checksum(data)
            <==> BitSerial(ALL_ONES, data + stored) == Steps(ALL_ONES, BYTE_BITS * 4)
  {
    hide BitSerial, Steps, Xor, LittleEndian;
    var c, x := BitSerial(ALL_ONES, data), LittleEndian(stored);
    ChainConcatenates(ALL_ONES, data, stored);
    BlockIsSteps(c, stored);
    Sizes();
    SerialFits(ALL_ONES, data);
    FourBytesFit(stored);
    XorBound(c, x, CRC_BITS);
    if Xor(c, x) == ALL_ONES || BitSerial(c, stored) == Steps(ALL_ONES, BYTE_BITS * 4) {
      if BitSerial(c, stored) == Steps(ALL_ONES, BYTE_BITS * 4) {
        StepsInjective(Xor(c, x), ALL_ONES, BYTE_BITS * 4);
      }
      XorSolves(c, x, ALL_ONES);
    }
    XorSolves(c, Xor(c, ALL_ONES), ALL_ONES);
  }

  lemma XorSolves(c: nat, x: nat, y: nat)
    ensures Xor(c, x) == y ==> x == Xor(c, y)
    ensures x == Xor(c, y) ==> Xor(c, x) == y
  {
    hide Xor;
    XorAssociates(c, c, x);
    XorAssociates(c, c, y);
    XorSelf(c);
    XorZero(x);
    XorZero(y);
  }
}
