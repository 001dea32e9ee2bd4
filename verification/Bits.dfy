/** Machine-word arithmetic on natural numbers: powers of two, exclusive or,
    and masking. Words are naturals below a power of two, so wrap-around and
    shifts are written with `%` and `/`. */
module Bits {

  type Byte = b: nat | b < 256
  type Bytes = seq<Byte>

  function Pow2(k: nat): (p: nat)
    ensures p >= 1
  {
    if k == 0 then 1 else 2 * Pow2(k - 1)
  }

  /** Bitwise exclusive or. */
  function Xor(a: nat, b: nat): nat
    decreases a + b
  {
    if a == 0 && b == 0 then 0 else 2 * Xor(a / 2, b / 2) + (if a % 2 == b % 2 then 0 else 1)
  }

  /** Logical right shift by `k` places. */
  function Shr(a: nat, k: nat): nat
    decreases k
  {
    if k == 0 then a else Shr(a / 2, k - 1)
  }

  /** Bitwise and. */
  function And(a: nat, b: nat): nat
    decreases a + b
  {
    if a == 0 && b == 0 then 0 else 2 * And(a / 2, b / 2) + (if a % 2 == 1 && b % 2 == 1 then 1 else 0)
  }

  lemma Pow2Byte(k: nat)
    ensures Pow2(k + 8) == 256 * Pow2(k)
  {
    assert Pow2(k + 4) == 16 * Pow2(k) by {
      assert Pow2(k + 2) == 4 * Pow2(k);
    }
    assert Pow2(k + 6) == 64 * Pow2(k);
  }

  lemma {:induction false} XorZero(a: nat)
    ensures Xor(a, 0) == a && Xor(0, a) == a
  {
    if a > 0 { XorZero(a / 2); }
  }

  lemma {:induction false} XorSelf(a: nat)
    ensures Xor(a, a) == 0
  {
    if a > 0 { XorSelf(a / 2); }
  }

  lemma {:induction false} XorCommutes(a: nat, b: nat)
    ensures Xor(a, b) == Xor(b, a)
    decreases a + b
  {
    if a + b > 0 { XorCommutes(a / 2, b / 2); }
  }

  /** The low bit and the remaining bits of an exclusive or. */
  lemma XorParts(a: nat, b: nat)
    ensures Xor(a, b) / 2 == Xor(a / 2, b / 2)
    ensures Xor(a, b) % 2 == (if a % 2 == b % 2 then 0 else 1)
  {
  }

  lemma {:induction false} XorAssociates(a: nat, b: nat, c: nat)
    ensures Xor(Xor(a, b), c) == Xor(a, Xor(b, c))
    decreases a + b + c
  {
    if a + b + c > 0 {
      XorAssociates(a / 2, b / 2, c / 2);
      XorParts(a, b);
      XorParts(b, c);
      XorParts(Xor(a, b), c);
      XorParts(a, Xor(b, c));
    }
  }

  /** Xoring twice with the same word is the identity. */
  lemma XorCancels(a: nat, b: nat)
    ensures Xor(Xor(a, b), b) == a
  {
    XorAssociates(a, b, b);
    XorSelf(b);
    XorZero(a);
  }

  lemma XorInjective(a: nat, b: nat, c: nat)
    requires Xor(a, c) == Xor(b, c)
    ensures a == b
  {
    XorCancels(a, c);
    XorCancels(b, c);
  }

  /** `(a ^ b) ^ (c ^ d) == (a ^ c) ^ (b ^ d)`. */
  lemma XorExchange(a: nat, b: nat, c: nat, d: nat)
    ensures Xor(Xor(a, b), Xor(c, d)) == Xor(Xor(a, c), Xor(b, d))
  {
    XorAssociates(a, b, Xor(c, d));
    XorAssociates(b, c, d);
    XorCommutes(b, c);
    XorAssociates(c, b, d);
    XorAssociates(a, c, Xor(b, d));
  }

  lemma {:induction false} XorBound(a: nat, b: nat, k: nat)
    requires a < Pow2(k) && b < Pow2(k)
    ensures Xor(a, b) < Pow2(k)
    decreases k
  {
    if k > 0 { XorBound(a / 2, b / 2, k - 1); }
  }

  lemma SmallMultiple(p: int, d: int)
    requires p > 0 && -p < p * d < p
    ensures d == 0
  {
  }

  /** Numbers less than `c` apart have different residues. */
  lemma SameResidue(a: nat, b: nat, c: nat)
    requires c > 0 && a < b < a + c
    ensures a % c != b % c
  {
    if a % c == b % c {
      assert b - a == c * (b / c - a / c);
      SmallMultiple(c, b / c - a / c);
    }
  }

  lemma DivUnique(a: int, p: int, q: int, r: int)
    requires p > 0 && a == p * q + r && 0 <= r < p
    ensures a / p == q && a % p == r
  {
    var q', r' := a / p, a % p;
    assert p * (q - q') == r' - r;
    SmallMultiple(p, q - q');
  }

  /** A right shift distributes over exclusive or. */
  lemma {:induction false} XorShift(a: nat, b: nat, k: nat)
    ensures Shr(Xor(a, b), k) == Xor(Shr(a, k), Shr(b, k))
    decreases k
  {
    if k > 0 {
      XorParts(a, b);
      XorShift(a / 2, b / 2, k - 1);
    }
  }

  lemma {:induction false} ShrAdds(a: nat, j: nat, k: nat)
    ensures Shr(Shr(a, j), k) == Shr(a, j + k)
    decreases j
  {
    if j > 0 { ShrAdds(a / 2, j - 1, k); }
  }

  /** Shifting out every bit of a word leaves zero. */
  lemma {:induction false} ShrExhausts(a: nat, k: nat)
    requires a < Pow2(k)
    ensures Shr(a, k) == 0
    decreases k
  {
    if k > 0 { ShrExhausts(a / 2, k - 1); }
  }

  lemma {:induction false} ShrShrinks(a: nat, k: nat)
    ensures Shr(a, k) <= a
    decreases k
  {
    if k > 0 { ShrShrinks(a / 2, k - 1); }
  }

  /** Words without common bits are added by exclusive or. */
  lemma {:induction false} XorDisjoint(a: nat, b: nat, k: nat)
    requires b < Pow2(k)
    ensures Xor(Pow2(k) * a, b) == Pow2(k) * a + b
    decreases k
  {
    if k == 0 {
      XorZero(a);
    } else {
      var c := Pow2(k - 1) * a;
      assert Pow2(k) * a == 2 * c;
      assert (2 * c) / 2 == c && (2 * c) % 2 == 0;
      XorDisjoint(a, b / 2, k - 1);
    }
  }

  lemma ModByDouble(a: nat, p: nat)
    requires p > 0
    ensures a % (2 * p) == 2 * ((a / 2) % p) + a % 2
  {
    var q, r := (a / 2) / p, (a / 2) % p;
    assert a == 2 * (p * q + r) + a % 2;
    DivUnique(a, 2 * p, q, 2 * r + a % 2);
  }

  /** Masking with `2^k - 1` keeps the low `k` bits. */
  lemma {:induction false} AndMask(a: nat, k: nat)
    ensures And(a, Pow2(k) - 1) == a % Pow2(k)
    decreases k
  {
    if k == 0 {
      AndZero(a);
    } else {
      var p := Pow2(k - 1);
      AndMask(a / 2, k - 1);
      assert (Pow2(k) - 1) / 2 == p - 1 && (Pow2(k) - 1) % 2 == 1;
      ModByDouble(a, p);
    }
  }

  lemma {:induction false} AndZero(a: nat)
    ensures And(a, 0) == 0
  {
    if a > 0 { AndZero(a / 2); }
  }

  /** A byte string as a little-endian number. */
  function LittleEndian(data: Bytes): nat
  {
    if data == [] then 0 else data[0] + 256 * LittleEndian(data[1..])
  }

  lemma {:induction false} LittleEndianInjective(a: Bytes, b: Bytes)
    requires |a| == |b| && LittleEndian(a) == LittleEndian(b)
    ensures a == b
    decreases |a|
  {
    if a != [] {
      assert a[0] == b[0];
      LittleEndianInjective(a[1..], b[1..]);
      assert a == [a[0]] + a[1..] && b == [b[0]] + b[1..];
    }
  }
}
