/** The deterministic random generator (`crates/nexum-execution/src/rng.rs`):
    splitmix64 with Lemire's rejection method, on 64-bit words modelled as
    naturals below `W`. */
module Rng {
  import opened Bits
  import Sets

  const W: nat := 0x1_0000_0000_0000_0000
  const GAMMA: nat := 0x9E37_79B9_7F4A_7C15
  const MUL_A: nat := 0xBF58_476D_1CE4_E5B9
  const MUL_B: nat := 0x94D0_49BB_1331_11EB

  const WORD_BITS: nat := 64
  const SHIFT_A: nat := 30
  const SHIFT_B: nat := 27
  const SHIFT_C: nat := 31

  // Multiplicative inverses modulo 2^64; used by proofs only.
  const GAMMA_INVERSE: nat := 0xF1DE_83E1_9937_733D
  const MUL_A_INVERSE: nat := 0x96DE_1B17_3F11_9089
  const MUL_B_INVERSE: nat := 0x3196_42B2_D24D_8EC3

  type Word = x: nat | x < W

  lemma WordSize()
    ensures Pow2(WORD_BITS) == W
  {
    Pow2Byte(0);
    Pow2Byte(8);
    Pow2Byte(16);
    Pow2Byte(24);
    Pow2Byte(32);
    Pow2Byte(40);
    Pow2Byte(48);
    Pow2Byte(56);
  }

  // ------------------------------------------------------------- mixing

  function Wrap(x: int): (w: Word) { x % W }

  function XorShr(z: nat, s: nat): nat { Xor(z, Shr(z, s)) }

  /** The inverse of `XorShr` for shifts of at least a third of a word. */
  function UnxorShr(w: nat, s: nat): nat { Xor(Xor(w, Shr(w, s)), Shr(w, 2 * s)) }

  lemma XorShrFits(z: Word, s: nat)
    ensures XorShr(z, s) < W && UnxorShr(z, s) < W
  {
    WordSize();
    ShrShrinks(z, s);
    ShrShrinks(z, 2 * s);
    XorBound(z, Shr(z, s), WORD_BITS);
    XorBound(Xor(z, Shr(z, s)), Shr(z, 2 * s), WORD_BITS);
  }

  lemma XorShrInverse(z: Word, s: nat)
    requires 3 * s >= WORD_BITS
    ensures XorShr(UnxorShr(z, s), s) == z
    ensures UnxorShr(XorShr(z, s), s) == z
  {
    var p, q := Shr(z, s), Shr(z, 2 * s);
    ShrAdds(z, s, s);
    ShrAdds(z, 2 * s, s);
    ShrAdds(z, s, 2 * s);
    assert Shr(z, 3 * s) == 0 by {
      WordSize();
      ShrExhausts(z, WORD_BITS);
      ShrAdds(z, WORD_BITS, 3 * s - WORD_BITS);
      ShrShrinks(0, 3 * s - WORD_BITS);
    }
    XorShift(Xor(z, p), q, s);
    XorShift(z, p, s);
    XorShift(z, p, 2 * s);
    XorZero(Xor(p, q));
    XorZero(q);
    XorTelescopes(z, p, q);
  }

  lemma XorTelescopes(z: nat, p: nat, q: nat)
    ensures Xor(Xor(Xor(z, p), q), Xor(p, q)) == z
    ensures Xor(Xor(Xor(z, p), Xor(p, q)), q) == z
  {
    XorAssociates(z, p, q);
    XorCancels(z, Xor(p, q));
    XorAssociates(Xor(z, p), Xor(p, q), q);
    XorCancels(p, q);
    XorCancels(z, p);
  }

  lemma MulInverse(z: Word, c: nat, d: nat)
    requires (c * d) % W == 1
    ensures Wrap(Wrap(z * c) * d) == z
  {
    var q, r, m := (z * c) / W, (z * c) % W, (c * d) / W;
    assert z * c == W * q + r;
    assert c * d == W * m + 1;
    calc {
      r * d;
      (z * c - W * q) * d;
      z * (c * d) - W * q * d;
      z * (W * m + 1) - W * q * d;
      W * (z * m - q * d) + z;
    }
    DivUnique(r * d, W, z * m - q * d, z);
  }

  lemma Inverses()
    ensures (GAMMA * GAMMA_INVERSE) % W == 1
    ensures (MUL_A * MUL_A_INVERSE) % W == 1 && (MUL_A_INVERSE * MUL_A) % W == 1
    ensures (MUL_B * MUL_B_INVERSE) % W == 1 && (MUL_B_INVERSE * MUL_B) % W == 1
  {
  }

  /** The output mix of `next_u64`. */
  function Mix(z: Word): (x: Word)
  {
    XorShrFits(z, SHIFT_A);
    var a := Wrap(XorShr(z, SHIFT_A) * MUL_A);
    XorShrFits(a, SHIFT_B);
    var b := Wrap(XorShr(a, SHIFT_B) * MUL_B);
    XorShrFits(b, SHIFT_C);
    XorShr(b, SHIFT_C)
  }

  ghost function Unmix(x: Word): (z: Word)
  {
    XorShrFits(x, SHIFT_C);
    var b := Wrap(UnxorShr(x, SHIFT_C) * MUL_B_INVERSE);
    XorShrFits(b, SHIFT_B);
    var a := Wrap(UnxorShr(b, SHIFT_B) * MUL_A_INVERSE);
    XorShrFits(a, SHIFT_A);
    UnxorShr(a, SHIFT_A)
  }

  /** The mix is a bijection on 64-bit words. */
  lemma MixBijective(x: Word)
    ensures Mix(Unmix(x)) == x
    ensures Unmix(Mix(x)) == x
  {
    Inverses();
    UnmixThenMix(x);
    MixThenUnmix(x);
  }

  lemma UnmixThenMix(x: Word)
    ensures Mix(Unmix(x)) == x
  {
    Inverses();
    XorShrFits(x, SHIFT_C);
    XorShrInverse(x, SHIFT_C);
    var u := UnxorShr(x, SHIFT_C);
    var b := Wrap(u * MUL_B_INVERSE);
    MulInverse(u, MUL_B_INVERSE, MUL_B);
    XorShrFits(b, SHIFT_B);
    XorShrInverse(b, SHIFT_B);
    var v := UnxorShr(b, SHIFT_B);
    var a := Wrap(v * MUL_A_INVERSE);
    MulInverse(v, MUL_A_INVERSE, MUL_A);
    XorShrInverse(a, SHIFT_A);
  }

  lemma MixThenUnmix(z: Word)
    ensures Unmix(Mix(z)) == z
  {
    Inverses();
    XorShrFits(z, SHIFT_A);
    XorShrInverse(z, SHIFT_A);
    var u := XorShr(z, SHIFT_A);
    var a := Wrap(u * MUL_A);
    MulInverse(u, MUL_A, MUL_A_INVERSE);
    XorShrFits(a, SHIFT_B);
    XorShrInverse(a, SHIFT_B);
    var v := XorShr(a, SHIFT_B);
    var b := Wrap(v * MUL_B);
    MulInverse(v, MUL_B, MUL_B_INVERSE);
    XorShrInverse(b, SHIFT_C);
  }

  // -------------------------------------------------------------- states

  /** One step of the state: an odd increment modulo 2^64. */
  function Next(s: Word): (s': Word) { Wrap(s + GAMMA) }

  function Iterate(s: Word, n: nat): (s': Word)
    decreases n
  {
    if n == 0 then s else Iterate(Next(s), n - 1)
  }

  /** The number of steps (below 2^64) from state `s` to state `t`. */
  ghost function Distance(s: Word, t: Word): (d: Word) { Wrap((t - s) * GAMMA_INVERSE) }

  lemma ModPlusMultiple(a: int, k: int)
    ensures (a + W * k) % W == a % W
  {
    DivUnique(a + W * k, W, a / W + k, a % W);
  }

  /** A step from `s` brings every other state one step closer. */
  lemma DistanceStep(s: Word, t: Word)
    ensures Distance(s, t) == 0 ==> s == t
    ensures Distance(s, t) > 0 ==> Distance(Next(s), t) == Distance(s, t) - 1
  {
    Inverses();
    var m := (GAMMA * GAMMA_INVERSE) / W;
    var d := (t - s) * GAMMA_INVERSE;
    if Distance(s, t) == 0 {
      // (t - s) * g' is a multiple of 2^64, hence so is t - s.
      var k := d / W;
      assert d * GAMMA == W * (k * GAMMA) by { assert d == W * k; }
      assert d * GAMMA == (t - s) * (W * m + 1) by { assert GAMMA * GAMMA_INVERSE == W * m + 1; }
      assert t - s == W * (k * GAMMA - (t - s) * m);
      SmallMultiple(W, k * GAMMA - (t - s) * m);
    } else {
      var q := (s + GAMMA) / W;
      assert Next(s) == s + GAMMA - W * q;
      var d' := (t - Next(s)) * GAMMA_INVERSE;
      assert d' == d - 1 + W * (q * GAMMA_INVERSE - m);
      ModPlusMultiple(d - 1, q * GAMMA_INVERSE - m);
      DivUnique(d - 1, W, d / W, d % W - 1);
    }
  }

  /** The generator visits every state within one period, from every seed. */
  lemma {:induction false} VisitsEveryState(s: Word, t: Word)
    ensures Iterate(s, Distance(s, t)) == t
    decreases Distance(s, t)
  {
    DistanceStep(s, t);
    if Distance(s, t) > 0 { VisitsEveryState(Next(s), t); }
  }

  // ------------------------------------------------------ bounded draws

  function High(x: Word, bound: nat): nat { (x * bound) / W }
  function Low(x: Word, bound: nat): nat { (x * bound) % W }

  /** Lemire's acceptance test: the low product half reaches `2^64 mod bound`. */
  predicate Accepted(x: Word, bound: nat)
    requires bound > 0
  {
    Low(x, bound) >= W % bound
  }

  /** A state whose output is 1. Its product with any bound is accepted. */
  ghost function Home(): (h: Word)
    ensures Mix(h) == 1
  {
    MixBijective(1);
    var h: Word :| Mix(h) == 1;
    h
  }

  lemma OneAccepted(x: Word, bound: nat)
    requires 0 < bound < W && x == 1
    ensures Accepted(x, bound)
  {
  }

  lemma HomeAccepted(bound: nat)
    requires 0 < bound < W
    ensures Accepted(Mix(Home()), bound)
  {
    OneAccepted(Mix(Home()), bound);
  }

  /** How many draws `next_below` takes from state `s`. */
  ghost function Draws(s: Word, bound: nat): (n: nat)
    requires 0 < bound < W
    ensures 1 <= n <= Distance(Next(s), Home()) + 1
    ensures Accepted(Mix(Iterate(s, n)), bound)
    ensures forall k :: 1 <= k < n ==> !Accepted(Mix(Iterate(s, k)), bound)
    decreases Distance(Next(s), Home())
  {
    var s' := Next(s);
    DistanceStep(s', Home());
    HomeAccepted(bound);
    assert Iterate(s, 1) == s';
    if Accepted(Mix(s'), bound) then 1
    else
      var n := Draws(s', bound);
      assert forall k :: 2 <= k < n + 1 ==> Iterate(s, k) == Iterate(s', k - 1);
      n + 1
  }

  class DeterministicRng {
    var state: Word

    constructor (seed: Word)
      ensures state == seed
    {
      state := seed;
    }

    method NextU64() returns (x: Word)
      modifies this
      ensures state == Next(old(state)) && x == Mix(state)
      ensures Unmix(x) == state
    {
      hide Mix, Unmix;
      state := Wrap(state + GAMMA);
      x := Mix(state);
      MixBijective(state);
    }

    /** Returns the high half of the first accepted draw. The loop ends for
        every seed and bound because the state reaches `Home` within a period. */
    method NextBelow(bound: nat) returns (v: Word)
      requires 0 < bound < W
      modifies this
      ensures state == Iterate(old(state), Draws(old(state), bound))
      ensures v == High(Mix(state), bound) < bound
    {
      hide Mix, Home, Draws, Distance;
      ghost var start, n := state, 1;
      assert Iterate(start, 1) == Next(start);
      var x := NextU64();
      var wide := x * bound;
      var low := wide % W;
      if low < bound {
        // Reject the small biased region.
        var threshold := Threshold(bound);
        while low < threshold
          invariant 1 <= n <= Draws(start, bound)
          invariant state == Iterate(start, n) && x == Mix(state)
          invariant wide == x * bound && low == Low(x, bound)
          decreases Distance(state, Home())
        {
          Rejection(start, bound, n);
          x := NextU64();
          wide := x * bound;
          low := wide % W;
          n := n + 1;
        }
      } else {
        ThresholdBelow(bound);
      }
      Acceptance(start, bound, n, x);
      v := wide / W;
    }
  }

  /** `bound.wrapping_neg() % bound`, which is `2^64 mod bound`. */
  function Threshold(bound: nat): (t: nat)
    requires 0 < bound < W
    ensures t == W % bound
  {
    DivUnique(W - bound, bound, W / bound - 1, W % bound);
    Wrap(W - bound) % bound
  }

  lemma ThresholdBelow(bound: nat)
    requires 0 < bound
    ensures W % bound < bound
  {
  }

  lemma RejectedAway(s: Word, bound: nat)
    requires 0 < bound < W && !Accepted(Mix(s), bound)
    ensures s != Home()
  {
    HomeAccepted(bound);
  }

  /** After a rejected draw another one follows, one step closer to `Home`. */
  lemma Rejection(s: Word, bound: nat, n: nat)
    requires 0 < bound < W && 1 <= n <= Draws(s, bound)
    requires !Accepted(Mix(Iterate(s, n)), bound)
    ensures Iterate(s, n + 1) == Next(Iterate(s, n))
    ensures n + 1 <= Draws(s, bound)
    ensures Distance(Next(Iterate(s, n)), Home()) < Distance(Iterate(s, n), Home())
  {
    hide Mix, Home, Draws;
    var s' := Iterate(s, n);
    IterateStep(s, n);
    RejectedAway(s', bound);
    DistanceStep(s', Home());
  }

  lemma {:induction false} IterateStep(s: Word, n: nat)
    ensures Iterate(s, n + 1) == Next(Iterate(s, n))
    decreases n
  {
    if n > 0 { IterateStep(Next(s), n - 1); }
  }

  lemma Acceptance(s: Word, bound: nat, n: nat, x: Word)
    requires 0 < bound < W && 1 <= n <= Draws(s, bound)
    requires x == Mix(Iterate(s, n)) && Accepted(x, bound)
    ensures n == Draws(s, bound)
    ensures High(x, bound) < bound
  {
    HighBound(x, bound);
  }

  lemma HighBound(x: Word, bound: nat)
    requires 0 < bound
    ensures High(x, bound) < bound
  {
    MulMonotone(x, W - 1, bound);
  }

  lemma MulMonotone(a: int, b: int, c: int)
    requires a <= b && c >= 0
    ensures a * c <= b * c
  {
    assert (b - a) * c >= 0;
  }

  // ----------------------------------------------------------- unbiased

  ghost function Interval(lo: int, size: nat): (r: set<int>)
    ensures forall x :: x in r <==> lo <= x < lo + size
    ensures |r| == size
  {
    if size == 0 then {} else Interval(lo, size - 1) + {lo + size - 1}
  }

  /** The accepted draws that `next_below` maps to `v`. */
  ghost function DrawsOf(v: nat, bound: nat): set<int>
    requires bound > 0
  {
    set x | 0 <= x < W && Accepted(x, bound) && High(x, bound) == v
  }

  /** Every value below the bound has exactly `2^64 / bound` accepted draws. */
  lemma Unbiased(v: nat, bound: nat)
    requires 0 < bound < W && v < bound
    ensures |DrawsOf(v, bound)| == W / bound
  {
    var q, t := W / bound, W % bound;
    var m := v * W + t;
    var lo := (m + bound - 1) / bound;
    forall x: int
      ensures x in DrawsOf(v, bound) <==> lo <= x < lo + q
    {
      DrawInterval(x, v, bound);
    }
    assert DrawsOf(v, bound) == Interval(lo, q);
  }

  lemma CeilDivision(x: int, m: int, b: int)
    requires b > 0
    ensures x * b >= m <==> x >= (m + b - 1) / b
  {
    var c := (m + b - 1) / b;
    var r := (m + b - 1) % b;
    assert b * c == m + b - 1 - r;
    if x >= c { MulMonotone(c, x, b); } else { MulMonotone(x, c - 1, b); }
  }

  lemma HalvesInterval(p: int, v: int, t: int)
    requires 0 <= t
    ensures (p / W == v && p % W >= t) <==> v * W + t <= p < (v + 1) * W
  {
  }

  lemma DrawInterval(x: int, v: nat, bound: nat)
    requires 0 < bound < W && v < bound
    ensures x in DrawsOf(v, bound)
            <==> (v * W + W % bound + bound - 1) / bound <= x
                 < (v * W + W % bound + bound - 1) / bound + W / bound
  {
    var q, t, p := W / bound, W % bound, x * bound;
    var m := v * W + t;
    CeilDivision(x, m, bound);
    CeilDivision(x - q, m, bound);
    assert (x - q) * bound == p - (W - t) by { assert q * bound == W - t; }
    HalvesInterval(p, v, t);
    if m <= p < (v + 1) * W { InRange(x, v, bound); }
  }

  lemma InRange(x: int, v: nat, bound: nat)
    requires 0 < bound && v < bound && 0 <= x * bound < (v + 1) * W
    ensures 0 <= x < W
  {
    if x < 0 { MulMonotone(x, -1, bound); }
    if x >= W { MulMonotone(W, x, bound); }
  }

  /** The seeds whose first draw is accepted and maps to `v`. */
  ghost function SeedsOf(v: nat, bound: nat): set<int>
    requires bound > 0
  {
    set s | 0 <= s < W && Accepted(Mix(Next(s)), bound) && High(Mix(Next(s)), bound) == v
  }

  ghost function Prev(s: Word): Word { Wrap(s - GAMMA) }

  lemma PrevNext(s: Word)
    ensures Next(Prev(s)) == s && Prev(Next(s)) == s
  {
    var q := (s - GAMMA) / W;
    DivUnique(s, W, 0, s);
    ModPlusMultiple(s, -q);
    var q' := (s + GAMMA) / W;
    ModPlusMultiple(s, -q');
  }

  /** Over all seeds the first draw is exactly uniform as well. */
  lemma UnbiasedOverSeeds(v: nat, bound: nat)
    requires 0 < bound < W && v < bound
    ensures |SeedsOf(v, bound)| == W / bound
  {
    Unbiased(v, bound);
    var seed := (x: int) => if 0 <= x < W then Prev(Unmix(x)) else 0;
    var draw := (s: int) => if 0 <= s < W then Mix(Next(s)) else 0;
    var draws, seeds := DrawsOf(v, bound), SeedsOf(v, bound);
    forall x | x in draws
      ensures seed(x) in seeds && draw(seed(x)) == x
    {
      MixBijective(x);
      PrevNext(Unmix(x));
    }
    forall s | s in seeds
      ensures draw(s) in draws && seed(draw(s)) == s
    {
      MixBijective(Next(s));
      PrevNext(s);
    }
    Sets.BijectionSize(draws, seeds, seed, draw);
  }
}
