/** Known answers that fix the constants: the generator's first draw, the
    polynomial and table of the checksum, and the bytes of one encoding for
    every type tag and every kind of message. */
module KnownAnswers {
  import opened Bits
  import opened Values
  import opened Codec
  import opened Payloads
  import opened Protocol
  import Crc
  import Frames
  import Rng

  // ----------------------------------------------------- exclusive or by hand

  lemma XorUp(a: nat, b: nat, p: nat, q: nat)
    requires p < 2 && q < 2
    ensures Xor(2 * a + p, 2 * b + q) == 2 * Xor(a, b) + (if p == q then 0 else 1)
  {
    assert (2 * a + p) / 2 == a && (2 * b + q) / 2 == b;
    assert (2 * a + p) % 2 == p && (2 * b + q) % 2 == q;
  }

  lemma EmptyXor()
    ensures Xor(0, 0) == 0
  {
  }

  lemma XorFour(a: nat, b: nat, p3: nat, p2: nat, p1: nat, p0: nat, q3: nat, q2: nat, q1: nat, q0: nat)
    requires p3 < 2 && p2 < 2 && p1 < 2 && p0 < 2 && q3 < 2 && q2 < 2 && q1 < 2 && q0 < 2
    ensures Xor(16 * a + 8 * p3 + 4 * p2 + 2 * p1 + p0, 16 * b + 8 * q3 + 4 * q2 + 2 * q1 + q0)
            == 16 * Xor(a, b) + (if p3 == q3 then 0 else 8) + (if p2 == q2 then 0 else 4)
               + (if p1 == q1 then 0 else 2) + (if p0 == q0 then 0 else 1)
  {
    hide Xor;
    XorUp(a, b, p3, q3);
    XorUp(2 * a + p3, 2 * b + q3, p2, q2);
    XorUp(2 * (2 * a + p3) + p2, 2 * (2 * b + q3) + q2, p1, q1);
    XorUp(2 * (2 * (2 * a + p3) + p2) + p1, 2 * (2 * (2 * b + q3) + q2) + q1, p0, q0);
  }

  /** One hexadecimal digit of an exclusive or. */
  function DigitXor(p: nat, q: nat): nat
  {
    (if p % 2 == q % 2 then 0 else 1) + (if p / 2 % 2 == q / 2 % 2 then 0 else 2)
    + (if p / 4 % 2 == q / 4 % 2 then 0 else 4) + (if p / 8 % 2 == q / 8 % 2 then 0 else 8)
  }

  lemma XorDigit(a: nat, b: nat, p: nat, q: nat)
    requires p < 16 && q < 16
    ensures Xor(16 * a + p, 16 * b + q) == 16 * Xor(a, b) + DigitXor(p, q)
  {
    hide Xor;
    Digits(p);
    Digits(q);
    XorFour(a, b, p / 8, p / 4 % 2, p / 2 % 2, p % 2, q / 8, q / 4 % 2, q / 2 % 2, q % 2);
  }

  lemma Digits(p: nat)
    requires p < 16
    ensures p / 8 < 2 && p == 8 * (p / 8) + 4 * (p / 4 % 2) + 2 * (p / 2 % 2) + p % 2 && p / 8 % 2 == p / 8
  {
  }

  lemma {:induction false} ShrDown(a: nat, k: nat, q: nat, r: nat)
    requires r < Pow2(k) && a == Pow2(k) * q + r
    ensures Shr(a, k) == q
    decreases k
  {
    if k > 0 {
      assert Pow2(k) == 2 * Pow2(k - 1);
      var p := Pow2(k - 1);
      assert a == 2 * (p * q) + r;
      assert a / 2 == p * q + r / 2;
      ShrDown(a / 2, k - 1, q, r / 2);
    }
  }

  // ------------------------------------------------------------ the generator

  lemma FirstXor()
    ensures Xor(0x9E37_79B9_7F4A_7C15, 0x2_78DD_E6E5) == 0x9E37_79BB_0797_9AF0
  {
    EmptyXor();
    hide Xor;
    XorDigit(0, 0, 0x9, 0x0);
    XorDigit(0x9, 0, 0xE, 0x0);
    XorDigit(0x9E, 0, 0x3, 0x0);
    XorDigit(0x9E3, 0, 0x7, 0x0);
    XorDigit(0x9E37, 0, 0x7, 0x0);
    XorDigit(0x9_E377, 0, 0x9, 0x0);
    XorDigit(0x9E_3779, 0, 0xB, 0x0);
    XorDigit(0x9E3_779B, 0, 0x9, 0x2);
    XorDigit(0x9E37_79B9, 0x2, 0x7, 0x7);
    XorDigit(0x9_E377_9B97, 0x27, 0xF, 0x8);
    XorDigit(0x9E_3779_B97F, 0x278, 0x4, 0xD);
    XorDigit(0x9E3_779B_97F4, 0x278D, 0xA, 0xD);
    XorDigit(0x9E37_79B9_7F4A, 0x2_78DD, 0x7, 0xE);
    XorDigit(0x9_E377_9B97_F4A7, 0x27_8DDE, 0xC, 0x6);
    XorDigit(0x9E_3779_B97F_4A7C, 0x278_DDE6, 0x1, 0xE);
    XorDigit(0x9E3_779B_97F4_A7C1, 0x278D_DE6E, 0x5, 0x5);
  }

  lemma SecondXor()
    ensures Xor(0x6F68_261B_57E7_A770, 0xD_ED04_C36A) == 0x6F68_2616_BAE3_641A
  {
    EmptyXor();
    hide Xor;
    XorDigit(0, 0, 0x6, 0x0);
    XorDigit(0x6, 0, 0xF, 0x0);
    XorDigit(0x6F, 0, 0x6, 0x0);
    XorDigit(0x6F6, 0, 0x8, 0x0);
    XorDigit(0x6F68, 0, 0x2, 0x0);
    XorDigit(0x6_F682, 0, 0x6, 0x0);
    XorDigit(0x6F_6826, 0, 0x1, 0x0);
    XorDigit(0x6F6_8261, 0, 0xB, 0xD);
    XorDigit(0x6F68_261B, 0xD, 0x5, 0xE);
    XorDigit(0x6_F682_61B5, 0xDE, 0x7, 0xD);
    XorDigit(0x6F_6826_1B57, 0xDED, 0xE, 0x0);
    XorDigit(0x6F6_8261_B57E, 0xDED0, 0x7, 0x4);
    XorDigit(0x6F68_261B_57E7, 0xD_ED04, 0xA, 0xC);
    XorDigit(0x6_F682_61B5_7E7A, 0xDE_D04C, 0x7, 0x3);
    XorDigit(0x6F_6826_1B57_E7A7, 0xDED_04C3, 0x7, 0x6);
    XorDigit(0x6F6_8261_B57E_7A77, 0xDED0_4C36, 0x0, 0xA);
  }

  lemma ThirdXor()
    ensures Xor(0xE220_A838_BF5C_9DDE, 0x1_C441_5071) == 0xE220_A839_7B1D_CDAF
  {
    EmptyXor();
    hide Xor;
    XorDigit(0, 0, 0xE, 0x0);
    XorDigit(0xE, 0, 0x2, 0x0);
    XorDigit(0xE2, 0, 0x2, 0x0);
    XorDigit(0xE22, 0, 0x0, 0x0);
    XorDigit(0xE220, 0, 0xA, 0x0);
    XorDigit(0xE_220A, 0, 0x8, 0x0);
    XorDigit(0xE2_20A8, 0, 0x3, 0x0);
    XorDigit(0xE22_0A83, 0, 0x8, 0x1);
    XorDigit(0xE220_A838, 0x1, 0xB, 0xC);
    XorDigit(0xE_220A_838B, 0x1C, 0xF, 0x4);
    XorDigit(0xE2_20A8_38BF, 0x1C4, 0x5, 0x4);
    XorDigit(0xE22_0A83_8BF5, 0x1C44, 0xC, 0x1);
    XorDigit(0xE220_A838_BF5C, 0x1_C441, 0x9, 0x5);
    XorDigit(0xE_220A_838B_F5C9, 0x1C_4415, 0xD, 0x0);
    XorDigit(0xE2_20A8_38BF_5C9D, 0x1C4_4150, 0xD, 0x7);
    XorDigit(0xE22_0A83_8BF5_C9DD, 0x1C44_1507, 0xE, 0x1);
  }

  lemma Shifts()
    ensures Shr(0x9E37_79B9_7F4A_7C15, 30) == 0x2_78DD_E6E5 && Shr(0x6F68_261B_57E7_A770, 27) == 0xD_ED04_C36A && Shr(0xE220_A838_BF5C_9DDE, 31) == 0x1_C441_5071
  {
    Powers();
    ShrDown(0x9E37_79B9_7F4A_7C15, 30, 0x2_78DD_E6E5, 0x3F4A_7C15);
    ShrDown(0x6F68_261B_57E7_A770, 27, 0xD_ED04_C36A, 0x7E7_A770);
    ShrDown(0xE220_A838_BF5C_9DDE, 31, 0x1_C441_5071, 0x3F5C_9DDE);
  }

  lemma Powers()
    ensures Pow2(27) == 0x800_0000 && Pow2(30) == 0x4000_0000 && Pow2(31) == 0x8000_0000
  {
    Pow2Byte(0);
    Pow2Byte(8);
    Pow2Byte(16);
    assert Pow2(25) == 2 * Pow2(24) && Pow2(26) == 2 * Pow2(25) && Pow2(27) == 2 * Pow2(26);
    assert Pow2(28) == 2 * Pow2(27) && Pow2(29) == 2 * Pow2(28) && Pow2(30) == 2 * Pow2(29) && Pow2(31) == 2 * Pow2(30);
  }

  /** The first draw of splitmix64 from seed 0. */
  lemma FirstDraw()
    ensures Rng.Next(0) == 0x9E37_79B9_7F4A_7C15 && Rng.Mix(Rng.Next(0)) == 0xE220_A839_7B1D_CDAF
  {
    Shifts();
    FirstXor();
    SecondXor();
    ThirdXor();
    hide Xor, Shr;
    assert 0x9E37_79BB_0797_9AF0 * Rng.MUL_A % Rng.W == 0x6F68_261B_57E7_A770;
    assert 0x6F68_2616_BAE3_641A * Rng.MUL_B % Rng.W == 0xE220_A838_BF5C_9DDE;
  }

  // ------------------------------------------------------------- the checksum

  lemma TableXor()
    ensures Xor(0x3B6_E20C, 0xEDB8_8320) == 0xEE0E_612C
  {
    EmptyXor();
    hide Xor;
    XorDigit(0, 0, 0x0, 0xE);
    XorDigit(0, 0xE, 0x3, 0xD);
    XorDigit(0x3, 0xED, 0xB, 0xB);
    XorDigit(0x3B, 0xEDB, 0x6, 0x8);
    XorDigit(0x3B6, 0xEDB8, 0xE, 0x8);
    XorDigit(0x3B6E, 0xE_DB88, 0x2, 0x3);
    XorDigit(0x3_B6E2, 0xED_B883, 0x0, 0x2);
    XorDigit(0x3B_6E20, 0xEDB_8832, 0xC, 0x0);
  }

  /** The generator polynomial of clause 3.2.9 of IEEE 802.3, reflected: the
      term of degree `e` is bit `31 - e`. */
  lemma Polynomial()
    ensures Crc.POLY
            == Pow2(31 - 26) + Pow2(31 - 23) + Pow2(31 - 22) + Pow2(31 - 16) + Pow2(31 - 12) + Pow2(31 - 11) + Pow2(31 - 10)
               + Pow2(31 - 8) + Pow2(31 - 7) + Pow2(31 - 5) + Pow2(31 - 4) + Pow2(31 - 2) + Pow2(31 - 1) + Pow2(31 - 0)
  {
    Pow2Byte(0);
    Pow2Byte(8);
    Pow2Byte(16);
    assert Pow2(5) == 32 && Pow2(9) == 2 * Pow2(8) && Pow2(15) == 128 * Pow2(8) by { Seven(8); }
    assert Pow2(19) == 8 * Pow2(16) && Pow2(20) == 2 * Pow2(19) && Pow2(21) == 2 * Pow2(20) && Pow2(23) == 4 * Pow2(21);
    assert Pow2(26) == 4 * Pow2(24) && Pow2(27) == 2 * Pow2(26);
    assert Pow2(29) == 4 * Pow2(27) && Pow2(30) == 2 * Pow2(29) && Pow2(31) == 2 * Pow2(30);
  }

  lemma Seven(k: nat)
    ensures Pow2(k + 7) == 128 * Pow2(k)
  {
    assert Pow2(k + 2) == 4 * Pow2(k);
    assert Pow2(k + 4) == 4 * Pow2(k + 2);
    assert Pow2(k + 6) == 4 * Pow2(k + 4);
  }

  /** Two entries of the table in section 8 of RFC 1952, and the checksum of
      nothing. */
  lemma TableEntries()
    ensures Crc.Steps(1, 8) == 0x7707_3096 && Crc.Steps(128, 8) == 0xEDB8_8320 && Crc.Checksum([]) == 0
  {
    TableXor();
    XorZero(Crc.POLY);
    XorSelf(Crc.ALL_ONES);
    hide Xor;
    StepsFrom(1, 0xEDB8_8320, 8);
    StepsFrom(0xEDB8_8320, 0x76DC_4190, 7);
    StepsFrom(0x76DC_4190, 0x3B6E_20C8, 6);
    StepsFrom(0x3B6E_20C8, 0x1DB7_1064, 5);
    StepsFrom(0x1DB7_1064, 0x0EDB_8832, 4);
    StepsFrom(0x0EDB_8832, 0x076D_C419, 3);
    StepsFrom(0x076D_C419, 0xEE0E_612C, 2);
    StepsFrom(0xEE0E_612C, 0x7707_3096, 1);
    StepsFrom(128, 64, 8);
    StepsFrom(64, 32, 7);
    StepsFrom(32, 16, 6);
    StepsFrom(16, 8, 5);
    StepsFrom(8, 4, 4);
    StepsFrom(4, 2, 3);
    StepsFrom(2, 1, 2);
    StepsFrom(1, 0xEDB8_8320, 1);
    NoSteps(0x7707_3096);
    NoSteps(0xEDB8_8320);
  }

  lemma StepsFrom(c: nat, d: nat, n: nat)
    requires n > 0 && Crc.BitStep(c) == d
    ensures Crc.Steps(c, n) == Crc.Steps(d, n - 1)
  {
    hide Xor;
  }

  lemma NoSteps(c: nat)
    ensures Crc.Steps(c, 0) == c
  {
  }

  // ------------------------------------------------------------ the wire

  /** A small 64-bit word, little end first. */
  lemma Word(n: nat)
    requires n < 256
    ensures PutU64(n) == [n, 0, 0, 0, 0, 0, 0, 0] && PutU16(n) == [n, 0] && PutU32(n) == [n, 0, 0, 0]
  {
    assert PutUint(0, 1) == [0] && PutUint(0, 2) == [0, 0] && PutUint(0, 3) == [0, 0, 0];
    assert PutUint(0, 5) == [0, 0, 0, 0, 0];
    assert PutUint(0, 7) == [0, 0, 0, 0, 0, 0, 0];
  }

  function Letter(): Str
  {
    assert Utf8([65]);
    [65]
  }

  const SEVEN: Bytes := [7, 0, 0, 0, 0, 0, 0, 0]
  const NONE: Bytes := [0, 0, 0, 0, 0, 0, 0, 0]
  const LETTER: Bytes := [1, 0, 0, 0, 0, 0, 0, 0, 65]

  lemma Pieces()
    ensures PutU64(7) == SEVEN && PutU64(0) == NONE && PutStr(Letter()) == LETTER && PutU16(1) == [1, 0]
    ensures PutBool(true) == [1] && PutBool(false) == [0]
  {
    Word(7);
    Word(0);
    Word(1);
  }

  lemma {:induction false} Low(n: nat, b: nat, rest: nat, k: nat)
    requires b < 256 && n == 256 * rest + b
    ensures PutUint(n, k + 1) == [b] + PutUint(rest, k)
  {
    assert n % 256 == b && n / 256 == rest;
  }

  lemma Narrow()
    ensures PutUint(0x0102, 2) == [2, 1] && PutUint(0x0102_0304, 4) == [4, 3, 2, 1]
    ensures PutUint(0x0102_0304_0506_0708, 8) == [8, 7, 6, 5, 4, 3, 2, 1]
  {
    assert PutUint(0, 0) == [];
    hide PutUint;
    Low(1, 1, 0, 0);
    Low(0x0102, 2, 0x01, 1);
    Low(0x0102_03, 3, 0x0102, 2);
    Low(0x0102_0304, 4, 0x0102_03, 3);
    Low(0x0102_0304_05, 5, 0x0102_0304, 4);
    Low(0x0102_0304_0506, 6, 0x0102_0304_05, 5);
    Low(0x0102_0304_0506_07, 7, 0x0102_0304_0506, 6);
    Low(0x0102_0304_0506_0708, 8, 0x0102_0304_0506_07, 7);
  }

  lemma Negative()
    ensures PutUint(0xFE, 1) == [254] && PutUint(0xFFFE, 2) == [254, 255] && PutUint(0xFFFF_FFFE, 4) == [254, 255, 255, 255]
    ensures PutUint(0xFFFF_FFFF_FFFF_FFFE, 8) == [254, 255, 255, 255, 255, 255, 255, 255]
  {
    assert PutUint(0, 0) == [];
    hide PutUint;
    Low(0xFE, 254, 0, 0);
    Low(0xFF, 255, 0, 0);
    Low(0xFFFE, 254, 0xFF, 1);
    Low(0xFFFF, 255, 0xFF, 1);
    Low(0xFF_FFFF, 255, 0xFFFF, 2);
    Low(0xFFFF_FFFE, 254, 0xFF_FFFF, 3);
    Low(0xFFFF_FFFF, 255, 0xFF_FFFF, 3);
    Low(0xFF_FFFF_FFFF, 255, 0xFFFF_FFFF, 4);
    Low(0xFFFF_FFFF_FFFF, 255, 0xFF_FFFF_FFFF, 5);
    Low(0xFF_FFFF_FFFF_FFFF, 255, 0xFFFF_FFFF_FFFF, 6);
    Low(0xFFFF_FFFF_FFFF_FFFE, 254, 0xFF_FFFF_FFFF_FFFF, 7);
  }

  /** One value of every type. */
  lemma SignedBytes()
    ensures PutValue(I8Value(-2)) == [1, 254]
    ensures PutValue(I16Value(-2)) == [2, 254, 255]
    ensures PutValue(I32Value(-2)) == [3, 254, 255, 255, 255]
    ensures PutValue(I64Value(-2)) == [4, 254, 255, 255, 255, 255, 255, 255, 255]
  {
    Widths();
    Negative();
    hide PutUint, Pow256;
  }

  lemma UnsignedBytes()
    ensures PutValue(Bool(true)) == [0, 1] && PutValue(U8Value(7)) == [5, 7]
    ensures PutValue(U16Value(0x0102)) == [6, 2, 1]
    ensures PutValue(U32Value(0x0102_0304)) == [7, 4, 3, 2, 1]
    ensures PutValue(U64Value(0x0102_0304_0506_0708)) == [8, 8, 7, 6, 5, 4, 3, 2, 1]
    ensures PutValue(F32Value(0x0102_0304)) == [9, 4, 3, 2, 1]
    ensures PutValue(F64Value(0x0102_0304_0506_0708)) == [10, 8, 7, 6, 5, 4, 3, 2, 1]
  {
    Narrow();
    hide PutUint, Pow256;
  }

  lemma TextBytes()
    ensures PutValue(StringValue(Letter())) == [11] + LETTER
    ensures PutValue(BytesValue([65])) == [12] + LETTER
  {
    Pieces();
    hide PutUint, Pow256;
  }

  /** One client message of every kind. */
  lemma ClientBytes()
    ensures var m := Handshake(1, Letter()); ClientKind(m) == 0x01 && PutClient(m) == [1, 0] + LETTER
    ensures var m := Authenticate(Letter()); ClientKind(m) == 0x02 && PutClient(m) == LETTER
    ensures var m := AttachWorld(7); ClientKind(m) == 0x03 && PutClient(m) == SEVEN
    ensures var m := Input(InputFrame(7, [])); ClientKind(m) == 0x04 && PutClient(m) == SEVEN + NONE
    ensures var m := Subscribe(7, Query(Letter(), [], None, None, None));
      ClientKind(m) == 0x05 && PutClient(m) == SEVEN + LETTER + NONE + [0, 0, 0]
    ensures var m := Unsubscribe(7); ClientKind(m) == 0x06 && PutClient(m) == SEVEN
    ensures var m := Resync(7); ClientKind(m) == 0x07 && PutClient(m) == SEVEN
    ensures var m := Ping(7); ClientKind(m) == 0x08 && PutClient(m) == SEVEN
    ensures ClientKind(DetachWorld) == 0x09 && PutClient(DetachWorld) == []
    ensures var m := CallReducer(7, Letter(), []); ClientKind(m) == 0x0A && PutClient(m) == SEVEN + LETTER + NONE
  {
    Pieces();
    hide PutU64, PutStr, PutU16;
    Empties();
  }

  lemma Empties()
    ensures PutList([], PutCommand) == PutU64(0) && PutList([], PutPredicate) == PutU64(0) && PutArgs([]) == PutU64(0)
    ensures PutList([], PutChange) == PutU64(0) && PutList([], PutNamed) == PutU64(0)
    ensures PutList([], PutDelivered) == PutU64(0) && PutList([], PutDelta) == PutU64(0)
  {
  }

  /** One server message of every kind. */
  lemma SessionBytes()
    ensures var m := HandshakeResponse(1, Letter()); ServerKind(m) == 0x81 && PutServer(m) == [1, 0] + LETTER
    ensures var m := AuthResult(true, Some(Principal(7, Letter())), None);
      ServerKind(m) == 0x82 && PutServer(m) == [1] + SEVEN + LETTER
    ensures var m := AttachResult(true, Some(7), None); ServerKind(m) == 0x83 && PutServer(m) == [1] + SEVEN
    ensures var m := DetachResult(true, None); ServerKind(m) == 0x8B && PutServer(m) == [1]
  {
    Pieces();
    hide PutU64, PutStr, PutU16, PutBool, Ascii;
  }

  lemma UpdateBytes()
    ensures var m := TickUpdate(7, 0, 7, [], []); ServerKind(m) == 0x84 && PutServer(m) == SEVEN + NONE + SEVEN + NONE + NONE
    ensures var m := Snapshot(7, 0, 7, []); ServerKind(m) == 0x85 && PutServer(m) == SEVEN + NONE + SEVEN + NONE
    ensures var m := DeltaBatch(7, 0, []); ServerKind(m) == 0x8D && PutServer(m) == SEVEN + NONE + NONE
  {
    Pieces();
    Empties();
    hide PutU64, PutList, Ascii;
  }

  lemma DeltaBytes()
    ensures var m := SubscriptionDelta(7, Delta(0, DeleteKind, 7, None));
      ServerKind(m) == 0x86 && PutServer(m) == SEVEN + NONE + [3] + SEVEN
    ensures var m := Stale(7, 0); ServerKind(m) == 0x87 && PutServer(m) == SEVEN + NONE
  {
    Pieces();
    hide PutU64, Ascii;
  }

  lemma ReplyBytes()
    ensures var m := Error(1, Letter(), 7); ServerKind(m) == 0x88 && PutServer(m) == [1, 0] + LETTER + SEVEN
    ensures ServerKind(Pong(7)) == 0x89 && PutServer(Pong(7)) == SEVEN
    ensures ServerKind(Disconnect(Letter())) == 0x8A && PutServer(Disconnect(Letter())) == LETTER
  {
    Pieces();
    hide PutU64, PutStr, PutU16, Ascii;
  }

  lemma ResultBytes()
    ensures var m := ReducerResult(7, true, Some(Bool(true)), None);
      ServerKind(m) == 0x8C && PutServer(m) == SEVEN + [1] + [0, 1]
    ensures var m := ReducerResult(7, false, None, Some(Letter())); PutServer(m) == SEVEN + [0] + LETTER
  {
    Pieces();
    UnsignedBytes();
    hide PutU64, PutStr, PutValue, PutBool, Ascii;
  }

  /** A whole frame: magic, version, kind, length, payload, and the checksum of
      version, kind and payload. */
  lemma FrameBytes()
    ensures Frames.FrameOf(0x08, SEVEN) ==
      [0x4E, 0x45, 0x58, 0x4E] + [2, 0] + [8] + [8, 0, 0, 0] + SEVEN + PutUint(Crc.Checksum([2, 0] + [8] + SEVEN), W4)
  {
    Word(2);
    Word(8);
    hide PutUint, PutU64, PutU16, PutU32, Crc.Checksum, Ascii;
  }

  /** The tags inside messages. */
  lemma Tags()
    ensures ComparisonTag(Eq) == 0 && ComparisonTag(Ne) == 1 && ComparisonTag(Lt) == 2
    ensures ComparisonTag(Lte) == 3 && ComparisonTag(Gt) == 4 && ComparisonTag(Gte) == 5
    ensures KindTag(InsertKind) == 1 && KindTag(UpdateKind) == 2 && KindTag(DeleteKind) == 3
    ensures PutOrder(Order(Letter(), Ascending)) == LETTER + [0] && PutOrder(Order(Letter(), Descending)) == LETTER + [1]
  {
    Pieces();
  }
}
