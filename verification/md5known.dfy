/** What MD5 computes: its four functions bit by bit, the order of the words, and two
    digests of section A.5 of RFC 1321, step by step. */
module KnownDigests {
  import opened Md5

  // ---- the four functions ----

  predicate BitAt(x: bv32, k: bv32)
    requires k < 32
  {
    (x >> k) & 1 == 1
  }

  lemma AndAt(a: bv32, b: bv32, k: bv32)
    requires k < 32
    ensures BitAt(And(a, b), k) <==> BitAt(a, k) && BitAt(b, k)
  {
  }

  lemma OrAt(a: bv32, b: bv32, k: bv32)
    requires k < 32
    ensures BitAt(Or(a, b), k) <==> BitAt(a, k) || BitAt(b, k)
  {
  }

  lemma ShiftXor(a: bv32, b: bv32, k: bv32)
    requires k < 32
    ensures (a ^ b) >> k == (a >> k) ^ (b >> k)
  {
  }

  lemma LastBit(x: bv32, y: bv32)
    ensures (x ^ y) & 1 == 1 <==> ((x & 1 == 1) != (y & 1 == 1))
  {
  }

  lemma XorAt(a: bv32, b: bv32, k: bv32)
    requires k < 32
    ensures BitAt(Xor(a, b), k) <==> (BitAt(a, k) != BitAt(b, k))
  {
    ShiftXor(a, b, k);
    LastBit(a >> k, b >> k);
  }

  lemma NotAt(a: bv32, k: bv32)
    requires k < 32
    ensures BitAt(Not(a), k) <==> !BitAt(a, k)
  {
  }

  lemma MixIs(x: bv32, y: bv32, z: bv32)
    ensures Mix(0, x, y, z) == Or(And(x, y), And(Not(x), z)) && Mix(1, x, y, z) == Or(And(x, z), And(y, Not(z)))
    ensures Mix(2, x, y, z) == Xor(Xor(x, y), z) && Mix(3, x, y, z) == Xor(y, Or(x, Not(z)))
  {
    hide And, Or, Xor, Not;
  }

  /** F chooses y or z by x, G chooses x or y by z, H is parity, and I turns y over where x
      is set or z is not. */
  lemma MixBits(x: bv32, y: bv32, z: bv32, k: bv32)
    requires k < 32
    ensures BitAt(Mix(0, x, y, z), k) <==> if BitAt(x, k) then BitAt(y, k) else BitAt(z, k)
    ensures BitAt(Mix(1, x, y, z), k) <==> if BitAt(z, k) then BitAt(x, k) else BitAt(y, k)
    ensures BitAt(Mix(2, x, y, z), k) <==> ((BitAt(x, k) != BitAt(y, k)) != BitAt(z, k))
    ensures BitAt(Mix(3, x, y, z), k) <==> (BitAt(y, k) != (BitAt(x, k) || !BitAt(z, k)))
  {
    hide *;
    MixIs(x, y, z);
    NotAt(x, k);
    NotAt(z, k);
    AndAt(x, y, k);
    AndAt(Not(x), z, k);
    OrAt(And(x, y), And(Not(x), z), k);
    AndAt(x, z, k);
    AndAt(y, Not(z), k);
    OrAt(And(x, z), And(y, Not(z)), k);
    XorAt(x, y, k);
    XorAt(Xor(x, y), z, k);
    OrAt(x, Not(z), k);
    XorAt(y, Or(x, Not(z)), k);
  }

  /** Step j of round r adds word k. */
  predicate Adds(r: nat, j: nat, k: nat) {
    r < 4 && j < 16 && WordIndex(16 * r + j) == k
  }

  /** Every round adds each word of the block exactly once. */
  lemma EachWordOnce(r: nat, k: nat)
    requires r < 4 && k < 16
    ensures exists j :: Adds(r, j, k) && forall i :: Adds(r, i, k) ==> i == j
  {
    var j := if r == 0 then k else if r == 1 then (13 * k + 3) % 16 else if r == 2 then (11 * k + 9) % 16 else 7 * k % 16;
    forall i: nat | i < 16 ensures Adds(r, i, k) <==> i == j {
      WordPlace(r, i, k);
    }
    assert Adds(r, j, k);
  }

  lemma WordPlace(r: nat, i: nat, k: nat)
    requires r < 4 && k < 16 && i < 16
    ensures Adds(r, i, k) <==> i == if r == 0 then k else if r == 1 then (13 * k + 3) % 16 else if r == 2 then (11 * k + 9) % 16 else 7 * k % 16
  {
    if r == 1 {
      Second(i, k);
    } else if r == 2 {
      Third(i, k);
    } else if r == 3 {
      Fourth(i, k);
    }
  }

  lemma Remainder(x: nat, q: int, r: nat)
    requires r < 16
    ensures x == 16 * q + r <==> x % 16 == r && x / 16 == q
  {
  }

  lemma Second(i: nat, k: nat)
    requires i < 16 && k < 16
    ensures (5 * (16 + i) + 1) % 16 == k <==> i == (13 * k + 3) % 16
  {
    var u, w := (5 * i + 81) / 16, (13 * k + 3) / 16;
    Remainder(5 * i + 81, u, (5 * i + 81) % 16);
    Remainder(13 * k + 3, w, (13 * k + 3) % 16);
    if (5 * i + 81) % 16 == k { Remainder(13 * k + 3, 4 * i + 66 - 13 * u, i); }
    if (13 * k + 3) % 16 == i { Remainder(5 * i + 81, 4 * k + 6 - 5 * w, k); }
  }

  lemma Third(i: nat, k: nat)
    requires i < 16 && k < 16
    ensures (3 * (32 + i) + 5) % 16 == k <==> i == (11 * k + 9) % 16
  {
    var u, w := (3 * i + 101) / 16, (11 * k + 9) / 16;
    Remainder(3 * i + 101, u, (3 * i + 101) % 16);
    Remainder(11 * k + 9, w, (11 * k + 9) % 16);
    if (3 * i + 101) % 16 == k { Remainder(11 * k + 9, 2 * i + 70 - 11 * u, i); }
    if (11 * k + 9) % 16 == i { Remainder(3 * i + 101, 2 * k + 8 - 3 * w, k); }
  }

  lemma Fourth(i: nat, k: nat)
    requires i < 16 && k < 16
    ensures 7 * (48 + i) % 16 == k <==> i == 7 * k % 16
  {
    var u, w := (7 * i + 336) / 16, (7 * k) / 16;
    Remainder(7 * i + 336, u, (7 * i + 336) % 16);
    Remainder(7 * k, w, (7 * k) % 16);
    if (7 * i + 336) % 16 == k { Remainder(7 * k, 3 * i + 147 - 7 * u, i); }
    if (7 * k) % 16 == i { Remainder(7 * i + 336, 3 * k + 21 - 7 * w, k); }
  }

  // ---- the tables ----

  lemma Sines0()
    ensures |SINES| == 4 && |SINES[0]| == 16
    ensures SINES[0][0] == 0xd76aa478 && SINES[0][1] == 0xe8c7b756 && SINES[0][2] == 0x242070db && SINES[0][3] == 0xc1bdceee
    ensures SINES[0][4] == 0xf57c0faf && SINES[0][5] == 0x4787c62a && SINES[0][6] == 0xa8304613 && SINES[0][7] == 0xfd469501
    ensures SINES[0][8] == 0x698098d8 && SINES[0][9] == 0x8b44f7af && SINES[0][10] == 0xffff5bb1 && SINES[0][11] == 0x895cd7be
    ensures SINES[0][12] == 0x6b901122 && SINES[0][13] == 0xfd987193 && SINES[0][14] == 0xa679438e && SINES[0][15] == 0x49b40821
  {
  }

  lemma Order0()
    ensures WordIndex(0) == 0 && WordIndex(1) == 1 && WordIndex(2) == 2 && WordIndex(3) == 3 && WordIndex(4) == 4 && WordIndex(5) == 5 && WordIndex(6) == 6 && WordIndex(7) == 7
    ensures WordIndex(8) == 8 && WordIndex(9) == 9 && WordIndex(10) == 10 && WordIndex(11) == 11 && WordIndex(12) == 12 && WordIndex(13) == 13 && WordIndex(14) == 14 && WordIndex(15) == 15
    ensures |SHIFTS| == 16 && SHIFTS[0] == 7 && SHIFTS[1] == 12 && SHIFTS[2] == 17 && SHIFTS[3] == 22
  {
  }

  lemma Sines1()
    ensures |SINES| == 4 && |SINES[1]| == 16
    ensures SINES[1][0] == 0xf61e2562 && SINES[1][1] == 0xc040b340 && SINES[1][2] == 0x265e5a51 && SINES[1][3] == 0xe9b6c7aa
    ensures SINES[1][4] == 0xd62f105d && SINES[1][5] == 0x02441453 && SINES[1][6] == 0xd8a1e681 && SINES[1][7] == 0xe7d3fbc8
    ensures SINES[1][8] == 0x21e1cde6 && SINES[1][9] == 0xc33707d6 && SINES[1][10] == 0xf4d50d87 && SINES[1][11] == 0x455a14ed
    ensures SINES[1][12] == 0xa9e3e905 && SINES[1][13] == 0xfcefa3f8 && SINES[1][14] == 0x676f02d9 && SINES[1][15] == 0x8d2a4c8a
  {
  }

  lemma Order1()
    ensures WordIndex(16) == 1 && WordIndex(17) == 6 && WordIndex(18) == 11 && WordIndex(19) == 0 && WordIndex(20) == 5 && WordIndex(21) == 10 && WordIndex(22) == 15 && WordIndex(23) == 4
    ensures WordIndex(24) == 9 && WordIndex(25) == 14 && WordIndex(26) == 3 && WordIndex(27) == 8 && WordIndex(28) == 13 && WordIndex(29) == 2 && WordIndex(30) == 7 && WordIndex(31) == 12
    ensures |SHIFTS| == 16 && SHIFTS[4] == 5 && SHIFTS[5] == 9 && SHIFTS[6] == 14 && SHIFTS[7] == 20
  {
  }

  lemma Sines2()
    ensures |SINES| == 4 && |SINES[2]| == 16
    ensures SINES[2][0] == 0xfffa3942 && SINES[2][1] == 0x8771f681 && SINES[2][2] == 0x6d9d6122 && SINES[2][3] == 0xfde5380c
    ensures SINES[2][4] == 0xa4beea44 && SINES[2][5] == 0x4bdecfa9 && SINES[2][6] == 0xf6bb4b60 && SINES[2][7] == 0xbebfbc70
    ensures SINES[2][8] == 0x289b7ec6 && SINES[2][9] == 0xeaa127fa && SINES[2][10] == 0xd4ef3085 && SINES[2][11] == 0x04881d05
    ensures SINES[2][12] == 0xd9d4d039 && SINES[2][13] == 0xe6db99e5 && SINES[2][14] == 0x1fa27cf8 && SINES[2][15] == 0xc4ac5665
  {
  }

  lemma Order2()
    ensures WordIndex(32) == 5 && WordIndex(33) == 8 && WordIndex(34) == 11 && WordIndex(35) == 14 && WordIndex(36) == 1 && WordIndex(37) == 4 && WordIndex(38) == 7 && WordIndex(39) == 10
    ensures WordIndex(40) == 13 && WordIndex(41) == 0 && WordIndex(42) == 3 && WordIndex(43) == 6 && WordIndex(44) == 9 && WordIndex(45) == 12 && WordIndex(46) == 15 && WordIndex(47) == 2
    ensures |SHIFTS| == 16 && SHIFTS[8] == 4 && SHIFTS[9] == 11 && SHIFTS[10] == 16 && SHIFTS[11] == 23
  {
  }

  lemma Sines3()
    ensures |SINES| == 4 && |SINES[3]| == 16
    ensures SINES[3][0] == 0xf4292244 && SINES[3][1] == 0x432aff97 && SINES[3][2] == 0xab9423a7 && SINES[3][3] == 0xfc93a039
    ensures SINES[3][4] == 0x655b59c3 && SINES[3][5] == 0x8f0ccc92 && SINES[3][6] == 0xffeff47d && SINES[3][7] == 0x85845dd1
    ensures SINES[3][8] == 0x6fa87e4f && SINES[3][9] == 0xfe2ce6e0 && SINES[3][10] == 0xa3014314 && SINES[3][11] == 0x4e0811a1
    ensures SINES[3][12] == 0xf7537e82 && SINES[3][13] == 0xbd3af235 && SINES[3][14] == 0x2ad7d2bb && SINES[3][15] == 0xeb86d391
  {
  }

  lemma Order3()
    ensures WordIndex(48) == 0 && WordIndex(49) == 7 && WordIndex(50) == 14 && WordIndex(51) == 5 && WordIndex(52) == 12 && WordIndex(53) == 3 && WordIndex(54) == 10 && WordIndex(55) == 1
    ensures WordIndex(56) == 8 && WordIndex(57) == 15 && WordIndex(58) == 6 && WordIndex(59) == 13 && WordIndex(60) == 4 && WordIndex(61) == 11 && WordIndex(62) == 2 && WordIndex(63) == 9
    ensures |SHIFTS| == 16 && SHIFTS[12] == 6 && SHIFTS[13] == 10 && SHIFTS[14] == 15 && SHIFTS[15] == 21
  {
  }

  // ---- known digests ----

  predicate Holds(x: seq<bv32>, k: nat, word: bv32) {
    |x| == 16 && k < 16 && x[k] == word
  }

  /** Step j of round r on known words, as section A.3 of RFC 1321 lists it: it adds word k
      and a sine, rotates, and computes e. */
  lemma Known(r: nat, j: nat, k: nat, shift: nat, word: bv32, sine: bv32, x: seq<bv32>, a: bv32, b: bv32, c: bv32, d: bv32, e: bv32)
    requires r < 4 && j < 16 && Holds(x, k, word) && Steps(16 * r + j, INIT, x) == Words(a, b, c, d)
    requires WordIndex(16 * r + j) == k && |SHIFTS| == 16 && SHIFTS[4 * r + j % 4] == shift < 32
    requires |SINES| == 4 && |SINES[r]| == 16 && SINES[r][j] == sine
    requires Stirred(r, Words(a, b, c, d), word, sine, shift) == e
    ensures Steps(16 * r + j + 1, INIT, x) == Words(d, e, b, c)
  {
    hide Stirred, SINES, SHIFTS, WordIndex, Step;
    StepAt(r, j, Words(a, b, c, d), x);
  }

  lemma StepAt(r: nat, j: nat, w: Words, x: seq<bv32>)
    requires r < 4 && j < 16 && |x| == 16 && |SHIFTS| == 16 && |SINES| == 4 && |SINES[r]| == 16 && SHIFTS[4 * r + j % 4] < 32
    ensures Step(16 * r + j, w, x)
         == Words(w.d, Stirred(r, w, x[WordIndex(16 * r + j)], SINES[r][j], SHIFTS[4 * r + j % 4]), w.b, w.c)
  {
    hide Stirred, SINES, SHIFTS, WordIndex;
    assert (16 * r + j) / 16 == r && (16 * r + j) % 16 == j && (16 * r + j) % 4 == j % 4;
  }

  lemma StepsNone(x: seq<bv32>)
    requires |x| == 16
    ensures Steps(0, INIT, x) == Words(0x67452301, 0xefcdab89, 0x98badcfe, 0x10325476)
  {
  }

  lemma DigestOf(msg: seq<Byte>, p: seq<Byte>, x: seq<bv32>, v: Words)
    requires p == Padded(msg) && |p| == 64 && |x| == 16 && seq(16, i requires 0 <= i < 16 => Word(p, i)) == x && Steps(64, INIT, x) == v
    ensures Digest(msg) == BytesOf(Words(0x67452301 + v.a, 0xefcdab89 + v.b, 0x98badcfe + v.c, 0x10325476 + v.d))
  {
    hide Steps, Word, Padded, Bytes32;
    assert p[0..64] == p;
    assert Blocks(INIT, p, 0) == INIT;
    assert Blocks(INIT, p, 1) == Block(INIT, p);
  }

  lemma BytesJoin(a: bv32, b: bv32, c: bv32, d: bv32, p: seq<Byte>, q: seq<Byte>, r: seq<Byte>, s: seq<Byte>)
    requires Bytes32(a as nat) == p && Bytes32(b as nat) == q && Bytes32(c as nat) == r && Bytes32(d as nat) == s
    ensures BytesOf(Words(a, b, c, d)) == p + q + r + s
  {
    hide Bytes32;
  }

  lemma ZeroWord()
    ensures 128 as bv32 == 0x80 && 24 as bv32 == 0x18 && 0 as bv32 == 0
  {
  }

  /** A word of one byte. */
  lemma SmallWord(p: seq<Byte>, i: nat, b: Byte)
    requires 4 * i + 4 <= |p| && p[4 * i] == b && p[4 * i + 1] == p[4 * i + 2] == p[4 * i + 3] == 0
    ensures Word(p, i) == b as bv32
  {
    SmallBits(b as bv32);
  }

  lemma SmallBits(b: bv32)
    ensures b | ((0 as bv32) << 8) | ((0 as bv32) << 16) | ((0 as bv32) << 24) == b
  {
  }

  lemma AbcWord(p: seq<Byte>)
    requires |p| >= 4 && p[..4] == [0x61, 0x62, 0x63, 0x80]
    ensures Word(p, 0) == 0x80636261
  {
    assert p[0] == p[..4][0] && p[1] == p[..4][1] && p[2] == p[..4][2] && p[3] == p[..4][3];
    assert 0x61 as bv32 == 0x61 && 0x62 as bv32 == 0x62 && 0x63 as bv32 == 0x63 && 0x80 as bv32 == 0x80;
  }

  lemma PaddedEmpty(p: seq<Byte>)
    requires p == Padded([])
    ensures |p| == 64 && p[0] == 128 && forall i :: 1 <= i < 64 ==> p[i] == 0
  {
    assert LengthBytes(0) == [0, 0, 0, 0] + [0, 0, 0, 0];
  }

  lemma PaddedAbc(p: seq<Byte>)
    requires p == Padded([0x61, 0x62, 0x63])
    ensures |p| == 64 && p[..4] == [0x61, 0x62, 0x63, 0x80] && p[56] == 24
    ensures forall i :: 4 <= i < 64 && i != 56 ==> p[i] == 0
  {
    assert LengthBytes(3) == [24, 0, 0, 0] + [0, 0, 0, 0];
  }

  /** The padded message of no bytes as words. */
  const EMPTY: seq<bv32> := [0x80, 0, 0, 0, 0, 0, 0, 0, 0, 0, 0, 0, 0, 0, 0, 0]

  lemma EmptyWords()
    ensures |EMPTY| == 16 && Holds(EMPTY, 0, 0x80)
    ensures forall k :: 1 <= k < 16 ==> Holds(EMPTY, k, 0)
  {
  }

  lemma EmptyRound0()
    ensures Steps(16, INIT, EMPTY) == Words(0xf56c7cf1, 0xd6819c6a, 0x5aa53f75, 0x374943a7)
  {
    hide Steps, SINES, SHIFTS, WordIndex, Holds, EMPTY;
    EmptyWords();
    Sines0();
    Order0();
    StepsNone(EMPTY);
    Known(0, 0, 0, 7, 0x80, 0xd76aa478, EMPTY, 0x67452301, 0xefcdab89, 0x98badcfe, 0x10325476, 0xa5202774);
    Known(0, 1, 1, 12, 0, 0xe8c7b756, EMPTY, 0x10325476, 0xa5202774, 0xefcdab89, 0x98badcfe, 0xf59592dd);
    Known(0, 2, 2, 17, 0, 0x242070db, EMPTY, 0x98badcfe, 0xf59592dd, 0xa5202774, 0xefcdab89, 0xe7f06b23);
    Known(0, 3, 3, 22, 0, 0xc1bdceee, EMPTY, 0xefcdab89, 0xe7f06b23, 0xf59592dd, 0xa5202774, 0x1b163203);
    Known(0, 4, 4, 7, 0, 0xf57c0faf, EMPTY, 0xa5202774, 0x1b163203, 0xe7f06b23, 0xf59592dd, 0x32033344);
    Known(0, 5, 5, 12, 0, 0x4787c62a, EMPTY, 0xf59592dd, 0x32033344, 0x1b163203, 0xe7f06b23, 0x2f35d494);
    Known(0, 6, 6, 17, 0, 0xa8304613, EMPTY, 0xe7f06b23, 0x2f35d494, 0x32033344, 0x1b163203, 0xf5b158db);
    Known(0, 7, 7, 22, 0, 0xfd469501, EMPTY, 0x1b163203, 0xf5b158db, 0x2f35d494, 0x32033344, 0x9bc13ce9);
    Known(0, 8, 8, 7, 0, 0x698098d8, EMPTY, 0x32033344, 0x9bc13ce9, 0xf5b158db, 0x2f35d494, 0x3893b991);
    Known(0, 9, 9, 12, 0, 0x8b44f7af, EMPTY, 0x2f35d494, 0x3893b991, 0x9bc13ce9, 0xf5b158db, 0xfce4a312);
    Known(0, 10, 10, 17, 0, 0xffff5bb1, EMPTY, 0xf5b158db, 0xfce4a312, 0x3893b991, 0x9bc13ce9, 0xe1ef0576);
    Known(0, 11, 11, 22, 0, 0x895cd7be, EMPTY, 0x9bc13ce9, 0xe1ef0576, 0xfce4a312, 0x3893b991, 0x70768a29);
    Known(0, 12, 12, 7, 0, 0x6b901122, EMPTY, 0x3893b991, 0x70768a29, 0xe1ef0576, 0xfce4a312, 0xf56c7cf1);
    Known(0, 13, 13, 12, 0, 0xfd987193, EMPTY, 0xfce4a312, 0xf56c7cf1, 0x70768a29, 0xe1ef0576, 0x374943a7);
    Known(0, 14, 14, 17, 0, 0xa679438e, EMPTY, 0xe1ef0576, 0x374943a7, 0xf56c7cf1, 0x70768a29, 0x5aa53f75);
    Known(0, 15, 15, 22, 0, 0x49b40821, EMPTY, 0x70768a29, 0x5aa53f75, 0x374943a7, 0xf56c7cf1, 0xd6819c6a);
  }

  lemma EmptyRound1()
    requires Steps(16, INIT, EMPTY) == Words(0xf56c7cf1, 0xd6819c6a, 0x5aa53f75, 0x374943a7)
    ensures Steps(32, INIT, EMPTY) == Words(0x13707036, 0xa2205f1f, 0x1c31c384, 0xae7813db)
  {
    hide Steps, SINES, SHIFTS, WordIndex, Holds, EMPTY;
    EmptyWords();
    Sines1();
    Order1();
    Known(1, 0, 1, 5, 0, 0xf61e2562, EMPTY, 0xf56c7cf1, 0xd6819c6a, 0x5aa53f75, 0x374943a7, 0x1c7d7513);
    Known(1, 1, 6, 9, 0, 0xc040b340, EMPTY, 0x374943a7, 0x1c7d7513, 0xd6819c6a, 0x5aa53f75, 0x7bd57a3a);
    Known(1, 2, 11, 14, 0, 0x265e5a51, EMPTY, 0x5aa53f75, 0x7bd57a3a, 0x1c7d7513, 0xd6819c6a, 0xc095f13a);
    Known(1, 3, 0, 20, 0x80, 0xe9b6c7aa, EMPTY, 0xd6819c6a, 0xc095f13a, 0x7bd57a3a, 0x1c7d7513, 0xbd782e17);
    Known(1, 4, 5, 5, 0, 0xd62f105d, EMPTY, 0x1c7d7513, 0xbd782e17, 0xc095f13a, 0x7bd57a3a, 0x3d1e3e6c);
    Known(1, 5, 10, 9, 0, 0x02441453, EMPTY, 0x7bd57a3a, 0x3d1e3e6c, 0xbd782e17, 0xc095f13a, 0x68b7b3e3);
    Known(1, 6, 15, 14, 0, 0xd8a1e681, EMPTY, 0xc095f13a, 0x68b7b3e3, 0x3d1e3e6c, 0xbd782e17, 0xeb41643e);
    Known(1, 7, 4, 20, 0, 0xe7d3fbc8, EMPTY, 0xbd782e17, 0xeb41643e, 0x68b7b3e3, 0x3d1e3e6c, 0xe422531a);
    Known(1, 8, 9, 5, 0, 0x21e1cde6, EMPTY, 0x3d1e3e6c, 0xe422531a, 0xeb41643e, 0x68b7b3e3, 0x306ec122);
    Known(1, 9, 14, 9, 0, 0xc33707d6, EMPTY, 0x68b7b3e3, 0x306ec122, 0xe422531a, 0xeb41643e, 0xd28c77c2);
    Known(1, 10, 3, 14, 0, 0xf4d50d87, EMPTY, 0xeb41643e, 0xd28c77c2, 0x306ec122, 0xe422531a, 0xa3c663da);
    Known(1, 11, 8, 20, 0, 0x455a14ed, EMPTY, 0xe422531a, 0xa3c663da, 0xd28c77c2, 0x306ec122, 0xa0572807);
    Known(1, 12, 13, 5, 0, 0xa9e3e905, EMPTY, 0x306ec122, 0xa0572807, 0xa3c663da, 0xd28c77c2, 0x13707036);
    Known(1, 13, 2, 9, 0, 0xfcefa3f8, EMPTY, 0xd28c77c2, 0x13707036, 0xa0572807, 0xa3c663da, 0xae7813db);
    Known(1, 14, 7, 14, 0, 0x676f02d9, EMPTY, 0xa3c663da, 0xae7813db, 0x13707036, 0xa0572807, 0x1c31c384);
    Known(1, 15, 12, 20, 0, 0x8d2a4c8a, EMPTY, 0xa0572807, 0x1c31c384, 0xae7813db, 0x13707036, 0xa2205f1f);
  }

  lemma EmptyRound2()
    requires Steps(32, INIT, EMPTY) == Words(0x13707036, 0xa2205f1f, 0x1c31c384, 0xae7813db)
    ensures Steps(48, INIT, EMPTY) == Words(0x3f55edfd, 0xca7d2dbd, 0x68d84ea2, 0x22a31f54)
  {
    hide Steps, SINES, SHIFTS, WordIndex, Holds, EMPTY;
    EmptyWords();
    Sines2();
    Order2();
    Known(2, 0, 5, 4, 0, 0xfffa3942, EMPTY, 0x13707036, 0xa2205f1f, 0x1c31c384, 0xae7813db, 0xdf63eaa1);
    Known(2, 1, 8, 11, 0, 0x8771f681, EMPTY, 0xae7813db, 0xdf63eaa1, 0xa2205f1f, 0x1c31c384, 0xc3689f5b);
    Known(2, 2, 11, 16, 0, 0x6d9d6122, EMPTY, 0x1c31c384, 0xc3689f5b, 0xdf63eaa1, 0xa2205f1f, 0x12f3e755);
    Known(2, 3, 14, 23, 0, 0xfde5380c, EMPTY, 0xa2205f1f, 0x12f3e755, 0xc3689f5b, 0xdf63eaa1, 0x004b6669);
    Known(2, 4, 1, 4, 0, 0xa4beea44, EMPTY, 0xdf63eaa1, 0x004b6669, 0x12f3e755, 0xc3689f5b, 0x5f7a9b2e);
    Known(2, 5, 4, 11, 0, 0x4bdecfa9, EMPTY, 0xc3689f5b, 0x5f7a9b2e, 0x004b6669, 0x12f3e755, 0xabc34e16);
    Known(2, 6, 7, 16, 0, 0xf6bb4b60, EMPTY, 0x12f3e755, 0xabc34e16, 0x5f7a9b2e, 0x004b6669, 0x91ca4cb7);
    Known(2, 7, 10, 23, 0, 0xbebfbc70, EMPTY, 0x004b6669, 0x91ca4cb7, 0xabc34e16, 0x5f7a9b2e, 0xc5dc8c15);
    Known(2, 8, 13, 4, 0, 0x289b7ec6, EMPTY, 0x5f7a9b2e, 0xc5dc8c15, 0x91ca4cb7, 0xabc34e16, 0x4497169d);
    Known(2, 9, 0, 11, 0x80, 0xeaa127fa, EMPTY, 0xabc34e16, 0x4497169d, 0xc5dc8c15, 0x91ca4cb7, 0x76fd93d4);
    Known(2, 10, 3, 16, 0, 0xd4ef3085, EMPTY, 0x91ca4cb7, 0x76fd93d4, 0x4497169d, 0xc5dc8c15, 0xfd95f243);
    Known(2, 11, 6, 23, 0, 0x04881d05, EMPTY, 0xc5dc8c15, 0xfd95f243, 0x76fd93d4, 0x4497169d, 0x0fe32453);
    Known(2, 12, 9, 4, 0, 0xd9d4d039, EMPTY, 0x4497169d, 0x0fe32453, 0xfd95f243, 0x76fd93d4, 0x3f55edfd);
    Known(2, 13, 12, 11, 0, 0xe6db99e5, EMPTY, 0x76fd93d4, 0x3f55edfd, 0x0fe32453, 0xfd95f243, 0x22a31f54);
    Known(2, 14, 15, 16, 0, 0x1fa27cf8, EMPTY, 0xfd95f243, 0x22a31f54, 0x3f55edfd, 0x0fe32453, 0x68d84ea2);
    Known(2, 15, 2, 23, 0, 0xc4ac5665, EMPTY, 0x0fe32453, 0x68d84ea2, 0x22a31f54, 0x3f55edfd, 0xca7d2dbd);
  }

  lemma EmptyRound3()
    requires Steps(48, INIT, EMPTY) == Words(0x3f55edfd, 0xca7d2dbd, 0x68d84ea2, 0x22a31f54)
    ensures Steps(64, INIT, EMPTY) == Words(0x7246fad3, 0x14e45506, 0xff4ea3eb, 0x6e10a476)
  {
    hide Steps, SINES, SHIFTS, WordIndex, Holds, EMPTY;
    EmptyWords();
    Sines3();
    Order3();
    Known(3, 0, 0, 6, 0x80, 0xf4292244, EMPTY, 0x3f55edfd, 0xca7d2dbd, 0x68d84ea2, 0x22a31f54, 0x93aa2577);
    Known(3, 1, 7, 10, 0, 0x432aff97, EMPTY, 0x22a31f54, 0x93aa2577, 0xca7d2dbd, 0x68d84ea2, 0x1688dc85);
    Known(3, 2, 14, 15, 0, 0xab9423a7, EMPTY, 0x68d84ea2, 0x1688dc85, 0x93aa2577, 0xca7d2dbd, 0xcd85b8cb);
    Known(3, 3, 5, 21, 0, 0xfc93a039, EMPTY, 0xca7d2dbd, 0xcd85b8cb, 0x1688dc85, 0x93aa2577, 0x561e0689);
    Known(3, 4, 12, 6, 0, 0x655b59c3, EMPTY, 0x93aa2577, 0x561e0689, 0xcd85b8cb, 0x1688dc85, 0x5625a114);
    Known(3, 5, 3, 10, 0, 0x8f0ccc92, EMPTY, 0x1688dc85, 0x5625a114, 0x561e0689, 0xcd85b8cb, 0x3450f42b);
    Known(3, 6, 10, 15, 0, 0xffeff47d, EMPTY, 0xcd85b8cb, 0x3450f42b, 0x5625a114, 0x561e0689, 0x392ad0d0);
    Known(3, 7, 1, 21, 0, 0x85845dd1, EMPTY, 0x561e0689, 0x392ad0d0, 0x3450f42b, 0x5625a114, 0x1e77fa61);
    Known(3, 8, 8, 6, 0, 0x6fa87e4f, EMPTY, 0x5625a114, 0x1e77fa61, 0x392ad0d0, 0x3450f42b, 0x474a9c8c);
    Known(3, 9, 15, 10, 0, 0xfe2ce6e0, EMPTY, 0x3450f42b, 0x474a9c8c, 0x1e77fa61, 0x392ad0d0, 0xdfce00bc);
    Known(3, 10, 6, 15, 0, 0xa3014314, EMPTY, 0x392ad0d0, 0xdfce00bc, 0x474a9c8c, 0x1e77fa61, 0x36594b14);
    Known(3, 11, 13, 21, 0, 0x4e0811a1, EMPTY, 0x1e77fa61, 0x36594b14, 0xdfce00bc, 0x474a9c8c, 0x30130182);
    Known(3, 12, 4, 6, 0, 0xf7537e82, EMPTY, 0x474a9c8c, 0x30130182, 0x36594b14, 0xdfce00bc, 0x7246fad3);
    Known(3, 13, 11, 10, 0, 0xbd3af235, EMPTY, 0xdfce00bc, 0x7246fad3, 0x30130182, 0x36594b14, 0x6e10a476);
    Known(3, 14, 2, 15, 0, 0x2ad7d2bb, EMPTY, 0x36594b14, 0x6e10a476, 0x7246fad3, 0x30130182, 0xff4ea3eb);
    Known(3, 15, 9, 21, 0, 0xeb86d391, EMPTY, 0x30130182, 0xff4ea3eb, 0x6e10a476, 0x7246fad3, 0x14e45506);
  }

  lemma EmptyBlock(p: seq<Byte>)
    requires p == Padded([])
    ensures |p| == 64 && |EMPTY| == 16 && seq(16, i requires 0 <= i < 16 => Word(p, i)) == EMPTY
  {
    PaddedEmpty(p);
    hide Padded, Word;
    EmptyWords();
    ZeroWord();
    forall i | 0 <= i < 16 ensures Word(p, i) == EMPTY[i] {
      assert i > 0 ==> Holds(EMPTY, i, 0);
      if i == 0 { SmallWord(p, 0, 128); } else { SmallWord(p, i, 0); }
    }
  }

  lemma EmptyWord0()
    ensures 0x67452301 + 0x7246fad3 == (0xd98c1dd4 as bv32) && Bytes32((0xd98c1dd4 as bv32) as nat) == [0xd4, 0x1d, 0x8c, 0xd9]
  {
    assert (0xd98c1dd4 as bv32) as nat == 0xd98c1dd4;
  }

  lemma EmptyWord1()
    ensures 0xefcdab89 + 0x14e45506 == (0x04b2008f as bv32) && Bytes32((0x04b2008f as bv32) as nat) == [0x8f, 0x00, 0xb2, 0x04]
  {
    assert (0x04b2008f as bv32) as nat == 0x04b2008f;
  }

  lemma EmptyWord2()
    ensures 0x98badcfe + 0xff4ea3eb == (0x980980e9 as bv32) && Bytes32((0x980980e9 as bv32) as nat) == [0xe9, 0x80, 0x09, 0x98]
  {
    assert (0x980980e9 as bv32) as nat == 0x980980e9;
  }

  lemma EmptyWord3()
    ensures 0x10325476 + 0x6e10a476 == (0x7e42f8ec as bv32) && Bytes32((0x7e42f8ec as bv32) as nat) == [0xec, 0xf8, 0x42, 0x7e]
  {
    assert (0x7e42f8ec as bv32) as nat == 0x7e42f8ec;
  }

  lemma EmptyBytes()
    ensures BytesOf(Words(0x67452301 + 0x7246fad3, 0xefcdab89 + 0x14e45506, 0x98badcfe + 0xff4ea3eb, 0x10325476 + 0x6e10a476))
         == [0xd4, 0x1d, 0x8c, 0xd9, 0x8f, 0x00, 0xb2, 0x04, 0xe9, 0x80, 0x09, 0x98, 0xec, 0xf8, 0x42, 0x7e]
  {
    hide BytesOf, Bytes32;
    EmptyWord0();
    EmptyWord1();
    EmptyWord2();
    EmptyWord3();
    BytesJoin(0xd98c1dd4, 0x04b2008f, 0x980980e9, 0x7e42f8ec, [0xd4, 0x1d, 0x8c, 0xd9], [0x8f, 0x00, 0xb2, 0x04], [0xe9, 0x80, 0x09, 0x98], [0xec, 0xf8, 0x42, 0x7e]);
  }

  /** The digest of the empty message. */
  lemma DigestEmpty()
    ensures Digest([]) == [0xd4, 0x1d, 0x8c, 0xd9, 0x8f, 0x00, 0xb2, 0x04, 0xe9, 0x80, 0x09, 0x98, 0xec, 0xf8, 0x42, 0x7e]
  {
    var p := Padded([]);
    hide *;
    EmptyBlock(p);
    EmptyRound0();
    EmptyRound1();
    EmptyRound2();
    EmptyRound3();
    DigestOf([], p, EMPTY, Words(0x7246fad3, 0x14e45506, 0xff4ea3eb, 0x6e10a476));
    EmptyBytes();
  }

  /** The padded message abc as words. */
  const ABC: seq<bv32> := [0x80636261, 0, 0, 0, 0, 0, 0, 0, 0, 0, 0, 0, 0, 0, 0x18, 0]

  lemma AbcWords()
    ensures |ABC| == 16 && Holds(ABC, 0, 0x80636261) && Holds(ABC, 14, 0x18)
    ensures forall k :: 1 <= k < 16 && k != 14 ==> Holds(ABC, k, 0)
  {
  }

  lemma AbcRound0()
    ensures Steps(16, INIT, ABC) == Words(0xdda9b9a6, 0x72aff2e0, 0xe396856b, 0xa1051895)
  {
    hide Steps, SINES, SHIFTS, WordIndex, Holds, ABC;
    AbcWords();
    Sines0();
    Order0();
    StepsNone(ABC);
    Known(0, 0, 0, 7, 0x80636261, 0xd76aa478, ABC, 0x67452301, 0xefcdab89, 0x98badcfe, 0x10325476, 0xd6d117b4);
    Known(0, 1, 1, 12, 0, 0xe8c7b756, ABC, 0x10325476, 0xd6d117b4, 0xefcdab89, 0x98badcfe, 0x344a8432);
    Known(0, 2, 2, 17, 0, 0x242070db, ABC, 0x98badcfe, 0x344a8432, 0xd6d117b4, 0xefcdab89, 0x2f6fbd72);
    Known(0, 3, 3, 22, 0, 0xc1bdceee, ABC, 0xefcdab89, 0x2f6fbd72, 0x344a8432, 0xd6d117b4, 0x7ad956f2);
    Known(0, 4, 4, 7, 0, 0xf57c0faf, ABC, 0xd6d117b4, 0x7ad956f2, 0x2f6fbd72, 0x344a8432, 0xc73741ef);
    Known(0, 5, 5, 12, 0, 0x4787c62a, ABC, 0x344a8432, 0xc73741ef, 0x7ad956f2, 0x2f6fbd72, 0x8bac3051);
    Known(0, 6, 6, 17, 0, 0xa8304613, ABC, 0x2f6fbd72, 0x8bac3051, 0xc73741ef, 0x7ad956f2, 0x207dc67b);
    Known(0, 7, 7, 22, 0, 0xfd469501, ABC, 0x7ad956f2, 0x207dc67b, 0x8bac3051, 0xc73741ef, 0x928d99f6);
    Known(0, 8, 8, 7, 0, 0x698098d8, ABC, 0xc73741ef, 0x928d99f6, 0x207dc67b, 0x8bac3051, 0x854b3712);
    Known(0, 9, 9, 12, 0, 0x8b44f7af, ABC, 0x8bac3051, 0x854b3712, 0x928d99f6, 0x207dc67b, 0x74e2f284);
    Known(0, 10, 10, 17, 0, 0xffff5bb1, ABC, 0x207dc67b, 0x74e2f284, 0x854b3712, 0x928d99f6, 0x3020401c);
    Known(0, 11, 11, 22, 0, 0x895cd7be, ABC, 0x928d99f6, 0x3020401c, 0x74e2f284, 0x854b3712, 0x5ed49596);
    Known(0, 12, 12, 7, 0, 0x6b901122, ABC, 0x854b3712, 0x5ed49596, 0x3020401c, 0x74e2f284, 0xdda9b9a6);
    Known(0, 13, 13, 12, 0, 0xfd987193, ABC, 0x74e2f284, 0xdda9b9a6, 0x5ed49596, 0x3020401c, 0xa1051895);
    Known(0, 14, 14, 17, 0x18, 0xa679438e, ABC, 0x3020401c, 0xa1051895, 0xdda9b9a6, 0x5ed49596, 0xe396856b);
    Known(0, 15, 15, 22, 0, 0x49b40821, ABC, 0x5ed49596, 0xe396856b, 0xa1051895, 0xdda9b9a6, 0x72aff2e0);
  }

  lemma AbcRound1()
    requires Steps(16, INIT, ABC) == Words(0xdda9b9a6, 0x72aff2e0, 0xe396856b, 0xa1051895)
    ensures Steps(32, INIT, ABC) == Words(0x790a77fb, 0x726342d3, 0xa62884aa, 0x9f47e4f8)
  {
    hide Steps, SINES, SHIFTS, WordIndex, Holds, ABC;
    AbcWords();
    Sines1();
    Order1();
    Known(1, 0, 1, 5, 0, 0xf61e2562, ABC, 0xdda9b9a6, 0x72aff2e0, 0xe396856b, 0xa1051895, 0x3e9e9126);
    Known(1, 1, 6, 9, 0, 0xc040b340, ABC, 0xa1051895, 0x3e9e9126, 0x72aff2e0, 0xe396856b, 0x4a1d804e);
    Known(1, 2, 11, 14, 0, 0x265e5a51, ABC, 0xe396856b, 0x4a1d804e, 0x3e9e9126, 0x72aff2e0, 0xe25e1652);
    Known(1, 3, 0, 20, 0x80636261, 0xe9b6c7aa, ABC, 0x72aff2e0, 0xe25e1652, 0x4a1d804e, 0x3e9e9126, 0xb5b204e4);
    Known(1, 4, 5, 5, 0, 0xd62f105d, ABC, 0x3e9e9126, 0xb5b204e4, 0xe25e1652, 0x4a1d804e, 0x59a8ffda);
    Known(1, 5, 10, 9, 0, 0x02441453, ABC, 0x4a1d804e, 0x59a8ffda, 0xb5b204e4, 0xe25e1652, 0x6d002f1e);
    Known(1, 6, 15, 14, 0, 0xd8a1e681, ABC, 0xe25e1652, 0x6d002f1e, 0x59a8ffda, 0xb5b204e4, 0xabfc7920);
    Known(1, 7, 4, 20, 0, 0xe7d3fbc8, ABC, 0xb5b204e4, 0xabfc7920, 0x6d002f1e, 0x59a8ffda, 0x47092c07);
    Known(1, 8, 9, 5, 0, 0x21e1cde6, ABC, 0x59a8ffda, 0x47092c07, 0xabfc7920, 0x6d002f1e, 0xb7f268cf);
    Known(1, 9, 14, 9, 0x18, 0xc33707d6, ABC, 0x6d002f1e, 0xb7f268cf, 0x47092c07, 0xabfc7920, 0x09388eff);
    Known(1, 10, 3, 14, 0, 0xf4d50d87, ABC, 0xabfc7920, 0x09388eff, 0xb7f268cf, 0x47092c07, 0xfe1623b1);
    Known(1, 11, 8, 20, 0, 0x455a14ed, ABC, 0x47092c07, 0xfe1623b1, 0x09388eff, 0xb7f268cf, 0x786acb8f);
    Known(1, 12, 13, 5, 0, 0xa9e3e905, ABC, 0xb7f268cf, 0x786acb8f, 0xfe1623b1, 0x09388eff, 0x790a77fb);
    Known(1, 13, 2, 9, 0, 0xfcefa3f8, ABC, 0x09388eff, 0x790a77fb, 0x786acb8f, 0xfe1623b1, 0x9f47e4f8);
    Known(1, 14, 7, 14, 0, 0x676f02d9, ABC, 0xfe1623b1, 0x9f47e4f8, 0x790a77fb, 0x786acb8f, 0xa62884aa);
    Known(1, 15, 12, 20, 0, 0x8d2a4c8a, ABC, 0x786acb8f, 0xa62884aa, 0x9f47e4f8, 0x790a77fb, 0x726342d3);
  }

  lemma AbcRound2()
    requires Steps(32, INIT, ABC) == Words(0x790a77fb, 0x726342d3, 0xa62884aa, 0x9f47e4f8)
    ensures Steps(48, INIT, ABC) == Words(0x7f2e507b, 0x7beb9700, 0x8fae6399, 0x99d9679d)
  {
    hide Steps, SINES, SHIFTS, WordIndex, Holds, ABC;
    AbcWords();
    Sines2();
    Order2();
    Known(2, 0, 5, 4, 0, 0xfffa3942, ABC, 0x790a77fb, 0x726342d3, 0xa62884aa, 0x9f47e4f8, 0xb3707ebf);
    Known(2, 1, 8, 11, 0, 0x8771f681, ABC, 0x9f47e4f8, 0xb3707ebf, 0x726342d3, 0xa62884aa, 0x60127b2e);
    Known(2, 2, 11, 16, 0, 0x6d9d6122, ABC, 0xa62884aa, 0x60127b2e, 0xb3707ebf, 0x726342d3, 0x8d212ff5);
    Known(2, 3, 14, 23, 0x18, 0xfde5380c, ABC, 0x726342d3, 0x8d212ff5, 0x60127b2e, 0xb3707ebf, 0x3b0875c7);
    Known(2, 4, 1, 4, 0, 0xa4beea44, ABC, 0xb3707ebf, 0x3b0875c7, 0x8d212ff5, 0x60127b2e, 0x21b117b9);
    Known(2, 5, 4, 11, 0, 0x4bdecfa9, ABC, 0x60127b2e, 0x21b117b9, 0x3b0875c7, 0x8d212ff5, 0x6e7429d5);
    Known(2, 6, 7, 16, 0, 0xf6bb4b60, ABC, 0x8d212ff5, 0x6e7429d5, 0x21b117b9, 0x3b0875c7, 0x3575227e);
    Known(2, 7, 10, 23, 0, 0xbebfbc70, ABC, 0x3b0875c7, 0x3575227e, 0x6e7429d5, 0x21b117b9, 0x5a2f5ea5);
    Known(2, 8, 13, 4, 0, 0x289b7ec6, ABC, 0x21b117b9, 0x5a2f5ea5, 0x3575227e, 0x6e7429d5, 0x11de1779);
    Known(2, 9, 0, 11, 0x80636261, 0xeaa127fa, ABC, 0x6e7429d5, 0x11de1779, 0x5a2f5ea5, 0x3575227e, 0xfadcaa38);
    Known(2, 10, 3, 16, 0, 0xd4ef3085, ABC, 0x3575227e, 0xfadcaa38, 0x11de1779, 0x5a2f5ea5, 0x31c465ca);
    Known(2, 11, 6, 23, 0, 0x04881d05, ABC, 0x5a2f5ea5, 0x31c465ca, 0xfadcaa38, 0x11de1779, 0x4c6124f4);
    Known(2, 12, 9, 4, 0, 0xd9d4d039, ABC, 0x11de1779, 0x4c6124f4, 0x31c465ca, 0xfadcaa38, 0x7f2e507b);
    Known(2, 13, 12, 11, 0, 0xe6db99e5, ABC, 0xfadcaa38, 0x7f2e507b, 0x4c6124f4, 0x31c465ca, 0x99d9679d);
    Known(2, 14, 15, 16, 0, 0x1fa27cf8, ABC, 0x31c465ca, 0x99d9679d, 0x7f2e507b, 0x4c6124f4, 0x8fae6399);
    Known(2, 15, 2, 23, 0, 0xc4ac5665, ABC, 0x4c6124f4, 0x8fae6399, 0x99d9679d, 0x7f2e507b, 0x7beb9700);
  }

  lemma AbcRound3()
    requires Steps(48, INIT, ABC) == Words(0x7f2e507b, 0x7beb9700, 0x8fae6399, 0x99d9679d)
    ensures Steps(64, INIT, ABC) == Words(0x310ade8f, 0xc08226b3, 0xe484b9d8, 0x624d8cb2)
  {
    hide Steps, SINES, SHIFTS, WordIndex, Holds, ABC;
    AbcWords();
    Sines3();
    Order3();
    Known(3, 0, 0, 6, 0x80636261, 0xf4292244, ABC, 0x7f2e507b, 0x7beb9700, 0x8fae6399, 0x99d9679d, 0x7b201df8);
    Known(3, 1, 7, 10, 0, 0x432aff97, ABC, 0x99d9679d, 0x7b201df8, 0x7beb9700, 0x8fae6399, 0xf4e8e96e);
    Known(3, 2, 14, 15, 0x18, 0xab9423a7, ABC, 0x8fae6399, 0xf4e8e96e, 0x7b201df8, 0x7beb9700, 0xb298cefd);
    Known(3, 3, 5, 21, 0, 0xfc93a039, ABC, 0x7beb9700, 0xb298cefd, 0xf4e8e96e, 0x7b201df8, 0x8bf025c4);
    Known(3, 4, 12, 6, 0, 0x655b59c3, ABC, 0x7b201df8, 0x8bf025c4, 0xb298cefd, 0xf4e8e96e, 0x06cc5e8a);
    Known(3, 5, 3, 10, 0, 0x8f0ccc92, ABC, 0xf4e8e96e, 0x06cc5e8a, 0x8bf025c4, 0xb298cefd, 0x5b0d97aa);
    Known(3, 6, 10, 15, 0, 0xffeff47d, ABC, 0xb298cefd, 0x5b0d97aa, 0x06cc5e8a, 0x8bf025c4, 0x7d632dd0);
    Known(3, 7, 1, 21, 0, 0x85845dd1, ABC, 0x8bf025c4, 0x7d632dd0, 0x5b0d97aa, 0x06cc5e8a, 0x3bfa2c27);
    Known(3, 8, 8, 6, 0, 0x6fa87e4f, ABC, 0x06cc5e8a, 0x3bfa2c27, 0x7d632dd0, 0x5b0d97aa, 0x7f81cc35);
    Known(3, 9, 15, 10, 0, 0xfe2ce6e0, ABC, 0x5b0d97aa, 0x7f81cc35, 0x3bfa2c27, 0x7d632dd0, 0x094454ab);
    Known(3, 10, 6, 15, 0, 0xa3014314, ABC, 0x7d632dd0, 0x094454ab, 0x7f81cc35, 0x3bfa2c27, 0x4f9dbe3f);
    Known(3, 11, 13, 21, 0, 0x4e0811a1, ABC, 0x3bfa2c27, 0x4f9dbe3f, 0x094454ab, 0x7f81cc35, 0x7327d604);
    Known(3, 12, 4, 6, 0, 0xf7537e82, ABC, 0x7f81cc35, 0x7327d604, 0x4f9dbe3f, 0x094454ab, 0x310ade8f);
    Known(3, 13, 11, 10, 0, 0xbd3af235, ABC, 0x094454ab, 0x310ade8f, 0x7327d604, 0x4f9dbe3f, 0x624d8cb2);
    Known(3, 14, 2, 15, 0, 0x2ad7d2bb, ABC, 0x4f9dbe3f, 0x624d8cb2, 0x310ade8f, 0x7327d604, 0xe484b9d8);
    Known(3, 15, 9, 21, 0, 0xeb86d391, ABC, 0x7327d604, 0xe484b9d8, 0x624d8cb2, 0x310ade8f, 0xc08226b3);
  }

  lemma AbcBlock(p: seq<Byte>)
    requires p == Padded([0x61, 0x62, 0x63])
    ensures |p| == 64 && |ABC| == 16 && seq(16, i requires 0 <= i < 16 => Word(p, i)) == ABC
  {
    PaddedAbc(p);
    hide Padded, Word;
    AbcWords();
    ZeroWord();
    forall i | 0 <= i < 16 ensures Word(p, i) == ABC[i] {
      assert i != 0 && i != 14 ==> Holds(ABC, i, 0);
      if i == 0 { AbcWord(p); } else if i == 14 { SmallWord(p, 14, 24); } else { SmallWord(p, i, 0); }
    }
  }

  lemma AbcWord0()
    ensures 0x67452301 + 0x310ade8f == (0x98500190 as bv32) && Bytes32((0x98500190 as bv32) as nat) == [0x90, 0x01, 0x50, 0x98]
  {
    assert (0x98500190 as bv32) as nat == 0x98500190;
  }

  lemma AbcWord1()
    ensures 0xefcdab89 + 0xc08226b3 == (0xb04fd23c as bv32) && Bytes32((0xb04fd23c as bv32) as nat) == [0x3c, 0xd2, 0x4f, 0xb0]
  {
    assert (0xb04fd23c as bv32) as nat == 0xb04fd23c;
  }

  lemma AbcWord2()
    ensures 0x98badcfe + 0xe484b9d8 == (0x7d3f96d6 as bv32) && Bytes32((0x7d3f96d6 as bv32) as nat) == [0xd6, 0x96, 0x3f, 0x7d]
  {
    assert (0x7d3f96d6 as bv32) as nat == 0x7d3f96d6;
  }

  lemma AbcWord3()
    ensures 0x10325476 + 0x624d8cb2 == (0x727fe128 as bv32) && Bytes32((0x727fe128 as bv32) as nat) == [0x28, 0xe1, 0x7f, 0x72]
  {
    assert (0x727fe128 as bv32) as nat == 0x727fe128;
  }

  lemma AbcBytes()
    ensures BytesOf(Words(0x67452301 + 0x310ade8f, 0xefcdab89 + 0xc08226b3, 0x98badcfe + 0xe484b9d8, 0x10325476 + 0x624d8cb2))
         == [0x90, 0x01, 0x50, 0x98, 0x3c, 0xd2, 0x4f, 0xb0, 0xd6, 0x96, 0x3f, 0x7d, 0x28, 0xe1, 0x7f, 0x72]
  {
    hide BytesOf, Bytes32;
    AbcWord0();
    AbcWord1();
    AbcWord2();
    AbcWord3();
    BytesJoin(0x98500190, 0xb04fd23c, 0x7d3f96d6, 0x727fe128, [0x90, 0x01, 0x50, 0x98], [0x3c, 0xd2, 0x4f, 0xb0], [0xd6, 0x96, 0x3f, 0x7d], [0x28, 0xe1, 0x7f, 0x72]);
  }

  /** The digest of abc. */
  lemma DigestAbc()
    ensures Digest([0x61, 0x62, 0x63]) == [0x90, 0x01, 0x50, 0x98, 0x3c, 0xd2, 0x4f, 0xb0, 0xd6, 0x96, 0x3f, 0x7d, 0x28, 0xe1, 0x7f, 0x72]
  {
    var p := Padded([0x61, 0x62, 0x63]);
    hide *;
    AbcBlock(p);
    AbcRound0();
    AbcRound1();
    AbcRound2();
    AbcRound3();
    DigestOf([0x61, 0x62, 0x63], p, ABC, Words(0x310ade8f, 0xc08226b3, 0xe484b9d8, 0x624d8cb2));
    AbcBytes();
  }
}
