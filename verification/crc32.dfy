/** CRC-32 (section 8 of RFC 1952): the shift register, its tables, four bytes at
    a time, and the checksum of a concatenation by matrices over GF(2). */
module Crc32 {

  const POLY: bv32 := 0xedb8_8320
  const ONES: bv32 := 0xffff_ffff

  type Byte = b: bv32 | b <= 0xff

  // Word operations by name, so that proofs about many of them need not look at bits.

  function Xor(a: bv32, b: bv32): bv32 { a ^ b }

  function Half(c: bv32): bv32 { c >> 1 }

  predicate Odd(c: bv32) { c & 1 == 1 }

  function LowByte(c: bv32): Byte { c & 0xff }

  function Rest(c: bv32): bv32 { c >> 8 }

  lemma XorAssoc(a: bv32, b: bv32, c: bv32)
    ensures Xor(Xor(a, b), c) == Xor(a, Xor(b, c))
  {
  }

  lemma XorComm(a: bv32, b: bv32)
    ensures Xor(a, b) == Xor(b, a)
  {
  }

  lemma XorSelf(a: bv32)
    ensures Xor(a, a) == 0 && Xor(a, 0) == a && Xor(0, a) == a
  {
  }

  lemma HalfXor(a: bv32, b: bv32)
    ensures Half(Xor(a, b)) == Xor(Half(a), Half(b))
  {
  }

  lemma OddXor(a: bv32, b: bv32)
    ensures Odd(Xor(a, b)) <==> Odd(a) != Odd(b)
  {
    var x, y := a & 1, b & 1;
    assert (a ^ b) & 1 == x ^ y;
    assert x == 0 || x == 1;
    assert y == 0 || y == 1;
  }

  /** One step of the shift register: multiply by x modulo the polynomial. */
  function Shift(c: bv32): bv32 {
    if Odd(c) then Xor(POLY, Half(c)) else Half(c)
  }

  /** n zero bits. */
  function Zeros(n: nat, c: bv32): bv32 {
    if n == 0 then c else Shift(Zeros(n - 1, c))
  }

  /** The register after the bytes, taking each byte a bit at a time. */
  function Register(c: bv32, buf: seq<Byte>): bv32 {
    if buf == [] then c else Zeros(8, Xor(Register(c, buf[..|buf| - 1]), buf[|buf| - 1]))
  }

  /** The checksum of a byte string. */
  function Crc(buf: seq<Byte>): bv32 {
    Xor(Register(ONES, buf), ONES)
  }

  // ---- linearity ----

  lemma ShiftLinear(a: bv32, b: bv32)
    ensures Shift(Xor(a, b)) == Xor(Shift(a), Shift(b))
  {
    hide Xor, Half, Odd;
    OddXor(a, b);
    HalfXor(a, b);
    var x, y := Half(a), Half(b);
    XorAssoc(POLY, x, y);
    XorAssoc(x, POLY, y);
    XorComm(x, POLY);
    XorAssoc(Xor(POLY, x), POLY, y);
    XorAssoc(x, POLY, POLY);
    XorSelf(POLY);
    XorSelf(x);
  }

  lemma {:induction false} ZerosLinear(n: nat, a: bv32, b: bv32)
    ensures Zeros(n, Xor(a, b)) == Xor(Zeros(n, a), Zeros(n, b))
  {
    hide Shift, Xor;
    if n > 0 {
      ZerosLinear(n - 1, a, b);
      ShiftLinear(Zeros(n - 1, a), Zeros(n - 1, b));
    }
  }

  lemma {:induction false} ZerosAdd(m: nat, n: nat, c: bv32)
    ensures Zeros(m + n, c) == Zeros(m, Zeros(n, c))
  {
    hide Shift;
    if m > 0 { ZerosAdd(m - 1, n, c); }
  }

  lemma {:induction false} RegisterConcat(c: bv32, a: seq<Byte>, b: seq<Byte>)
    ensures Register(c, a + b) == Register(Register(c, a), b)
  {
    hide Zeros, Xor;
    if b == [] {
      assert a + b == a;
    } else {
      RegisterConcat(c, a, b[..|b| - 1]);
      assert (a + b)[..|a + b| - 1] == a + b[..|b| - 1];
    }
  }

  lemma RegisterNext(c: bv32, buf: seq<Byte>)
    requires buf != []
    ensures Register(c, buf) == Zeros(8, Xor(Register(c, buf[..|buf| - 1]), buf[|buf| - 1]))
  {
    hide Zeros, Xor;
  }

  lemma RegisterNone(c: bv32)
    ensures Register(c, []) == c && Zeros(0, c) == c
  {
    hide Xor;
  }

  /** What the register held before only adds to what the bytes contribute. */
  lemma {:induction false} RegisterAffine(c: bv32, buf: seq<Byte>)
    ensures Register(c, buf) == Xor(Zeros(8 * |buf|, c), Register(0, buf))
  {
    hide *;
    if buf != [] {
      var init, b := buf[..|buf| - 1], buf[|buf| - 1];
      RegisterAffine(c, init);
      RegisterNext(c, buf);
      RegisterNext(0, buf);
      ZerosAdd(8, 8 * |init|, c);
      var z, r := Zeros(8 * |init|, c), Register(0, init);
      XorAssoc(z, r, b);
      ZerosLinear(8, z, Xor(r, b));
    } else {
      RegisterNone(c);
      RegisterNone(0);
      XorSelf(c);
    }
  }

  // ---- a byte at a time ----

  lemma EvenHalf(h: bv32, k: bv32)
    requires h & 0xff == 0
    ensures !Odd(h) && !Odd(h >> 1) && !Odd(h >> 2) && !Odd(h >> 3) && !Odd(h >> 4) && !Odd(h >> 5) && !Odd(h >> 6) && !Odd(h >> 7)
    ensures Half(h) == h >> 1 && Half(h >> 1) == h >> 2 && Half(h >> 2) == h >> 3 && Half(h >> 3) == h >> 4
    ensures Half(h >> 4) == h >> 5 && Half(h >> 5) == h >> 6 && Half(h >> 6) == h >> 7 && Half(h >> 7) == h >> 8
  {
  }

  /** Bits above the lowest byte just move down. */
  lemma HighByte(h: bv32)
    requires h & 0xff == 0
    ensures Zeros(8, h) == Rest(h)
  {
    EvenHalf(h, 0);
    hide Half, Odd, Xor;
    var h1, h2, h3, h4, h5, h6, h7 := h >> 1, h >> 2, h >> 3, h >> 4, h >> 5, h >> 6, h >> 7;
    assert Zeros(1, h) == h1;
    assert Zeros(2, h) == h2;
    assert Zeros(3, h) == h3;
    assert Zeros(4, h) == h4;
    assert Zeros(5, h) == h5;
    assert Zeros(6, h) == h6;
    assert Zeros(7, h) == h7;
  }

  function HighPart(c: bv32): bv32 { c & 0xffff_ff00 }

  lemma SplitLow(c: bv32)
    ensures c == Xor(LowByte(c), HighPart(c)) && HighPart(c) & 0xff == 0 && Rest(HighPart(c)) == Rest(c)
  {
  }

  /** The register splits into its lowest byte and the rest. */
  lemma SplitByte(c: bv32)
    ensures Zeros(8, c) == Xor(Zeros(8, LowByte(c)), Rest(c))
  {
    hide Zeros, Xor, LowByte, HighPart, Rest;
    SplitLow(c);
    HighByte(HighPart(c));
    ZerosLinear(8, LowByte(c), HighPart(c));
  }

  // ---- tables ----

  function Index(b: Byte): (n: nat)
    ensures n < 256
  {
    b as int
  }

  lemma IndexBack(b: Byte)
    ensures Index(b) as bv32 == b
  {
  }

  /** Table k holds each byte value followed by k zero bytes. */
  ghost predicate TableFor(t: seq<bv32>, k: nat) {
    |t| == 256 && forall n :: 0 <= n < 256 ==> t[n] == Zeros(8 * (k + 1), n as bv32)
  }

  lemma TableAt(t: seq<bv32>, k: nat, b: Byte)
    requires TableFor(t, k)
    ensures t[Index(b)] == Zeros(8 * (k + 1), b)
  {
    hide Zeros;
    IndexBack(b);
  }

  ghost predicate Tables(t: seq<seq<bv32>>) {
    |t| == 4 && TableFor(t[0], 0) && TableFor(t[1], 1) && TableFor(t[2], 2) && TableFor(t[3], 3)
  }

  const TERMS: seq<nat> := [0, 1, 2, 4, 5, 7, 8, 10, 11, 12, 16, 22, 23, 26]

  /** The coefficient of x^n, lowest power most significant. */
  function Term(n: nat): bv32
    requires n <= 31
  {
    (1 as bv32) << (31 - n)
  }

  function Pattern(n: nat): bv32
    requires n <= |TERMS|
  {
    if n == 0 then 0 else Pattern(n - 1) | Term(TERMS[n - 1])
  }

  lemma PatternLow()
    ensures Pattern(4) == 0xe800_0000
  {
    assert Pattern(2) == 0xc000_0000;
  }

  lemma PatternMiddle()
    requires Pattern(4) == 0xe800_0000
    ensures Pattern(9) == 0xedb0_0000
  {
    PatternNext(4);
    PatternNext(5);
    PatternNext(6);
    PatternNext(7);
    PatternNext(8);
    hide Pattern;
  }

  lemma PatternHigh()
    requires Pattern(9) == 0xedb0_0000
    ensures Pattern(14) == POLY
  {
    PatternNext(9);
    PatternNext(10);
    PatternNext(11);
    PatternNext(12);
    PatternNext(13);
    hide Pattern;
  }

  /** The terms of the polynomial make the pattern 0xedb88320. */
  lemma PatternIs()
    ensures Pattern(14) == POLY
  {
    hide Pattern, TERMS;
    PatternLow();
    PatternMiddle();
    PatternHigh();
  }

  /** The exclusive-or pattern from the polynomial. */
  method MakePattern() returns (poly: bv32)
    ensures poly == POLY
  {
    hide TERMS, Pattern, Term;
    PatternIs();
    TermsSmall();
    poly := 0;
    PatternNext(0);
    for n := 0 to |TERMS|
      invariant poly == Pattern(n)
    {
      PatternNext(n);
      poly := poly | Term(TERMS[n]);
    }
  }

  lemma PatternNext(n: nat)
    requires n < 14
    ensures |TERMS| == 14 && TERMS[n] <= 31 && Pattern(0) == 0 && Pattern(n + 1) == Pattern(n) | Term(TERMS[n])
  {
    hide Term;
    TermsSmall();
  }

  lemma TermsSmall()
    ensures |TERMS| == 14 && forall i :: 0 <= i < 14 ==> TERMS[i] <= 31
  {
  }

  ghost predicate FilledTo(t: seq<bv32>, k: nat, n: nat) {
    n <= |t| == 256 && forall i :: 0 <= i < n ==> t[i] == Zeros(8 * (k + 1), i as bv32)
  }

  lemma FillNext(t: seq<bv32>, k: nat, n: nat, c: bv32)
    requires FilledTo(t, k, n) && n < 256 && c == Zeros(8 * (k + 1), n as bv32)
    ensures FilledTo(t[n := c], k, n + 1)
  {
    hide Zeros;
  }

  lemma FilledAll(t: seq<bv32>, k: nat)
    ensures |t| == 256 ==> FilledTo(t, k, 0)
    ensures FilledTo(t, k, 256) ==> TableFor(t, k)
  {
    hide Zeros;
  }

  /** The checksum of every 8-bit value. */
  method MakeFirst(poly: bv32) returns (t0: array<bv32>)
    requires poly == POLY
    ensures fresh(t0) && TableFor(t0[..], 0)
  {
    hide Zeros, FilledTo, TableFor;
    t0 := new bv32[256];
    FilledAll(t0[..], 0);
    for n := 0 to 256
      invariant FilledTo(t0[..], 0, n)
    {
      ghost var was := t0[..];
      var c := OneEntry(n as bv32, poly);
      FillNext(was, 0, n, c);
      t0[n] := c;
      assert t0[..] == was[n := c];
    }
    FilledAll(t0[..], 0);
  }

  /** Each value followed by k zero bytes, from the table with one less. */
  method MakeNext(t0: seq<bv32>, prev: seq<bv32>, k: nat) returns (t: array<bv32>)
    requires TableFor(t0, 0) && TableFor(prev, k)
    ensures fresh(t) && TableFor(t[..], k + 1)
  {
    hide Zeros, FilledTo, TableFor;
    t := new bv32[256];
    FilledAll(t[..], k + 1);
    TableSize(prev, k);
    for n := 0 to 256
      invariant FilledTo(t[..], k + 1, n)
    {
      ghost var was := t[..];
      EntryOf(prev, k, n);
      var c := NextEntry(t0, prev[n], 8 * (k + 1), n as bv32);
      FillNext(was, k + 1, n, c);
      t[n] := c;
      assert t[..] == was[n := c];
    }
    FilledAll(t[..], k + 1);
  }

  lemma EntryOf(t: seq<bv32>, k: nat, n: nat)
    requires TableFor(t, k) && n < 256
    ensures |t| == 256 && t[n] == Zeros(8 * (k + 1), n as bv32)
  {
    hide Zeros;
  }

  /** Generate the tables for a byte alone and followed by one, two and three zero bytes. */
  method MakeTables() returns (t: seq<seq<bv32>>)
    ensures Tables(t)
  {
    hide Zeros, TableFor;
    var poly := MakePattern();
    var t0 := MakeFirst(poly);
    var t1 := MakeNext(t0[..], t0[..], 0);
    var t2 := MakeNext(t0[..], t1[..], 1);
    var t3 := MakeNext(t0[..], t2[..], 2);
    t := [t0[..], t1[..], t2[..], t3[..]];
  }

  /** The register after the eight bits of one value. */
  method OneEntry(n: bv32, poly: bv32) returns (c: bv32)
    requires poly == POLY
    ensures c == Zeros(8, n)
  {
    hide Odd, Half, Xor;
    c := n;
    for k := 0 to 8
      invariant c == Zeros(k, n)
    {
      c := if Odd(c) then Xor(poly, Half(c)) else Half(c);
    }
  }

  /** One zero byte more. */
  method NextEntry(t0: seq<bv32>, c: bv32, bits: nat, ghost n: bv32) returns (r: bv32)
    requires TableFor(t0, 0) && c == Zeros(bits, n)
    ensures r == Zeros(bits + 8, n)
  {
    hide Zeros, TableFor, Xor, LowByte, Rest;
    ByteByTable(t0, c);
    ZerosAdd(8, bits, n);
    TableSize(t0, 0);
    r := Xor(t0[Index(LowByte(c))], Rest(c));
  }

  lemma TableSize(t: seq<bv32>, k: nat)
    requires TableFor(t, k)
    ensures |t| == 256
  {
    hide Zeros;
  }

  /** Eight steps of the register by one look at the table. */
  lemma ByteByTable(t0: seq<bv32>, c: bv32)
    requires TableFor(t0, 0)
    ensures |t0| == 256 && Zeros(8, c) == Xor(t0[Index(LowByte(c))], Rest(c))
  {
    hide Zeros, TableFor, Xor, LowByte, Rest, Index;
    TableSize(t0, 0);
    SplitByte(c);
    TableAt(t0, 0, LowByte(c));
  }

  // ---- four bytes at a time ----

  lemma Peel(n: nat, x: bv32)
    ensures Zeros(n + 8, x) == Xor(Zeros(n + 8, LowByte(x)), Zeros(n, Rest(x)))
  {
    hide *;
    ZerosAdd(n, 8, x);
    ZerosAdd(n, 8, LowByte(x));
    SplitByte(x);
    ZerosLinear(n, Zeros(8, LowByte(x)), Rest(x));
  }

  lemma LastByte(x: bv32)
    ensures Rest(Rest(Rest(x))) <= 0xff && LowByte(Rest(Rest(Rest(x)))) == Rest(Rest(Rest(x))) == x >> 24
    ensures LowByte(Rest(x)) == (x >> 8) & 0xff && LowByte(Rest(Rest(x))) == (x >> 16) & 0xff
  {
  }

  /** Four bytes of the register by four looks at the tables. */
  lemma WordByTables(t: seq<seq<bv32>>, x: bv32)
    requires Tables(t)
    ensures |t| == 4 && |t[0]| == |t[1]| == |t[2]| == |t[3]| == 256
    ensures var b0: Byte, b1: Byte, b2: Byte, b3: Byte := LowByte(x), LowByte(Rest(x)), LowByte(Rest(Rest(x))), LowByte(Rest(Rest(Rest(x))));
      Zeros(32, x) == Xor(Xor(Xor(t[3][Index(b0)], t[2][Index(b1)]), t[1][Index(b2)]), t[0][Index(b3)])
  {
    hide Zeros, TableFor, Xor, LowByte, Rest, Index;
    TableSize(t[0], 0);
    TableSize(t[1], 1);
    TableSize(t[2], 2);
    TableSize(t[3], 3);
    var y, z, u := Rest(x), Rest(Rest(x)), Rest(Rest(Rest(x)));
    Peel(24, x);
    Peel(16, y);
    Peel(8, z);
    LastByte(x);
    TableAt(t[3], 3, LowByte(x));
    TableAt(t[2], 2, LowByte(y));
    TableAt(t[1], 1, LowByte(z));
    TableAt(t[0], 0, LowByte(u));
    var p, q, r, v := t[3][Index(LowByte(x))], t[2][Index(LowByte(y))], t[1][Index(LowByte(z))], t[0][Index(LowByte(u))];
    XorAssoc(p, q, Xor(r, v));
    XorAssoc(Xor(p, q), r, v);
  }

  function Up8(b: bv32): bv32 { b << 8 }

  function Up16(b: bv32): bv32 { b << 16 }

  function Up24(b: bv32): bv32 { b << 24 }

  lemma UpByte(b: Byte)
    ensures Zeros(8, Up8(b)) == b && Zeros(16, Up16(b)) == b && Zeros(24, Up24(b)) == b
  {
    UpBits(b);
    hide Zeros, Rest, Up8, Up16, Up24;
    HighByte(Up8(b));
    HighByte(Up16(b));
    HighByte(Up24(b));
    ZerosAdd(8, 8, Up16(b));
    ZerosAdd(16, 8, Up24(b));
  }

  lemma UpBits(b: Byte)
    ensures Up8(b) & 0xff == 0 && Up16(b) & 0xff == 0 && Up24(b) & 0xff == 0
    ensures Rest(Up8(b)) == b && Rest(Up16(b)) == Up8(b) && Rest(Up24(b)) == Up16(b)
  {
  }

  /** A byte enters the register later by entering it higher up. */
  lemma FeedLater(n: nat, y: bv32, b: bv32, high: bv32)
    requires Zeros(n, high) == b
    ensures Zeros(8, Xor(Zeros(n, y), b)) == Zeros(n + 8, Xor(y, high))
  {
    hide *;
    ZerosLinear(n, y, high);
    ZerosAdd(8, n, Xor(y, high));
  }

  /** A little-endian word. */
  function Word(b0: Byte, b1: Byte, b2: Byte, b3: Byte): bv32 {
    b0 | (b1 << 8) | (b2 << 16) | (b3 << 24)
  }

  lemma Bytewise(b0: bv32, b1: bv32, b2: bv32, b3: bv32)
    requires b0 <= 0xff && b1 <= 0xff && b2 <= 0xff && b3 <= 0xff
    ensures b0 | (b1 << 8) | (b2 << 16) | (b3 << 24) == b0 ^ (b1 << 8) ^ (b2 << 16) ^ (b3 << 24)
  {
  }

  lemma WordIs(c: bv32, b0: Byte, b1: Byte, b2: Byte, b3: Byte)
    ensures Xor(c, Word(b0, b1, b2, b3)) == Xor(Xor(Xor(Xor(c, b0), Up8(b1)), Up16(b2)), Up24(b3))
  {
    Bytewise(b0, b1, b2, b3);
    assert Word(b0, b1, b2, b3) == Xor(Xor(Xor(b0, Up8(b1)), Up16(b2)), Up24(b3));
    hide *;
    XorAssoc(c, b0, Up8(b1));
    XorAssoc(c, Xor(b0, Up8(b1)), Up16(b2));
    XorAssoc(c, Xor(Xor(b0, Up8(b1)), Up16(b2)), Up24(b3));
  }

  lemma RegisterFour(c: bv32, b0: Byte, b1: Byte, b2: Byte, b3: Byte)
    ensures Register(c, [b0, b1, b2, b3]) == Zeros(32, Xor(c, Word(b0, b1, b2, b3)))
  {
    hide *;
    var s0: seq<Byte>, s1: seq<Byte>, s2: seq<Byte>, s3: seq<Byte> := [b0], [b0, b1], [b0, b1, b2], [b0, b1, b2, b3];
    assert s3[..3] == s2 && s2[..2] == s1 && s1[..1] == s0 && s0[..0] == [];
    RegisterNext(c, s0);
    RegisterNext(c, s1);
    RegisterNext(c, s2);
    RegisterNext(c, s3);
    RegisterNone(c);
    UpByte(b1);
    UpByte(b2);
    UpByte(b3);
    var y := Xor(c, b0);
    FeedLater(8, y, b1, Up8(b1));
    FeedLater(16, Xor(y, Up8(b1)), b2, Up16(b2));
    FeedLater(24, Xor(Xor(y, Up8(b1)), Up16(b2)), b3, Up24(b3));
    WordIs(c, b0, b1, b2, b3);
  }

  /** One byte by the table. */
  method OneByte(c: bv32, b: Byte, t: seq<seq<bv32>>) returns (r: bv32)
    requires Tables(t)
    ensures r == Register(c, [b])
  {
    hide Zeros, TableFor, Xor, LowByte, Rest, Index, Register;
    var x := Xor(c, b);
    ByteByTable(t[0], x);
    assert [b][..0] == [];
    RegisterNext(c, [b]);
    RegisterNone(c);
    r := Xor(t[0][Index(LowByte(x))], Rest(x));
  }

  /** DOLIT4: one word by the four tables. */
  method OneWord(c: bv32, b0: Byte, b1: Byte, b2: Byte, b3: Byte, t: seq<seq<bv32>>) returns (r: bv32)
    requires Tables(t)
    ensures r == Register(c, [b0, b1, b2, b3])
  {
    hide Zeros, Tables, Xor, LowByte, Rest, Index, Register, Word;
    var x := Xor(c, Word(b0, b1, b2, b3));
    RegisterFour(c, b0, b1, b2, b3);
    WordByTables(t, x);
    r := Xor(Xor(Xor(t[3][Index(LowByte(x))], t[2][Index(LowByte(Rest(x)))]), t[1][Index(LowByte(Rest(Rest(x))))]),
             t[0][Index(LowByte(Rest(Rest(Rest(x)))))]);
  }

  /** The register over part of a buffer, extended. */
  lemma RegisterOn(c0: bv32, buf: seq<Byte>, i: nat, j: nat)
    requires i <= j <= |buf|
    ensures Register(c0, buf[..j]) == Register(Register(c0, buf[..i]), buf[i..j])
  {
    hide *;
    assert buf[..j] == buf[..i] + buf[i..j];
    RegisterConcat(c0, buf[..i], buf[i..j]);
  }

  /** crc32_little: single bytes up to a word boundary, words, and single bytes. */
  method CrcLittle(crc: bv32, buf: seq<Byte>, address: nat, t: seq<seq<bv32>>) returns (r: bv32)
    requires Tables(t)
    ensures r == Xor(Register(Xor(crc, ONES), buf), ONES)
  {
    hide Tables, Xor, Register;
    var c := Xor(crc, ONES);
    ghost var c0 := c;
    var i := 0;
    RegisterNone(c0);
    assert buf[..0] == [];
    while i < |buf| && (address + i) % 4 != 0
      invariant i <= |buf| && c == Register(c0, buf[..i])
    {
      RegisterOn(c0, buf, i, i + 1);
      assert buf[i..i + 1] == [buf[i]];
      c := OneByte(c, buf[i], t);
      i := i + 1;
    }
    while |buf| - i >= 32
      invariant i <= |buf| && c == Register(c0, buf[..i])
      decreases |buf| - i
    {
      ghost var start := i;
      for k := 0 to 8
        invariant i == start + 4 * k && i + 4 * (8 - k) <= |buf| && c == Register(c0, buf[..i])
      {
        c := NextWord(c, buf, i, t, c0);
        i := i + 4;
      }
    }
    while |buf| - i >= 4
      invariant i <= |buf| && c == Register(c0, buf[..i])
    {
      c := NextWord(c, buf, i, t, c0);
      i := i + 4;
    }
    while i < |buf|
      invariant i <= |buf| && c == Register(c0, buf[..i])
    {
      RegisterOn(c0, buf, i, i + 1);
      assert buf[i..i + 1] == [buf[i]];
      c := OneByte(c, buf[i], t);
      i := i + 1;
    }
    assert buf[..i] == buf;
    r := Xor(c, ONES);
  }

  method NextWord(c: bv32, buf: seq<Byte>, i: nat, t: seq<seq<bv32>>, ghost c0: bv32) returns (r: bv32)
    requires Tables(t) && i + 4 <= |buf| && c == Register(c0, buf[..i])
    ensures r == Register(c0, buf[..i + 4])
  {
    hide Tables, Xor, Register;
    RegisterOn(c0, buf, i, i + 4);
    assert buf[i..i + 4] == [buf[i], buf[i + 1], buf[i + 2], buf[i + 3]];
    r := OneWord(c, buf[i], buf[i + 1], buf[i + 2], buf[i + 3], t);
  }

  datatype Buffer = Null | Buffer(bytes: seq<Byte>)

  /** crc32 of a buffer at any address, continuing from an earlier checksum. */
  method ComputeCrc32(crc: bv32, buf: Buffer, address: nat, t: seq<seq<bv32>>) returns (r: bv32)
    requires Tables(t)
    ensures buf.Null? ==> r == 0
    ensures buf.Buffer? ==> r == Xor(Register(Xor(crc, ONES), buf.bytes), ONES)
    ensures buf.Buffer? ==> forall a :: crc == Crc(a) ==> r == Crc(a + buf.bytes)
  {
    hide Tables, Xor, Register, Crc;
    if buf.Null? {
      return 0;
    }
    r := CrcLittle(crc, buf.bytes, address, t);
    forall a | crc == Crc(a)
      ensures r == Crc(a + buf.bytes)
    {
      Continues(a, buf.bytes);
    }
  }

  /** A checksum can be continued. */
  lemma Continues(a: seq<Byte>, b: seq<Byte>)
    ensures Crc(a + b) == Xor(Register(Xor(Crc(a), ONES), b), ONES)
  {
    hide Xor, Register;
    RegisterConcat(ONES, a, b);
    XorAssoc(Register(ONES, a), ONES, ONES);
    XorSelf(ONES);
    XorSelf(Register(ONES, a));
  }

  // ---- known values ----

  /** Eight steps of the register, one after the other. */
  lemma EightSteps(c: bv32)
    ensures Zeros(8, c) == Shift(Shift(Shift(Shift(Shift(Shift(Shift(Shift(c))))))))
  {
    hide Shift;
    assert Zeros(1, c) == Shift(c);
    assert Zeros(3, c) == Shift(Shift(Zeros(1, c)));
    assert Zeros(5, c) == Shift(Shift(Zeros(3, c)));
    assert Zeros(7, c) == Shift(Shift(Zeros(5, c)));
  }

  lemma NextRegister(c: bv32, buf: seq<Byte>, b: Byte, r: bv32)
    ensures Shift(Shift(Shift(Shift(Shift(Shift(Shift(Shift(Xor(Register(c, buf), b))))))))) == Register(c, buf + [b])
  {
    hide Shift, Xor, Zeros;
    var more := buf + [b];
    assert more[..|buf|] == buf;
    RegisterNext(c, more);
    EightSteps(Xor(Register(c, buf), b));
  }

  /** Appending its checksum to a message, lowest byte first, leaves one value in the
      register, whatever the message is. */
  lemma Residue(buf: seq<Byte>)
    ensures var c := Crc(buf);
      Register(0xffff_ffff, buf + [LowByte(c), LowByte(Rest(c)), LowByte(Rest(Rest(c))), LowByte(Rest(Rest(Rest(c))))]) == 0xdebb_20e3
  {
    hide Register, Zeros, Xor, LowByte, Rest, Word;
    var c, r := Crc(buf), Register(ONES, buf);
    var b0, b1, b2, b3 := LowByte(c), LowByte(Rest(c)), LowByte(Rest(Rest(c))), LowByte(Rest(Rest(Rest(c))));
    RegisterConcat(ONES, buf, [b0, b1, b2, b3]);
    RegisterFour(r, b0, b1, b2, b3);
    WordOf(c);
    XorAssoc(r, r, ONES);
    XorSelf(r);
    XorSelf(ONES);
    OnesFed();
  }

  lemma WordOf(c: bv32)
    ensures Word(LowByte(c), LowByte(Rest(c)), LowByte(Rest(Rest(c))), LowByte(Rest(Rest(Rest(c))))) == c
  {
  }

  lemma OnesFed()
    ensures ONES == 0xffff_ffff && Zeros(32, 0xffff_ffff) == 0xdebb_20e3
  {
    EightSteps(0xffff_ffff);
    EightSteps(0x2dfd_1072);
    EightSteps(0xbe26_ed00);
    EightSteps(0x00be_26ed);
    assert Shift(Shift(Shift(Shift(Shift(Shift(Shift(Shift(0xffff_ffff)))))))) == 0x2dfd_1072;
    assert Shift(Shift(Shift(Shift(Shift(Shift(Shift(Shift(0x2dfd_1072)))))))) == 0xbe26_ed00;
    assert Shift(Shift(Shift(Shift(Shift(Shift(Shift(Shift(0xbe26_ed00)))))))) == 0x00be_26ed;
    hide Zeros, Shift;
    ZerosAdd(8, 8, 0xffff_ffff);
    ZerosAdd(8, 16, 0xffff_ffff);
    ZerosAdd(8, 24, 0xffff_ffff);
  }

  /** The bytes of 123456789. */
  const NINE: seq<Byte> := [0x31, 0x32, 0x33, 0x34, 0x35, 0x36, 0x37, 0x38, 0x39]

  lemma OneRegister(buf: seq<Byte>, b: Byte, c: bv32, r: bv32)
    requires Register(0xffff_ffff, buf) == c && Shift(Shift(Shift(Shift(Shift(Shift(Shift(Shift(Xor(c, b))))))))) == r
    ensures Register(0xffff_ffff, buf + [b]) == r
  {
    hide *;
    NextRegister(0xffff_ffff, buf, b, r);
  }

  /** The checksum of 123456789. */
  lemma CheckValue()
    ensures Crc(NINE) == 0xcbf4_3926
  {
    RegisterNone(0xffff_ffff);
    assert NINE[..1] == NINE[..0] + [0x31];
    OneRegister(NINE[..0], 0x31, 0xffff_ffff, 0x7c23_1048);
    assert NINE[..2] == NINE[..1] + [0x32];
    OneRegister(NINE[..1], 0x32, 0x7c23_1048, 0xb0ac_bb32);
    assert NINE[..3] == NINE[..2] + [0x33];
    OneRegister(NINE[..2], 0x33, 0xb0ac_bb32, 0x77b7_9c2d);
    assert NINE[..4] == NINE[..3] + [0x34];
    OneRegister(NINE[..3], 0x34, 0x77b7_9c2d, 0x641c_1f5c);
    assert NINE[..5] == NINE[..4] + [0x35];
    OneRegister(NINE[..4], 0x35, 0x641c_1f5c, 0x340a_c5e3);
    assert NINE[..6] == NINE[..5] + [0x36];
    OneRegister(NINE[..5], 0x36, 0x340a_c5e3, 0xf68d_2c9e);
    assert NINE[..7] == NINE[..6] + [0x37];
    OneRegister(NINE[..6], 0x37, 0xf68d_2c9e, 0xaffc_9660);
    assert NINE[..8] == NINE[..7] + [0x38];
    OneRegister(NINE[..7], 0x38, 0xaffc_9660, 0x651f_2550);
    assert NINE[..9] == NINE[..8] + [0x39];
    OneRegister(NINE[..8], 0x39, 0x651f_2550, 0x340b_c6d9);
    assert NINE[..9] == NINE;
  }
}
