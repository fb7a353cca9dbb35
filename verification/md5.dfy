/** Streaming MD5 (RFC 1321): buffering, the 64-bit count, padding, and what a
    digest leaves behind. */
module Md5 {

  type Byte = x: int | 0 <= x < 256

  const TWO32 := 0x1_0000_0000

  datatype Words = Words(a: bv32, b: bv32, c: bv32, d: bv32)

  const INIT := Words(0x67452301, 0xefcdab89, 0x98badcfe, 0x10325476)

  /** The constants of the four rounds. */
  const SINES: seq<seq<bv32>> := [
    [0xd76aa478, 0xe8c7b756, 0x242070db, 0xc1bdceee, 0xf57c0faf, 0x4787c62a, 0xa8304613, 0xfd469501,
     0x698098d8, 0x8b44f7af, 0xffff5bb1, 0x895cd7be, 0x6b901122, 0xfd987193, 0xa679438e, 0x49b40821],
    [0xf61e2562, 0xc040b340, 0x265e5a51, 0xe9b6c7aa, 0xd62f105d, 0x02441453, 0xd8a1e681, 0xe7d3fbc8,
     0x21e1cde6, 0xc33707d6, 0xf4d50d87, 0x455a14ed, 0xa9e3e905, 0xfcefa3f8, 0x676f02d9, 0x8d2a4c8a],
    [0xfffa3942, 0x8771f681, 0x6d9d6122, 0xfde5380c, 0xa4beea44, 0x4bdecfa9, 0xf6bb4b60, 0xbebfbc70,
     0x289b7ec6, 0xeaa127fa, 0xd4ef3085, 0x04881d05, 0xd9d4d039, 0xe6db99e5, 0x1fa27cf8, 0xc4ac5665],
    [0xf4292244, 0x432aff97, 0xab9423a7, 0xfc93a039, 0x655b59c3, 0x8f0ccc92, 0xffeff47d, 0x85845dd1,
     0x6fa87e4f, 0xfe2ce6e0, 0xa3014314, 0x4e0811a1, 0xf7537e82, 0xbd3af235, 0x2ad7d2bb, 0xeb86d391]]

  const SHIFTS: seq<nat> := [7, 12, 17, 22, 5, 9, 14, 20, 4, 11, 16, 23, 6, 10, 15, 21]

  // Bitwise operations by name, so that proofs about many of them need not look at bits.

  function And(a: bv32, b: bv32): bv32 { a & b }

  function Or(a: bv32, b: bv32): bv32 { a | b }

  function Xor(a: bv32, b: bv32): bv32 { a ^ b }

  function Not(a: bv32): bv32 { !a }

  /** F, G, H and I of the four rounds. */
  function Mix(round: nat, x: bv32, y: bv32, z: bv32): bv32 {
    if round == 0 then Or(And(x, y), And(Not(x), z))
    else if round == 1 then Or(And(x, z), And(y, Not(z)))
    else if round == 2 then Xor(Xor(x, y), z)
    else Xor(y, Or(x, Not(z)))
  }

  /** Which word of the block step i adds. */
  function WordIndex(i: nat): (k: nat)
    requires i < 64
    ensures k < 16
  {
    if i < 16 then i else if i < 32 then (5 * i + 1) % 16 else if i < 48 then (3 * i + 5) % 16 else 7 * i % 16
  }

  /** One of the 64 steps; the words change roles after each. */
  function Step(i: nat, w: Words, x: seq<bv32>): Words
    requires i < 64 && |x| == 16
  {
    Words(w.d, Stirred(i / 16, w, x[WordIndex(i)], SINES[i / 16][i % 16], SHIFTS[4 * (i / 16) + i % 4]), w.b, w.c)
  }

  /** The word that a step computes. */
  function Stirred(round: nat, w: Words, x: bv32, sine: bv32, shift: nat): bv32
    requires shift < 32
  {
    w.b + RotateLeft(w.a + Mix(round, w.b, w.c, w.d) + x + sine, shift)
  }

  function RotateLeft(x: bv32, n: nat): bv32
    requires n < 32
  {
    (x << n) | (x >> (32 - n))
  }

  function Steps(n: nat, w: Words, x: seq<bv32>): Words
    requires n <= 64 && |x| == 16
  {
    if n == 0 then w else Step(n - 1, Steps(n - 1, w, x), x)
  }

  function Word(b: seq<Byte>, i: nat): bv32
    requires 4 * i + 4 <= |b|
  {
    (b[4 * i] as bv32) | ((b[4 * i + 1] as bv32) << 8) | ((b[4 * i + 2] as bv32) << 16) | ((b[4 * i + 3] as bv32) << 24)
  }

  /** The block function: 64 steps added to the state. */
  function Block(w: Words, block: seq<Byte>): Words
    requires |block| == 64
  {
    var x := seq(16, i requires 0 <= i < 16 => Word(block, i));
    var v := Steps(64, w, x);
    Words(w.a + v.a, w.b + v.b, w.c + v.c, w.d + v.d)
  }

  /** The state after the first n whole blocks. */
  function Blocks(w: Words, s: seq<Byte>, n: nat): Words
    requires 64 * n <= |s|
  {
    if n == 0 then w else Block(Blocks(w, s, n - 1), s[64 * (n - 1)..64 * n])
  }

  /** A 32-bit value, least significant byte first. */
  function Bytes32(v: nat): (b: seq<Byte>)
    ensures |b| == 4
  {
    [v % 256, v / 256 % 256, v / 65536 % 256, v / 16777216 % 256]
  }

  function ZeroBytes(n: nat): (b: seq<Byte>)
    ensures |b| == n
  {
    seq(n, i => 0)
  }

  /** Bytes from the tail of a message to the length field. */
  function PadLength(tail: nat): nat
    requires tail < 64
  {
    if tail < 56 then 56 - tail else 120 - tail
  }

  function PadBytes(n: nat): (b: seq<Byte>)
    requires n >= 1
    ensures |b| == n
  {
    [0x80] + ZeroBytes(n - 1)
  }

  /** The bit count modulo 2^64. */
  function LengthBytes(n: nat): (b: seq<Byte>)
    ensures |b| == 8
  {
    Bytes32(8 * n % TWO32) + Bytes32(8 * n / TWO32 % TWO32)
  }

  lemma PaddedLength(n: nat)
    ensures (n + PadLength(n % 64) + 8) % 64 == 0
  {
  }

  /** A message padded as in sections 3.1 and 3.2 of RFC 1321. */
  function Padded(msg: seq<Byte>): (p: seq<Byte>)
    ensures |p| % 64 == 0
  {
    PaddedLength(|msg|);
    msg + PadBytes(PadLength(|msg| % 64)) + LengthBytes(|msg|)
  }

  function BytesOf(w: Words): seq<Byte> {
    Bytes32(w.a as nat) + Bytes32(w.b as nat) + Bytes32(w.c as nat) + Bytes32(w.d as nat)
  }

  /** The digest of a message. */
  function Digest(msg: seq<Byte>): seq<Byte> {
    BytesOf(Blocks(INIT, Padded(msg), |Padded(msg)| / 64))
  }

  // ---- blocks of a growing message ----

  lemma {:induction false} BlocksPrefix(w: Words, s: seq<Byte>, t: seq<Byte>, n: nat)
    requires 64 * n <= |s| && s <= t
    ensures Blocks(w, t, n) == Blocks(w, s, n)
  {
    hide Block;
    if n > 0 {
      BlocksPrefix(w, s, t, n - 1);
      assert t[64 * (n - 1)..64 * n] == s[64 * (n - 1)..64 * n];
    }
  }

  lemma BlocksNext(w: Words, s: seq<Byte>, n: nat, block: seq<Byte>)
    requires 64 * n + 64 <= |s| && block == s[64 * n..64 * n + 64]
    ensures Blocks(w, s, n + 1) == Block(Blocks(w, s, n), block)
  {
    hide Block;
  }

  // ---- what a digest leaves in the buffer ----

  /** s written over b from position at. */
  function Overlay(b: seq<Byte>, at: nat, s: seq<Byte>): (r: seq<Byte>)
    requires at + |s| <= |b|
    ensures |r| == |b|
  {
    b[..at] + s + b[at + |s|..]
  }

  /** The buffer after an update: filled up, and if that completed a block, the
      last partial block of the input on top. */
  function BufferAfter(b: seq<Byte>, index: nat, input: seq<Byte>): (r: seq<Byte>)
    requires |b| == 64 && index < 64
    ensures |r| == 64
  {
    if index + |input| < 64 then Overlay(b, index, input)
    else
      var part := 64 - index;
      Overlay(Overlay(b, index, input[..part]), 0, input[|input| - (index + |input|) % 64..])
  }

  /** The message that later updates continue after a digest: a tail of 56 bytes
      or more has been overwritten by the padding. */
  function Resumed(msg: seq<Byte>): (r: seq<Byte>)
    ensures |r| == |msg|
  {
    var tail := |msg| % 64;
    if tail < 56 then msg else msg[..|msg| - tail] + (ZeroBytes(56) + LengthBytes(|msg|))[..tail]
  }

  /** Updates after a digest continue the same message exactly when its tail was
      under 56 bytes, or happened to equal the padding that replaced it. */
  lemma ResumesSame(msg: seq<Byte>)
    ensures Resumed(msg) == msg <==>
      var tail := |msg| % 64;
      tail < 56 || msg[|msg| - tail..] == (ZeroBytes(56) + LengthBytes(|msg|))[..tail]
  {
    var tail := |msg| % 64;
    if tail >= 56 {
      hide ZeroBytes, LengthBytes;
      var pad := (ZeroBytes(56) + LengthBytes(|msg|))[..tail];
      assert msg == msg[..|msg| - tail] + msg[|msg| - tail..];
      assert Resumed(msg)[|msg| - tail..] == pad;
    }
  }

  /** 56 bytes of 'a' are enough to lose the message. */
  lemma LostTail(msg: seq<Byte>)
    requires |msg| == 56 && msg[0] == 0x61
    ensures Resumed(msg) != msg
  {
    assert Resumed(msg)[0] == 0;
  }

  /** The buffer after padding a message with tail bytes in it. */
  lemma BufferPadded(b: seq<Byte>, tail: nat, lengthBytes: seq<Byte>)
    requires |b| == 64 && tail < 64 && |lengthBytes| == 8
    ensures var after := BufferAfter(BufferAfter(b, tail, PadBytes(PadLength(tail))), 56, lengthBytes);
      after[..tail] == if tail < 56 then b[..tail] else (ZeroBytes(56) + lengthBytes)[..tail]
  {
    var pad := PadBytes(PadLength(tail));
    var b1 := BufferAfter(b, tail, pad);
    if tail < 56 {
      assert b1[..tail] == b[..tail];
    } else {
      assert pad[|pad| - 56..] == ZeroBytes(56);
      assert b1[..56] == ZeroBytes(56);
    }
    var b2 := BufferAfter(b1, 56, lengthBytes);
    assert b2 == b1[..56] + lengthBytes;
  }

  // ---- the bit count ----

  /** The two halves of a bit count modulo 2^64. */
  predicate Counts(count0: nat, count1: nat, n: nat) {
    count0 < TWO32 && count1 < TWO32 && count0 == 8 * n % TWO32 && count1 == 8 * n / TWO32 % TWO32
  }

  lemma LowCount(n: nat, len: nat)
    ensures (8 * n % TWO32 + 8 * len % TWO32) % TWO32 == 8 * (n + len) % TWO32
  {
  }

  lemma HighCount(n: nat, len: nat)
    requires len < TWO32
    ensures 8 * (n + len) / TWO32 == 8 * n / TWO32 + len / 0x2000_0000 + (if 8 * n % TWO32 + 8 * len % TWO32 >= TWO32 then 1 else 0)
  {
    assert 8 * len / TWO32 == len / 0x2000_0000;
  }

  lemma AddCounts(c0: nat, c1: nat, n: nat, len: nat, s0: nat, s1: nat)
    requires Counts(c0, c1, n) && len < TWO32
    requires s0 == (c0 + 8 * len % TWO32) % TWO32
    requires s1 == ((c1 + if s0 < 8 * len % TWO32 then 1 else 0) % TWO32 + len / 0x2000_0000) % TWO32
    ensures Counts(s0, s1, n + len)
  {
    LowCount(n, len);
    HighCount(n, len);
    Carry(8 * n % TWO32, 8 * len % TWO32);
    ModSum(8 * n / TWO32, if s0 < 8 * len % TWO32 then 1 else 0, len / 0x2000_0000);
  }

  /** The sum of two halves wrapped exactly when it came out below either. */
  lemma Carry(a: nat, b: nat)
    requires a < TWO32 && b < TWO32
    ensures (a + b) % TWO32 < b <==> a + b >= TWO32
  {
  }

  lemma ModSum(h: nat, c: nat, x: nat)
    ensures ((h % TWO32 + c) % TWO32 + x) % TWO32 == (h + c + x) % TWO32
  {
  }

  lemma CountsBelow(c0: nat, c1: nat, n: nat)
    requires Counts(c0, c1, n)
    ensures c0 < TWO32 && c1 < TWO32
  {
  }

  lemma CountIndex(c0: nat, c1: nat, n: nat)
    requires Counts(c0, c1, n)
    ensures c0 / 8 % 64 == n % 64
    ensures LengthBytes(n) == Bytes32(c0) + Bytes32(c1)
  {
    hide Bytes32;
    assert c0 / 8 == n % 0x2000_0000;
    Mod64(n);
  }

  lemma Mod64(n: nat)
    ensures n % 0x2000_0000 % 64 == n % 64
  {
    var q, r := n / 0x2000_0000, n % 0x2000_0000;
    assert n == 64 * (q * 0x80_0000) + r;
    AddMultiple(r, q * 0x80_0000);
  }

  lemma AddMultiple(r: nat, k: nat)
    ensures (64 * k + r) % 64 == r % 64
  {
  }

  // ---- the calculator ----

  /** State and buffer stand for the message so far. */
  ghost predicate StandsFor(msg: seq<Byte>, state: Words, buffer: seq<Byte>) {
    var tail := |msg| % 64;
    |buffer| == 64 && state == Blocks(INIT, msg, |msg| / 64) && buffer[..tail] == msg[|msg| - tail..]
  }

  class Calculator {
    var state: Words
    var count0: nat
    var count1: nat
    const buffer: array<Byte>
    var digest: seq<Byte>
    var finished: bool
    ghost var msg: seq<Byte>

    /** State, count and buffer are those of the message so far. */
    ghost predicate Tracks()
      reads this, buffer
    {
      buffer.Length == 64 && Counts(count0, count1, |msg|) && StandsFor(msg, state, buffer[..])
    }

    /** The finished flag never survives a call: the padding itself resets it. */
    ghost predicate Valid()
      reads this, buffer
    {
      Tracks() && !finished
    }

    constructor ()
      ensures Valid() && msg == [] && fresh(buffer)
    {
      state, count0, count1, finished := INIT, 0, 0, false;
      buffer := new Byte[64];
      digest := [];
      msg := [];
    }

    method Reset()
      requires buffer.Length == 64
      modifies this
      ensures Valid() && msg == []
    {
      finished := false;
      count0, count1 := 0, 0;
      state := INIT;
      msg := [];
    }

    /** memcpy into the buffer. */
    method Fill(index: nat, input: seq<Byte>)
      requires index + |input| <= buffer.Length
      modifies buffer
      ensures buffer[..] == Overlay(old(buffer[..]), index, input)
    {
      ghost var was := buffer[..];
      for k := 0 to |input|
        invariant buffer[..] == Overlay(was, index, input[..k])
      {
        buffer[index + k] := input[k];
        assert input[..k + 1] == input[..k] + [input[k]];
      }
      assert input[..|input|] == input;
    }

    /** Adds 8 * len to the bit count, carrying into the high half. */
    method AddBits(len: nat)
      requires Counts(count0, count1, |msg|) && len < TWO32
      modifies `count0, `count1
      ensures Counts(count0, count1, |msg| + len)
    {
      hide Counts;
      ghost var c0, c1 := count0, count1;
      var bits := 8 * len % TWO32;
      count0 := (count0 + bits) % TWO32;
      if count0 < bits { count1 := (count1 + 1) % TWO32; }
      CountsBelow(c0, c1, |msg|);
      count1 := (count1 + len / 0x2000_0000) % TWO32;
      AddCounts(c0, c1, |msg|, len, count0, count1);
    }

    /** Adds input to the message; false for empty input. For an input that does not
        fit, the loop would not end: see LoopEnds. */
    method Update(input: seq<Byte>) returns (ok: bool)
      requires Tracks() && Fits(|msg| % 64, |input|)
      modifies this, buffer
      ensures Tracks() && ok == (|input| > 0) && (ok ==> !finished) && (!ok ==> finished == old(finished))
      ensures msg == old(msg) + input
      ensures buffer[..] == if ok then BufferAfter(old(buffer[..]), |old(msg)| % 64, input) else old(buffer[..])
      ensures digest == old(digest)
    {
      hide Blocks, StandsFor, Counts, BufferAfter;
      if |input| == 0 {
        assert msg + input == msg;
        return false;
      }
      finished := false;
      CountIndex(count0, count1, |msg|);
      var index := count0 / 8 % 64;
      AddBits(|input|);
      state := Absorb(index, input);
      msg := msg + input;
      ok := true;
    }

    /** Transforms as many times as possible and buffers the rest. */
    method Absorb(index: nat, input: seq<Byte>) returns (s: Words)
      requires index == |msg| % 64 && StandsFor(msg, state, buffer[..]) && 0 < |input| && Fits(index, |input|)
      modifies buffer
      ensures StandsFor(msg + input, s, buffer[..])
      ensures buffer[..] == BufferAfter(old(buffer[..]), index, input)
    {
      hide *;
      ghost var b := buffer[..];
      ghost var t := msg + input;
      ghost var n := |msg| / 64;
      Sizes();
      Starts(msg, state, b, t);
      s := state;
      var partLen := 64 - index;
      var i := 0;
      if |input| >= partLen {
        Fill(index, input[..partLen]);
        FirstBlock(msg, input, b);
        BlocksNext(INIT, t, n, buffer[..]);
        s := Block(s, buffer[..]);
        i := partLen;
        n := n + 1;
        s, i, n := Transforms(msg, input, s, i, n);
        TailLength(index, |input|, i);
        Fill(0, input[i..]);
        Filled(b, index, input, i);
        Rest(msg, input, i);
        Absorbed(msg, input, s, n, buffer[..]);
      } else {
        Fill(index, input);
        Kept(msg, state, input, b);
      }
    }

    /** Pads, records the digest, and restores state and count, but not the buffer. */
    method Final()
      requires Tracks()
      modifies this, buffer
      ensures Valid() && digest == Digest(old(msg)) && msg == Resumed(old(msg))
    {
      hide PadBytes, Blocks, BufferAfter, Resumed, Bytes32, Padded, LengthBytes, StandsFor, BytesOf, Counts;
      var oldState, oldCount0, oldCount1 := state, count0, count1;
      ghost var m := msg;
      ghost var b := buffer[..];
      CountIndex(count0, count1, |msg|);
      var bits := Bytes32(count0) + Bytes32(count1);
      var index := count0 / 8 % 64;
      var padLen := if index < 56 then 56 - index else 120 - index;
      var ok := Update(PadBytes(padLen));
      ghost var pad := PadBytes(padLen);
      AfterPad(|m|);
      ok := Update(bits);
      Pads(m, pad, bits);
      digest := Encode(state);
      Digests(m, state, buffer[..]);
      BufferPadded(b, index, bits);
      state, count0, count1 := oldState, oldCount0, oldCount1;
      Restored(m, oldState, b, buffer[..]);
      msg := Resumed(m);
    }

    /** The digest of the message so far. It is computed on every call, and the
        message that later calls continue is Resumed. */
    method GetDigest() returns (d: seq<Byte>)
      requires Valid()
      modifies this, buffer
      ensures Valid() && d == Digest(old(msg)) && msg == Resumed(old(msg))
    {
      if !finished {
        finished := true;
        Final();
      }
      d := digest;
    }

    /** A file, read 1024 bytes at a time. */
    method UpdateFile(input: seq<Byte>)
      requires Valid()
      modifies this, buffer
      ensures Valid() && msg == old(msg) + input
    {
      hide BufferAfter, StandsFor, Counts;
      var i := 0;
      assert msg == old(msg) + input[..0];
      while i < |input|
        invariant Valid() && 0 <= i <= |input| && msg == old(msg) + input[..i]
      {
        var n := if |input| - i < 1024 then |input| - i else 1024;
        var ok := Update(input[i..i + n]);
        assert input[..i + n] == input[..i] + input[i..i + n];
        i := i + n;
      }
      assert input[..|input|] == input;
    }
  }

  lemma AfterPad(n: nat)
    ensures (n + PadLength(n % 64)) % 64 == 56
  {
  }

  lemma Digests(m: seq<Byte>, state: Words, buffer: seq<Byte>)
    requires StandsFor(Padded(m), state, buffer)
    ensures Digest(m) == BytesOf(state)
  {
    hide Blocks, Padded, BytesOf;
  }

  lemma Pads(m: seq<Byte>, pad: seq<Byte>, bits: seq<Byte>)
    requires pad == PadBytes(PadLength(|m| % 64)) && bits == LengthBytes(|m|)
    ensures m + pad + bits == Padded(m)
  {
  }

  lemma Sizes()
    ensures TWO32 == 0x1_0000_0000
  {
  }

  lemma Starts(msg: seq<Byte>, state: Words, b: seq<Byte>, t: seq<Byte>)
    requires StandsFor(msg, state, b) && msg <= t
    ensures state == Blocks(INIT, t, |msg| / 64) && |b| == 64 && b[..|msg| % 64] == msg[|msg| - |msg| % 64..]
  {
    hide Blocks;
    BlocksPrefix(INIT, msg, t, |msg| / 64);
  }

  /** The buffer, filled up, is the next block of the message. */
  lemma FirstBlock(msg: seq<Byte>, input: seq<Byte>, b: seq<Byte>)
    requires |b| == 64 && b[..|msg| % 64] == msg[|msg| - |msg| % 64..] && |input| >= 64 - |msg| % 64
    ensures var n := |msg| / 64;
      Overlay(b, |msg| % 64, input[..64 - |msg| % 64]) == (msg + input)[64 * n..64 * n + 64]
  {
  }

  lemma Aligned(msg: seq<Byte>, input: seq<Byte>, i: nat, j: nat)
    requires i <= j <= |input|
    ensures input[i..j] == (msg + input)[|msg| + i..|msg| + j]
  {
  }

  lemma Rest(msg: seq<Byte>, input: seq<Byte>, i: nat)
    requires i <= |input|
    ensures input[i..] == (msg + input)[|msg| + i..]
  {
  }

  // ---- when the loop over the blocks ends ----

  /** The loop guard, in 32 bits. */
  predicate GoesOn(i: nat, length: nat) {
    (i + 63) % TWO32 < length
  }

  /** The counter after k turns, when index bytes were buffered before. */
  function CounterAfter(index: nat, k: nat): (i: nat)
    requires index < 64
  {
    if k == 0 then 64 - index else (CounterAfter(index, k - 1) + 64) % TWO32
  }

  /** The input, with what was buffered before, is shorter than 2^32 bytes, or nothing was buffered. */
  predicate Fits(index: nat, length: nat) {
    length < TWO32 && (index == 0 || index + length < TWO32)
  }

  /** The loop ends if and only if the input fits. */
  lemma LoopEnds(index: nat, length: nat)
    requires index < 64 && 64 - index <= length < TWO32
    ensures Fits(index, length) <==> exists k: nat :: !GoesOn(CounterAfter(index, k), length)
  {
    hide CounterAfter, GoesOn;
    if Fits(index, length) {
      var k := (length - (64 - index)) / 64;
      CounterIs(index, k);
      LastTurn(index, length, k);
      assert !GoesOn(CounterAfter(index, k), length);
    } else if k: nat :| !GoesOn(CounterAfter(index, k), length) {
      CounterClass(index, k);
      Again(index, length, CounterAfter(index, k));
      assert false;
    }
  }

  lemma {:induction false} CounterIs(index: nat, k: nat)
    requires index < 64 && 64 - index + 64 * k < TWO32
    ensures CounterAfter(index, k) == 64 - index + 64 * k
  {
    if k > 0 { CounterIs(index, k - 1); }
  }

  lemma {:induction false} CounterClass(index: nat, k: nat)
    requires index < 64
    ensures CounterAfter(index, k) < TWO32 && (index + CounterAfter(index, k)) % 64 == 0
  {
    if k > 0 {
      CounterClass(index, k - 1);
      SameClass(index, CounterAfter(index, k - 1));
    }
  }

  lemma SameClass(index: nat, i: nat)
    requires (index + i) % 64 == 0
    ensures (index + (i + 64) % TWO32) % 64 == 0
  {
    var q := (i + 64) / TWO32;
    assert i + 64 == q * TWO32 + (i + 64) % TWO32;
    assert TWO32 == 64 * 0x400_0000;
    assert index + (i + 64) % TWO32 == (index + i) + 64 * (1 - q * 0x400_0000);
  }

  /** Otherwise the loop goes on wherever it is. */
  lemma Again(index: nat, length: nat, i: nat)
    requires 0 < index < 64 && length < TWO32 <= index + length && i < TWO32 && (index + i) % 64 == 0
    ensures GoesOn(i, length)
  {
    assert index + i == 64 * ((index + i) / 64);
    if i + 63 >= TWO32 { assert (i + 63) % TWO32 == i + 63 - TWO32; }
  }

  lemma LastTurn(index: nat, length: nat, k: nat)
    requires index < 64 && 64 - index <= length && Fits(index, length) && k == (length - (64 - index)) / 64
    ensures 64 - index + 64 * k < TWO32 && !GoesOn(64 - index + 64 * k, length)
  {
    var i := 64 - index + 64 * k;
    assert i <= length < i + 64;
    NoWrap(index, length, i, k + 1);
  }

  /** The counter of an input that fits never wraps around. */
  lemma NoWrap(m: nat, length: nat, i: nat, n: nat)
    requires Fits(m % 64, length) && i <= length && m + i == 64 * n
    ensures i + 63 < TWO32
  {
    var index := m % 64;
    assert (index + i) % 64 == 0;
    assert TWO32 % 64 == 0 && index + i == 64 * ((index + i) / 64);
  }

  /** The whole blocks of the input from i on. */
  method Transforms(ghost msg: seq<Byte>, input: seq<Byte>, s0: Words, i0: nat, ghost n0: nat)
    returns (s: Words, i: nat, ghost n: nat)
    requires i0 <= |input| && Fits(|msg| % 64, |input|) && |msg| + i0 == 64 * n0 && s0 == Blocks(INIT, msg + input, n0)
    ensures i0 <= i <= |input| < i + 64 && |msg| + i == 64 * n && s == Blocks(INIT, msg + input, n)
  {
    hide Block, Blocks;
    s, i, n := s0, i0, n0;
    NoWrap(|msg|, |input|, i, n);
    while GoesOn(i, |input|)
      invariant i + 63 < TWO32 && i0 <= i <= |input| && |msg| + i == 64 * n && s == Blocks(INIT, msg + input, n)
      decreases |input| - i
    {
      Aligned(msg, input, i, i + 64);
      BlocksNext(INIT, msg + input, n, input[i..i + 64]);
      s := Block(s, input[i..i + 64]);
      i := i + 64;
      n := n + 1;
      NoWrap(|msg|, |input|, i, n);
    }
  }

  /** The two copies of an update that completes a block. */
  lemma Filled(b: seq<Byte>, index: nat, input: seq<Byte>, i: nat)
    requires |b| == 64 && index < 64 <= index + |input| && i <= |input| && |input| - i == (index + |input|) % 64
    ensures var after := Overlay(Overlay(b, index, input[..64 - index]), 0, input[i..]);
      after == BufferAfter(b, index, input) && after[..|input| - i] == input[i..]
  {
  }

  /** An update that completes no block. */
  lemma Kept(msg: seq<Byte>, state: Words, input: seq<Byte>, b: seq<Byte>)
    requires StandsFor(msg, state, b) && |msg| % 64 + |input| < 64
    ensures var after := Overlay(b, |msg| % 64, input);
      after == BufferAfter(b, |msg| % 64, input) && StandsFor(msg + input, state, after)
  {
    hide Blocks;
    Starts(msg, state, b, msg + input);
    var after := Overlay(b, |msg| % 64, input);
    assert after[..|msg| % 64 + |input|] == b[..|msg| % 64] + input;
    Absorbed(msg, input, state, |msg| / 64, after);
  }

  /** What is left after n blocks is in the buffer. */
  lemma Absorbed(msg: seq<Byte>, input: seq<Byte>, s: Words, n: nat, buffer: seq<Byte>)
    requires |buffer| == 64 && 64 * n <= |msg + input| < 64 * n + 64
    requires s == Blocks(INIT, msg + input, n)
    requires buffer[..|msg + input| - 64 * n] == (msg + input)[64 * n..]
    ensures StandsFor(msg + input, s, buffer)
  {
    hide Blocks;
  }

  lemma TailLength(index: nat, len: nat, i: nat)
    requires index < 64 && 64 - index <= i <= len && (index + i) % 64 == 0 && len - i < 64
    ensures len - i == (index + len) % 64
  {
  }

  function AllBytes(words: seq<nat>): seq<Byte> {
    if words == [] then [] else AllBytes(words[..|words| - 1]) + Bytes32(words[|words| - 1])
  }

  lemma Bytes32Is(v: nat)
    ensures Bytes32(v) == [v % 256, v / 256 % 256, v / 65536 % 256, v / 16777216 % 256]
  {
  }

  lemma FourWords(w: Words, words: seq<nat>)
    requires words == [w.a as nat, w.b as nat, w.c as nat, w.d as nat]
    ensures AllBytes(words[..4]) == BytesOf(w)
  {
    hide Bytes32;
    assert words[..4][..3] == words[..3] && words[..3][..2] == words[..2] && words[..2][..1] == words[..1] && words[..1][..0] == [];
    assert AllBytes(words[..1]) == Bytes32(words[0]);
    assert AllBytes(words[..2]) == AllBytes(words[..1]) + Bytes32(words[1]);
    assert AllBytes(words[..3]) == AllBytes(words[..2]) + Bytes32(words[2]);
  }

  method Encode(w: Words) returns (output: seq<Byte>)
    ensures output == BytesOf(w)
  {
    hide Bytes32;
    var words := [w.a as nat, w.b as nat, w.c as nat, w.d as nat];
    output := [];
    for i := 0 to 4
      invariant output == AllBytes(words[..i])
    {
      ghost var was := output;
      Bytes32Is(words[i]);
      output := output + [words[i] % 256, words[i] / 256 % 256, words[i] / 65536 % 256, words[i] / 16777216 % 256];
      assert words[..i + 1][..i] == words[..i];
    }
    FourWords(w, words);
  }

  /** With the old state, the overwritten buffer stands for the resumed message. */
  lemma Restored(m: seq<Byte>, state: Words, b: seq<Byte>, after: seq<Byte>)
    requires StandsFor(m, state, b) && |after| == 64
    requires var tail := |m| % 64;
      after[..tail] == if tail < 56 then b[..tail] else (ZeroBytes(56) + LengthBytes(|m|))[..tail]
    ensures StandsFor(Resumed(m), state, after)
  {
    hide Block, ZeroBytes, LengthBytes;
    var tail := |m| % 64;
    var r := Resumed(m);
    var whole := m[..|m| - tail];
    BlocksPrefix(INIT, whole, m, |m| / 64);
    BlocksPrefix(INIT, whole, r, |m| / 64);
  }

  // ---- any split of a message ----

  function Flatten(pieces: seq<seq<Byte>>): seq<Byte> {
    if pieces == [] then [] else Flatten(pieces[..|pieces| - 1]) + pieces[|pieces| - 1]
  }

  /** The digest does not depend on how the message is split into updates. */
  method DigestOfPieces(pieces: seq<seq<Byte>>) returns (d: seq<Byte>)
    requires forall i :: 0 <= i < |pieces| ==> Fits(|Flatten(pieces[..i])| % 64, |pieces[i]|)
    ensures d == Digest(Flatten(pieces))
  {
    var c := new Calculator();
    for i := 0 to |pieces|
      invariant c.Valid() && fresh(c) && fresh(c.buffer) && c.msg == Flatten(pieces[..i])
    {
      var ok := c.Update(pieces[i]);
      assert pieces[..i + 1][..i] == pieces[..i];
    }
    assert pieces[..|pieces|] == pieces;
    d := c.GetDigest();
  }
}
