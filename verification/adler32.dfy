/** Adler-32 (section 8.2 of RFC 1950): sums with deferred reduction, reduction
    without division, and the checksum of a concatenation. */
module Adler32 {

  const BASE := 65521
  const NMAX := 5552

  /** Values of the C type used for the sums; 32 bits are enough. */
  type U32 = x: int | 0 <= x < 0x1_0000_0000

  type Byte = x: int | 0 <= x < 256

  /** The two component sums. */
  datatype Sums = Sums(s1: nat, s2: nat)

  ghost predicate Valid(s: Sums) {
    s.s1 < BASE && s.s2 < BASE
  }

  /** The standard's definition, one byte at a time. */
  function Fold(s: Sums, buf: seq<Byte>): (r: Sums)
    ensures Valid(s) ==> Valid(r)
  {
    if buf == [] then s
    else
      var t := Fold(s, buf[..|buf| - 1]);
      var s1 := (t.s1 + buf[|buf| - 1]) % BASE;
      Sums(s1, (t.s2 + s1) % BASE)
  }

  function Pack(s: Sums): int {
    s.s1 + s.s2 * 65536
  }

  /** The checksum of a byte string. */
  function Adler(buf: seq<Byte>): int {
    Pack(Fold(Sums(1, 0), buf))
  }

  /** What s1 and s2 would be without any reduction: s1 and s2 sum over the bytes. */
  function Total(buf: seq<Byte>): nat {
    if buf == [] then 0 else Total(buf[..|buf| - 1]) + buf[|buf| - 1]
  }

  function Weighted(buf: seq<Byte>): nat {
    if buf == [] then 0 else Weighted(buf[..|buf| - 1]) + Total(buf)
  }

  lemma ModAdd(a: int, b: int)
    ensures (a % BASE + b) % BASE == (a + b) % BASE
  {
  }

  /** The reduced sums are the residues of the unreduced ones, from any start. */
  lemma {:induction false} FoldIs(s: Sums, buf: seq<Byte>)
    requires Valid(s)
    ensures Fold(s, buf).s1 == (s.s1 + Total(buf)) % BASE
    ensures Fold(s, buf).s2 == (s.s2 + |buf| * s.s1 + Weighted(buf)) % BASE
  {
    if buf != [] {
      var init := buf[..|buf| - 1];
      FoldIs(s, init);
      SumsStep(s.s1 + Total(init), s.s2 + |init| * s.s1 + Weighted(init), buf[|buf| - 1]);
      Times(|init|, s.s1);
    }
  }

  /** The bytes of "Wikipedia". */
  const NAME: seq<Byte> := [0x57, 0x69, 0x6b, 0x69, 0x70, 0x65, 0x64, 0x69, 0x61]

  lemma NameByte(b: Byte, i: nat, s: Sums, t: Sums)
    requires i < |NAME| && NAME[i] == b && Fold(Sums(1, 0), NAME[..i]) == s
    requires t == Sums(s.s1 + b, s.s2 + s.s1 + b) && t.s1 < BASE && t.s2 < BASE
    ensures Fold(Sums(1, 0), NAME[..i + 1]) == t
  {
    assert NAME[..i + 1][..i] == NAME[..i];
  }

  lemma NoBytes(buf: seq<Byte>)
    ensures Fold(Sums(1, 0), buf[..0]) == Sums(1, 0)
  {
  }

  /** The checksum of these nine bytes: no reduction takes place. */
  lemma CheckValue()
    ensures Adler(NAME) == 0x11e6_0398
  {
    hide Fold;
    NoBytes(NAME);
    NameByte(0x57, 0, Sums(1, 0), Sums(88, 88));
    NameByte(0x69, 1, Sums(88, 88), Sums(193, 281));
    NameByte(0x6b, 2, Sums(193, 281), Sums(300, 581));
    NameByte(0x69, 3, Sums(300, 581), Sums(405, 986));
    NameByte(0x70, 4, Sums(405, 986), Sums(517, 1503));
    NameByte(0x65, 5, Sums(517, 1503), Sums(618, 2121));
    NameByte(0x64, 6, Sums(618, 2121), Sums(718, 2839));
    NameByte(0x69, 7, Sums(718, 2839), Sums(823, 3662));
    NameByte(0x61, 8, Sums(823, 3662), Sums(920, 4582));
    assert NAME[..9] == NAME;
  }

  function Repeated(b: Byte, n: nat): (s: seq<Byte>)
    ensures |s| == n && forall i :: 0 <= i < n ==> s[i] == b
  {
    seq(n, i => b)
  }

  lemma {:induction false} RepeatedSums(b: Byte, n: nat)
    ensures Total(Repeated(b, n)) == n * b
    ensures 2 * Weighted(Repeated(b, n)) == n * (n + 1) * b
  {
    if n > 0 {
      RepeatedSums(b, n - 1);
      assert Repeated(b, n)[..n - 1] == Repeated(b, n - 1);
      Triangle(n, b);
    }
  }

  lemma Triangle(n: int, b: int)
    ensures (n - 1) * b + b == n * b && (n - 1) * (n - 1 + 1) * b + 2 * (n * b) == n * (n + 1) * b
  {
  }

  lemma TotalsAre()
    ensures Total(Repeated(255, 258)) == 65790 && Weighted(Repeated(255, 258)) == 8519805
  {
    hide *;
    RepeatedSums(255, 258);
  }

  lemma Folded(buf: seq<Byte>)
    requires |buf| == 258 && Total(buf) == 65790 && Weighted(buf) == 8519805
    ensures Fold(Sums(1, 0), buf) == Sums(270, 2333)
  {
    hide Fold, Total, Weighted;
    FoldIs(Sums(1, 0), buf);
  }

  /** The checksum of 258 bytes 255: both sums are reduced by 65521. */
  lemma ReducedValue()
    ensures Adler(Repeated(255, 258)) == 0x091d_010e
  {
    hide Fold, Total, Weighted, Repeated;
    TotalsAre();
    Folded(Repeated(255, 258));
  }

  lemma SumsStep(t: int, x: int, b: int)
    ensures (t % BASE + b) % BASE == (t + b) % BASE
    ensures (x % BASE + (t + b) % BASE) % BASE == (x + t + b) % BASE
  {
    ModAdd(t, b);
    ModAdd(x, (t + b) % BASE);
    ModAdd(t + b, x);
  }

  lemma Times(n: int, p: int)
    ensures (n + 1) * p == n * p + p
  {
  }

  lemma {:induction false} FoldConcat(s: Sums, a: seq<Byte>, b: seq<Byte>)
    ensures Fold(s, a + b) == Fold(Fold(s, a), b)
  {
    if b == [] {
      assert a + b == a;
    } else {
      FoldConcat(s, a, b[..|b| - 1]);
      assert (a + b)[..|a + b| - 1] == a + b[..|b| - 1];
    }
  }

  // ---- reduction without division ----

  /** CHOP: 65536 is 15 modulo BASE. */
  method Chop(a: int) returns (r: int)
    requires a >= 0
    ensures r % BASE == a % BASE && r == a % 65536 + 15 * (a / 65536)
  {
    var tmp := a / 65536;
    r := a % 65536;
    r := r + (16 * tmp - tmp);
    Multiple(r, tmp);
  }

  lemma Multiple(x: int, k: int)
    ensures (x + k * BASE) % BASE == x % BASE
  {
  }

  method Mod28(a: int, noDivide: bool) returns (r: int)
    requires 0 <= a < 0x1000_0000
    ensures r == a % BASE
  {
    if !noDivide {
      return a % BASE;
    }
    r := Chop(a);
    if r >= BASE { r := r - BASE; }
  }

  method Mod(a: U32, noDivide: bool) returns (r: int)
    ensures r == a % BASE
  {
    if !noDivide {
      return a % BASE;
    }
    r := Chop(a);
    r := Chop(r);
    if r >= BASE { r := r - BASE; }
  }

  /** 2^32 is 225 modulo BASE. */
  method Mod63(a: int, noDivide: bool) returns (r: int)
    requires 0 <= a < 0x8000_0000_0000_0000
    ensures r == a % BASE
  {
    if !noDivide {
      return a % BASE;
    }
    var tmp := a / 0x1_0000_0000;
    r := a % 0x1_0000_0000;
    r := r + (256 * tmp - 32 * tmp + tmp);
    Multiple(r, tmp * 65551);
    assert a == r + tmp * 65551 * BASE;
    r := Chop(r);
    r := Chop(r);
    if r >= BASE { r := r - BASE; }
  }

  // ---- the checksum ----

  lemma {:induction false} SumBounds(buf: seq<Byte>)
    ensures Total(buf) <= 255 * |buf| && 2 * Weighted(buf) <= 255 * (|buf| * (|buf| + 1))
  {
    if buf != [] {
      var n := |buf| - 1;
      SumBounds(buf[..n]);
      Square(n);
    }
  }

  lemma Square(n: int)
    ensures (n + 1) * (n + 2) == n * (n + 1) + 2 * (n + 1)
  {
  }

  lemma Monotone(a: nat, b: nat, c: nat)
    requires a <= b
    ensures a * c <= b * c
  {
  }

  /** NMAX is small enough: the sums of one block fit 32 bits. */
  lemma BlockFits(s: Sums, chunk: seq<Byte>)
    requires Valid(s) && |chunk| <= NMAX
    ensures s.s1 + Total(chunk) < 0x1_0000_0000 && s.s2 + |chunk| * s.s1 + Weighted(chunk) < 0x1_0000_0000
  {
    var n := |chunk|;
    SumBounds(chunk);
    Monotone(n, NMAX, s.s1);
    Monotone(n, NMAX, n + 1);
    assert n * (n + 1) <= NMAX * (NMAX + 1);
  }

  /** NMAX is the largest such block: one byte more can overflow. */
  lemma BlockLargest() returns (s: Sums, chunk: seq<Byte>)
    ensures Valid(s) && |chunk| == NMAX + 1 && s.s2 + |chunk| * s.s1 + Weighted(chunk) >= 0x1_0000_0000
  {
    s := Sums(BASE - 1, BASE - 1);
    chunk := Full(NMAX + 1);
    FullSums(NMAX + 1);
  }

  function Full(n: nat): (b: seq<Byte>)
    ensures |b| == n
  {
    if n == 0 then [] else Full(n - 1) + [255]
  }

  lemma {:induction false} FullSums(n: nat)
    ensures Total(Full(n)) == 255 * n && 2 * Weighted(Full(n)) == 255 * (n * (n + 1))
  {
    if n > 0 {
      hide Full, Total, Weighted;
      FullSums(n - 1);
      FullNext(n);
      Square(n - 1);
    }
  }

  lemma FullNext(n: nat)
    requires n > 0
    ensures Total(Full(n)) == Total(Full(n - 1)) + 255 && Weighted(Full(n)) == Weighted(Full(n - 1)) + Total(Full(n))
  {
    assert Full(n)[..n - 1] == Full(n - 1);
  }

  /** The sums after part of a block, before any reduction. */
  ghost predicate Deferred(s: Sums, chunk: seq<Byte>, adler: int, sum2: int) {
    adler == s.s1 + Total(chunk) && sum2 == s.s2 + |chunk| * s.s1 + Weighted(chunk)
  }

  lemma DeferredNext(s: Sums, chunk: seq<Byte>, b: Byte, adler: int, sum2: int)
    requires Deferred(s, chunk, adler, sum2)
    ensures Deferred(s, chunk + [b], adler + b, sum2 + adler + b)
  {
    assert (chunk + [b])[..|chunk|] == chunk;
    Times(|chunk|, s.s1);
  }

  /** Add bytes without reducing; the sums stay within 32 bits. */
  method AddBytes(buf: seq<Byte>, from: nat, n: nat, adler0: U32, sum20: U32, ghost s: Sums, ghost start: nat) returns (adler: U32, sum2: U32)
    requires start <= from && from + n <= |buf| && from + n - start <= NMAX && Valid(s)
    requires Deferred(s, buf[start..from], adler0, sum20)
    ensures Deferred(s, buf[start..from + n], adler, sum2)
  {
    hide Deferred;
    adler, sum2 := adler0, sum20;
    for i := from to from + n
      invariant Deferred(s, buf[start..i], adler, sum2)
    {
      DeferredNext(s, buf[start..i], buf[i], adler, sum2);
      assert buf[start..i + 1] == buf[start..i] + [buf[i]];
      BlockFits(s, buf[start..i + 1]);
      DeferredIs(s, buf[start..i + 1], adler + buf[i], sum2 + adler + buf[i]);
      adler := adler + buf[i];
      sum2 := sum2 + adler;
    }
  }

  lemma DeferredIs(s: Sums, chunk: seq<Byte>, adler: int, sum2: int)
    requires Deferred(s, chunk, adler, sum2)
    ensures adler == s.s1 + Total(chunk) && sum2 == s.s2 + |chunk| * s.s1 + Weighted(chunk)
  {
  }

  lemma DeferredNone(s: Sums)
    ensures Deferred(s, [], s.s1, s.s2)
  {
  }

  /** Reducing at the end of a block gives what reducing at every byte gives. */
  lemma ReduceOnce(s0: Sums, buf: seq<Byte>, start: nat, end: nat, s: Sums, adler: int, sum2: int)
    requires Valid(s0) && start <= end <= |buf| && s == Fold(s0, buf[..start]) && Deferred(s, buf[start..end], adler, sum2)
    ensures Fold(s0, buf[..end]) == Sums(adler % BASE, sum2 % BASE)
  {
    hide *;
    FoldConcat(s0, buf[..start], buf[start..end]);
    assert buf[..start] + buf[start..end] == buf[..end];
    DeferredIs(s, buf[start..end], adler, sum2);
    FoldValid(s0, buf[..start]);
    FoldIs(s, buf[start..end]);
    SumsAre(Fold(s0, buf[..end]));
  }

  lemma FoldValid(s: Sums, buf: seq<Byte>)
    requires Valid(s)
    ensures Valid(Fold(s, buf))
  {
  }

  lemma SumsAre(s: Sums)
    ensures s == Sums(s.s1, s.s2)
  {
  }

  /** One byte: keep it fast. */
  method OneByte(adler0: nat, sum20: nat, b: Byte) returns (adler: nat, sum2: nat)
    requires adler0 < BASE && sum20 < BASE
    ensures Sums(adler, sum2) == Fold(Sums(adler0, sum20), [b])
  {
    assert [b][..0] == [];
    adler := adler0 + b;
    if adler >= BASE { adler := adler - BASE; }
    sum2 := sum20 + adler;
    if sum2 >= BASE { sum2 := sum2 - BASE; }
  }

  lemma FewSmall(s: Sums, buf: seq<Byte>)
    requires Valid(s) && |buf| < 16
    ensures 0 <= s.s1 + Total(buf) < 2 * BASE && 0 <= s.s2 + |buf| * s.s1 + Weighted(buf) < 0x1000_0000
  {
    hide Total, Weighted;
    SumBounds(buf);
    Monotone(|buf|, 15, |buf| + 1);
    Monotone(|buf|, 15, s.s1);
    Monotone(0, |buf|, s.s1);
  }

  /** Fewer than 16 bytes: only so many times BASE is added. */
  method FewBytes(adler0: nat, sum20: nat, buf: seq<Byte>, noDivide: bool) returns (adler: nat, sum2: nat)
    requires adler0 < BASE && sum20 < BASE && |buf| < 16
    ensures Sums(adler, sum2) == Fold(Sums(adler0, sum20), buf)
  {
    hide Deferred, Fold, Total, Weighted;
    ghost var s := Sums(adler0, sum20);
    DeferredNone(s);
    assert buf[0..0] == [] && buf[0..|buf|] == buf;
    adler, sum2 := AddBytes(buf, 0, |buf|, adler0, sum20, s, 0);
    DeferredIs(s, buf, adler, sum2);
    FewSmall(s, buf);
    FoldIs(s, buf);
    if adler >= BASE { adler := adler - BASE; }
    sum2 := Mod28(sum2, noDivide);
  }

  /** Sixteen sums at a time. */
  method AddSixteens(buf: seq<Byte>, from: nat, n: nat, adler0: U32, sum20: U32, ghost s: Sums, ghost start: nat)
    returns (i: nat, adler: U32, sum2: U32)
    requires start <= from && from + n <= |buf| && from + n - start <= NMAX && Valid(s)
    requires Deferred(s, buf[start..from], adler0, sum20)
    ensures from <= i <= from + n < i + 16 && Deferred(s, buf[start..i], adler, sum2) && (n % 16 == 0 ==> i == from + n)
  {
    hide Deferred;
    i, adler, sum2 := from, adler0, sum20;
    while from + n - i >= 16
      invariant from <= i <= from + n && (i - from) % 16 == 0
      invariant Deferred(s, buf[start..i], adler, sum2)
    {
      adler, sum2 := AddBytes(buf, i, 16, adler, sum2, s, start);
      i := i + 16;
    }
  }

  /** Full blocks of NMAX bytes, with one reduction each. */
  method FullBlocks(adler0: nat, sum20: nat, buf: seq<Byte>, noDivide: bool) returns (i: nat, adler: nat, sum2: nat)
    requires adler0 < BASE && sum20 < BASE
    ensures i <= |buf| < i + NMAX && Sums(adler, sum2) == Fold(Sums(adler0, sum20), buf[..i])
    ensures adler < BASE && sum2 < BASE
  {
    hide Deferred, Fold;
    ghost var s0 := Sums(adler0, sum20);
    i, adler, sum2 := 0, adler0, sum20;
    FoldNone(s0, buf);
    while |buf| - i >= NMAX
      invariant i <= |buf| && adler < BASE && sum2 < BASE
      invariant Sums(adler, sum2) == Fold(s0, buf[..i])
    {
      ghost var s, start := Sums(adler, sum2), i;
      assert buf[i..i] == [];
      DeferredNone(s);
      i, adler, sum2 := AddSixteens(buf, i, NMAX, adler, sum2, s, i);
      ReduceOnce(s0, buf, start, i, s, adler, sum2);
      adler := Mod(adler, noDivide);
      sum2 := Mod(sum2, noDivide);
    }
  }

  lemma FoldNone(s: Sums, buf: seq<Byte>)
    ensures Fold(s, buf[..0]) == s
  {
  }

  datatype Buffer = Null | Buffer(bytes: seq<Byte>)

  /** adler32: the running checksum extended by a buffer. */
  method ComputeAdler32(adler0: U32, buf: Buffer, noDivide: bool) returns (r: U32)
    requires adler0 % 65536 < BASE && adler0 / 65536 < BASE
    ensures r == if buf.Null? then 1 else Pack(Fold(Sums(adler0 % 65536, adler0 / 65536), buf.bytes))
  {
    var sum2: nat, adler: nat := (adler0 / 65536) % 65536, adler0 % 65536;
    if buf.Buffer? && |buf.bytes| == 1 {
      adler, sum2 := OneByte(adler, sum2, buf.bytes[0]);
      assert buf.bytes == [buf.bytes[0]];
      return adler + sum2 * 65536;
    }
    if buf.Null? {
      return 1;
    }
    var b := buf.bytes;
    if |b| < 16 {
      adler, sum2 := FewBytes(adler, sum2, b, noDivide);
      return adler + sum2 * 65536;
    }
    ghost var s0 := Sums(adler, sum2);
    var i;
    i, adler, sum2 := FullBlocks(adler, sum2, b, noDivide);
    assert b[..|b|] == b;
    if i < |b| {
      ghost var s, start := Sums(adler, sum2), i;
      assert b[i..i] == [];
      DeferredNone(s);
      hide Deferred, Fold;
      i, adler, sum2 := AddSixteens(b, i, |b| - i, adler, sum2, s, start);
      adler, sum2 := AddBytes(b, i, |b| - i, adler, sum2, s, start);
      ReduceOnce(s0, b, start, |b|, s, adler, sum2);
      adler := Mod(adler, noDivide);
      sum2 := Mod(sum2, noDivide);
    }
    r := adler + sum2 * 65536;
  }

  // ---- combining ----

  lemma ModTimes(n: int, p: int)
    ensures ((n % BASE) * p) % BASE == (n * p) % BASE
  {
    var q := n / BASE;
    assert n == n % BASE + q * BASE;
    Spread(n % BASE, q, p);
    Multiple((n % BASE) * p, q * p);
  }

  function Product(a: int, b: int): int {
    a * b
  }

  lemma AdlerIs(a: seq<Byte>)
    ensures Adler(a) == Fold(Sums(1, 0), a).s1 + Fold(Sums(1, 0), a).s2 * 65536
  {
    hide Fold;
  }

  lemma Spread(r: int, q: int, p: int)
    ensures (r + q * BASE) * p == r * p + (q * p) * BASE
  {
  }

  /** The sums of a concatenation from the sums of its parts. */
  lemma CombinedSums(a: seq<Byte>, b: seq<Byte>)
    ensures var x, y, z := Fold(Sums(1, 0), a), Fold(Sums(1, 0), b), Fold(Sums(1, 0), a + b);
      && z.s1 == (x.s1 + y.s1 + BASE - 1) % BASE
      && z.s2 == (Product(|b| % BASE, x.s1) % BASE + x.s2 + y.s2 + BASE - |b| % BASE) % BASE
  {
    hide Fold;
    var x, y := Fold(Sums(1, 0), a), Fold(Sums(1, 0), b);
    var n := |b|;
    FoldIs(Sums(1, 0), b);
    FoldIsValid(a);
    FoldIs(x, b);
    FoldConcat(Sums(1, 0), a, b);
    ModTimes(n, x.s1);
    ModChain(x.s1, Total(b));
    ModChain2(x.s2, n * x.s1, n, Weighted(b));
  }

  lemma FoldIsValid(a: seq<Byte>)
    ensures Valid(Fold(Sums(1, 0), a))
  {
  }

  lemma ModChain(p: int, t: int)
    ensures (p + (1 + t) % BASE + BASE - 1) % BASE == (p + t) % BASE
  {
    ModAdd(1 + t, p + BASE - 1);
    Multiple(p + t, 1);
  }

  lemma ModChain2(q: int, m: int, n: int, w: int)
    ensures (m % BASE + q + (n * 1 + w) % BASE + BASE - n % BASE) % BASE == (q + m + w) % BASE
  {
    ModAdd(m, q + (n + w) % BASE + BASE - n % BASE);
    ModAdd(n + w, m + q + BASE - n % BASE);
    var k := n / BASE;
    assert n == n % BASE + k * BASE;
    Multiple(q + m + w, k + 1);
    assert m + q + BASE - n % BASE + (n + w) == q + m + w + (k + 1) * BASE;
  }

  /** Bring the two sums back into range without division. */
  method Reduce(sum10: int, sum20: int) returns (sum1: int, sum2: int)
    requires 0 <= sum10 < 3 * BASE && 0 <= sum20 < 4 * BASE
    ensures sum1 == sum10 % BASE && sum2 == sum20 % BASE
  {
    sum1, sum2 := sum10, sum20;
    if sum1 >= BASE { sum1 := sum1 - BASE; }
    if sum1 >= BASE { sum1 := sum1 - BASE; }
    if sum2 >= 2 * BASE { sum2 := sum2 - 2 * BASE; }
    if sum2 >= BASE { sum2 := sum2 - BASE; }
  }

  /** adler32_combine: the checksum of a concatenation from those of its parts. */
  method Combine(adler1: U32, adler2: U32, len2: int, noDivide: bool, ghost a: seq<Byte>, ghost b: seq<Byte>) returns (r: U32)
    requires adler1 == Adler(a) && adler2 == Adler(b) && (len2 >= 0 ==> len2 == |b|) && len2 < 0x8000_0000_0000_0000
    ensures r == if len2 < 0 then 0xffff_ffff else Adler(a + b)
  {
    hide Fold, Adler, Product;
    if len2 < 0 {
      return 0xffff_ffff;
    }
    Halves(adler1, a);
    Halves(adler2, b);
    CombinedSums(a, b);
    AdlerIs(a + b);
    var rem := Mod63(len2, noDivide);
    var sum1 := adler1 % 65536;
    ProductFits(rem, sum1);
    var sum2: int := Product(rem, sum1);
    sum2 := Mod(sum2, noDivide);
    sum1 := sum1 + adler2 % 65536 + BASE - 1;
    sum2 := sum2 + (adler1 / 65536) % 65536 + (adler2 / 65536) % 65536 + BASE - rem;
    sum1, sum2 := Reduce(sum1, sum2);
    r := sum1 + sum2 * 65536;
  }

  /** A checksum splits into its two sums. */
  lemma Halves(adler: U32, a: seq<Byte>)
    requires adler == Adler(a)
    ensures var x := Fold(Sums(1, 0), a);
      Valid(x) && adler % 65536 == x.s1 && adler / 65536 == x.s2 && (adler / 65536) % 65536 == x.s2
  {
    hide Fold;
    FoldIsValid(a);
  }

  lemma ProductFits(a: nat, b: nat)
    requires a < BASE && b < BASE
    ensures 0 <= Product(a, b) < 0x1_0000_0000
  {
    Monotone(a, 65520, b);
    Monotone(0, a, b);
  }
}
