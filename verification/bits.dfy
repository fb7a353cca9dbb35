/** Bit strings and their two readings as numbers.  A deflate stream is read
    least significant bit first, while Huffman codes are numbered with their
    first transmitted bit most significant, so both readings are needed. */
module Bits {

  function Pow2(n: nat): (r: nat)
    ensures r >= 1
  {
    if n == 0 then 1 else 2 * Pow2(n - 1)
  }

  lemma {:induction false} Pow2Add(a: nat, b: nat)
    ensures Pow2(a + b) == Pow2(a) * Pow2(b)
  {
    if a == 0 {
      assert Pow2(a) == 1;
    } else {
      Pow2Add(a - 1, b);
      assert Pow2(a + b) == 2 * Pow2(a - 1 + b);
      MulAssoc(2, Pow2(a - 1), Pow2(b));
    }
  }

  lemma {:induction false} Pow2Mono(a: nat, b: nat)
    requires a <= b
    ensures Pow2(a) <= Pow2(b)
    ensures a < b ==> 2 * Pow2(a) <= Pow2(b)
    decreases b
  {
    if a < b {
      Pow2Mono(a, b - 1);
    }
  }

  lemma Pow2Values()
    ensures Pow2(0) == 1 && Pow2(1) == 2 && Pow2(2) == 4 && Pow2(3) == 8 && Pow2(4) == 16
    ensures Pow2(5) == 32 && Pow2(6) == 64 && Pow2(7) == 128 && Pow2(8) == 256
    ensures Pow2(9) == 512 && Pow2(10) == 1024 && Pow2(13) == 8192 && Pow2(14) == 16384
    ensures Pow2(15) == 32768 && Pow2(16) == 65536
  {
    assert Pow2(4) == 16;
    assert Pow2(8) == 256;
    assert Pow2(12) == 4096;
    assert Pow2(16) == 65536;
  }

  lemma MulAssoc(a: int, b: int, c: int)
    ensures (a * b) * c == a * (b * c)
  {
  }

  lemma MulComm(a: int, b: int)
    ensures a * b == b * a
  {
  }

  lemma Distribute(a: int, b: int, w: int)
    ensures (a + b) * w == a * w + b * w
  {
  }

  lemma StepBelow(c: int, d: int, w: nat)
    requires c < d
    ensures c * w + w <= d * w
  {
    MulStep(c, d, w);
    MulComm(c, w);
    MulComm(d, w);
  }

  lemma {:induction false} MulStep(a: int, b: int, d: nat)
    requires a < b
    ensures d * a + d <= d * b
    decreases b - a
  {
    if a + 1 < b {
      MulStep(a, b - 1, d);
    }
  }

  lemma MulMono(a: int, b: int, d: nat)
    requires a <= b
    ensures a * d <= b * d
  {
  }

  /** v & ((1 << n) - 1) */
  function Low(v: nat, n: nat): (r: nat)
    ensures r < Pow2(n)
  {
    if n == 0 then 0 else v % 2 + 2 * Low(v / 2, n - 1)
  }

  /** v >> n */
  function Shr(v: nat, n: nat): nat {
    if n == 0 then v else Shr(v / 2, n - 1)
  }

  function Bit(b: bool): (r: nat)
    ensures r < 2
  {
    if b then 1 else 0
  }

  /** The value of a bit string whose first bit is least significant. */
  function Lsb(b: seq<bool>): nat {
    if b == [] then 0 else Bit(b[0]) + 2 * Lsb(b[1..])
  }

  /** The value of a bit string whose first bit is most significant. */
  function Msb(b: seq<bool>): nat {
    if b == [] then 0 else 2 * Msb(b[..|b| - 1]) + Bit(b[|b| - 1])
  }

  /** The low n bits of v, least significant first. */
  function ToBits(v: nat, n: nat): (b: seq<bool>)
    ensures |b| == n
  {
    if n == 0 then [] else [v % 2 == 1] + ToBits(v / 2, n - 1)
  }

  /** The low n bits of v, most significant first. */
  function CodeBits(v: nat, n: nat): (b: seq<bool>)
    ensures |b| == n
  {
    if n == 0 then [] else CodeBits(v / 2, n - 1) + [v % 2 == 1]
  }

  lemma {:induction false} LsbBound(b: seq<bool>)
    ensures Lsb(b) < Pow2(|b|)
  {
    if b != [] {
      LsbBound(b[1..]);
    }
  }

  lemma {:induction false} MsbBound(b: seq<bool>)
    ensures Msb(b) < Pow2(|b|)
  {
    if b != [] {
      MsbBound(b[..|b| - 1]);
    }
  }

  lemma {:induction false} LsbConcat(a: seq<bool>, b: seq<bool>)
    ensures Lsb(a + b) == Lsb(a) + Pow2(|a|) * Lsb(b)
  {
    if a == [] {
      assert a + b == b;
    } else {
      LsbConcat(a[1..], b);
      assert (a + b)[1..] == a[1..] + b;
      MulAssoc(2, Pow2(|a| - 1), Lsb(b));
    }
  }

  lemma {:induction false} MsbConcat(a: seq<bool>, b: seq<bool>)
    ensures Msb(a + b) == Msb(a) * Pow2(|b|) + Msb(b)
  {
    if b == [] {
      assert a + b == a;
    } else {
      var b' := b[..|b| - 1];
      MsbConcat(a, b');
      assert (a + b)[..|a + b| - 1] == a + b';
      assert 2 * (Msb(a) * Pow2(|b'|)) == Msb(a) * Pow2(|b|) by {
        MulAssoc(Msb(a), 2, Pow2(|b'|));
      }
    }
  }

  lemma {:induction false} ToBitsLsb(b: seq<bool>)
    ensures ToBits(Lsb(b), |b|) == b
  {
    if b != [] {
      ToBitsLsb(b[1..]);
      HalfSum(Bit(b[0]), Lsb(b[1..]));
      hide Lsb;
    }
  }

  lemma {:induction false} CodeBitsMsb(b: seq<bool>)
    ensures CodeBits(Msb(b), |b|) == b
  {
    if b != [] {
      CodeBitsMsb(b[..|b| - 1]);
      HalfSum(Bit(b[|b| - 1]), Msb(b[..|b| - 1]));
      hide Msb;
    }
  }

  lemma {:induction false} MsbCodeBits(v: nat, n: nat)
    requires v < Pow2(n)
    ensures Msb(CodeBits(v, n)) == v
  {
    if n != 0 {
      HalfBelow(v, Pow2(n - 1));
      hide Pow2;
      MsbCodeBits(v / 2, n - 1);
      MsbSnoc(CodeBits(v / 2, n - 1), v % 2 == 1);
    }
  }

  lemma MsbSnoc(b: seq<bool>, x: bool)
    ensures Msb(b + [x]) == 2 * Msb(b) + Bit(x)
  {
    assert (b + [x])[..|b|] == b;
  }

  lemma HalfBelow(v: nat, p: nat)
    requires v < 2 * p
    ensures v / 2 < p
  {
  }

  lemma {:induction false} LsbToBits(v: nat, n: nat)
    ensures Lsb(ToBits(v, n)) == Low(v, n)
  {
    if n != 0 {
      LsbToBits(v / 2, n - 1);
      assert ToBits(v, n)[1..] == ToBits(v / 2, n - 1);
    }
  }

  lemma MsbInjective(a: seq<bool>, b: seq<bool>)
    requires |a| == |b| && Msb(a) == Msb(b)
    ensures a == b
  {
    CodeBitsMsb(a);
    CodeBitsMsb(b);
  }

  lemma LsbInjective(a: seq<bool>, b: seq<bool>)
    requires |a| == |b| && Lsb(a) == Lsb(b)
    ensures a == b
  {
    ToBitsLsb(a);
    ToBitsLsb(b);
  }

  /** Taking a prefix keeps the low bits; dropping a prefix shifts them out. */
  lemma {:induction false} LsbSplit(b: seq<bool>, k: nat)
    requires k <= |b|
    ensures Lsb(b[..k]) == Low(Lsb(b), k)
    ensures Lsb(b[k..]) == Shr(Lsb(b), k)
    decreases k
  {
    if k == 0 {
      assert b[0..] == b;
    } else {
      LsbSplit(b[1..], k - 1);
      assert b[..k][1..] == b[1..][..k - 1];
      assert b[k..] == b[1..][k - 1..];
      assert Lsb(b) % 2 == Bit(b[0]) && Lsb(b) / 2 == Lsb(b[1..]);
    }
  }

  lemma ToBitsPrefix(v: nat, n: nat, k: nat)
    requires k <= n
    ensures ToBits(v, n)[..k] == ToBits(v, k)
    decreases k
  {
    if k > 0 {
      ToBitsPrefix(v / 2, n - 1, k - 1);
      assert ToBits(v, n)[..k] == [v % 2 == 1] + ToBits(v / 2, n - 1)[..k - 1];
    }
  }

  /** A number agrees with a bit string on its low bits exactly when its bits start that way. */
  lemma LowBits(v: nat, b: seq<bool>)
    ensures Low(v, |b|) == Lsb(b) <==> ToBits(v, |b|) == b
  {
    LsbToBits(v, |b|);
    ToBitsLsb(b);
    if Low(v, |b|) == Lsb(b) {
      LsbInjective(ToBits(v, |b|), b);
    }
  }

  lemma {:induction false} ToBitsSplit(v: nat, d: nat, e: nat)
    ensures ToBits(v, d + e) == ToBits(v, d) + ToBits(Shr(v, d), e)
  {
    if d == 0 {
      assert ToBits(v, 0) + ToBits(v, e) == ToBits(v, e);
    } else {
      ToBitsSplit(v / 2, d - 1, e);
      var q := Shr(v, d);
      assert [v % 2 == 1] + (ToBits(v / 2, d - 1) + ToBits(q, e)) == ToBits(v, d) + ToBits(q, e);
    }
  }

  /** Low bits first, then the bits above them. */
  lemma {:induction false} LowSplit(v: nat, d: nat, e: nat)
    ensures Low(v, d + e) == Low(v, d) + Pow2(d) * Low(Shr(v, d), e)
    ensures Low(Low(v, d + e), d) == Low(v, d)
    ensures Shr(Low(v, d + e), d) == Low(Shr(v, d), e)
  {
    LowSum(v, d, e);
    LowLow(v, d, e);
    ShrLow(v, d, e);
  }

  lemma {:induction false} LowSum(v: nat, d: nat, e: nat)
    ensures Low(v, d + e) == Low(v, d) + Pow2(d) * Low(Shr(v, d), e)
    decreases d
  {
    if d > 0 {
      LowSum(v / 2, d - 1, e);
      MulAssoc(2, Pow2(d - 1), Low(Shr(v, d), e));
    }
  }

  lemma {:induction false} LowLow(v: nat, d: nat, e: nat)
    ensures Low(Low(v, d + e), d) == Low(v, d)
    decreases d
  {
    if d > 0 {
      LowLow(v / 2, d - 1, e);
      LowHalf(v, d + e);
    }
  }

  lemma {:induction false} ShrLow(v: nat, d: nat, e: nat)
    ensures Shr(Low(v, d + e), d) == Low(Shr(v, d), e)
    decreases d
  {
    if d > 0 {
      ShrLow(v / 2, d - 1, e);
      LowHalf(v, d + e);
    }
  }

  lemma LowHalf(v: nat, n: nat)
    requires n > 0
    ensures Low(v, n) % 2 == v % 2 && Low(v, n) / 2 == Low(v / 2, n - 1)
  {
  }

  /** Assembling a number from its low and high bits. */
  lemma {:induction false} LowShr(q: nat, r: nat, d: nat)
    requires r < Pow2(d)
    ensures Low(r + Pow2(d) * q, d) == r
    ensures Shr(r + Pow2(d) * q, d) == q
  {
    if d > 0 {
      LowShr(q, r / 2, d - 1);
      MulAssoc(2, Pow2(d - 1), q);
      HalfSum(r, Pow2(d - 1) * q);
    }
  }

  lemma HalfSum(r: nat, x: nat)
    ensures (r + 2 * x) % 2 == r % 2 && (r + 2 * x) / 2 == r / 2 + x
  {
  }

  lemma {:induction false} LowPlusShr(v: nat, d: nat)
    ensures v == Low(v, d) + Pow2(d) * Shr(v, d)
  {
    if d > 0 {
      LowPlusShr(v / 2, d - 1);
      MulAssoc(2, Pow2(d - 1), Shr(v, d));
    }
  }

  lemma {:induction false} LowSmall(v: nat, n: nat)
    requires v < Pow2(n)
    ensures Low(v, n) == v
  {
    if n > 0 {
      LowSmall(v / 2, n - 1);
    }
  }
}
