/** The bit writer: bits are packed into a 16-bit buffer, least significant bit
    first, and leave it as bytes (section 3.1.1 of RFC 1951). */
module BitOutput {
  import opened Bits
  import opened HuffBits

  const BUF_SIZE := 16

  /** a | b on unsigned values. */
  function Or(a: nat, b: nat): nat {
    if a == 0 then b
    else if b == 0 then a
    else (if a % 2 == 1 || b % 2 == 1 then 1 else 0) + 2 * Or(a / 2, b / 2)
  }

  /** Bits that do not overlap add up. */
  lemma {:induction false} OrDisjoint(a: nat, q: nat, d: nat)
    requires a < Pow2(d)
    ensures Or(a, q * Pow2(d)) == a + q * Pow2(d)
  {
    if d > 0 && a > 0 && q > 0 {
      OrDisjoint(a / 2, q, d - 1);
      DoubleProduct(q, Pow2(d - 1));
      HalfSum(0, q * Pow2(d - 1));
    }
  }

  lemma DoubleProduct(q: nat, p: nat)
    ensures q * (2 * p) == 2 * (q * p)
  {
    MulAssoc(2, q, p);
  }

  /** The bits of a byte string. */
  function ByteBits(s: seq<nat>): (b: seq<bool>)
    ensures |b| == 8 * |s|
  {
    if s == [] then [] else ByteBits(s[..|s| - 1]) + ToBits(s[|s| - 1], 8)
  }

  lemma {:induction false} ByteBitsConcat(s: seq<nat>, t: seq<nat>)
    ensures ByteBits(s + t) == ByteBits(s) + ByteBits(t)
  {
    if t == [] {
      assert s + t == s;
    } else {
      ByteBitsConcat(s, t[..|t| - 1]);
      assert (s + t)[..|s + t| - 1] == s + t[..|t| - 1];
    }
  }

  lemma ByteBitsOne(b: nat)
    ensures ByteBits([b]) == ToBits(b, 8)
  {
    assert [b][..0] == [];
  }

  /** The two bytes of a 16-bit value carry its bits in order. */
  lemma ShortBits(v: nat)
    requires v < 65536
    ensures ByteBits([Low(v, 8), Shr(v, 8)]) == ToBits(v, 16)
  {
    ByteBitsConcat([Low(v, 8)], [Shr(v, 8)]);
    ByteBitsOne(Low(v, 8));
    ByteBitsOne(Shr(v, 8));
    assert [Low(v, 8)] + [Shr(v, 8)] == [Low(v, 8), Shr(v, 8)];
    ToBitsSplit(v, 8, 8);
    ToBitsLow(v, 8);
  }

  lemma {:induction false} ToBitsLow(v: nat, n: nat)
    ensures ToBits(Low(v, n), n) == ToBits(v, n)
  {
    if n > 0 {
      ToBitsLow(v / 2, n - 1);
      LowHalf(v, n);
    }
  }

  /** A buffer with room takes the value above its bits. */
  lemma {:induction false} ToBitsAdd(a: nat, v: nat, d: nat, n: nat)
    requires a < Pow2(d)
    ensures ToBits(a + v * Pow2(d), d + n) == ToBits(a, d) + ToBits(v, n)
  {
    MulComm(v, Pow2(d));
    LowShr(v, a, d);
    ToBitsSplit(a + v * Pow2(d), d, n);
    ToBitsLow(a + v * Pow2(d), d);
  }

  lemma SumBound(a: nat, v: nat, d: nat, n: nat)
    requires a < Pow2(d) && v < Pow2(n)
    ensures a + v * Pow2(d) < Pow2(d + n)
  {
    Pow2Add(d, n);
    var p, q := Pow2(d), Pow2(n);
    hide *;
    StepBelow(v, q, p);
    MulComm(p, q);
  }

  lemma {:induction false} ShrBound(v: nat, d: nat, n: nat)
    requires v < Pow2(d + n)
    ensures Shr(v, d) < Pow2(n)
  {
    if d > 0 {
      HalfBelow(v, Pow2(d - 1 + n));
      ShrBound(v / 2, d - 1, n);
    }
  }

  /** A full buffer: the low bits of the value complete it, the others start the next. */
  lemma SplitValue(a: nat, v: nat, d: nat, n: nat)
    requires a < Pow2(d) && d <= 16 < d + n
    ensures ToBits(Low(a + v * Pow2(d), 16), 16) + ToBits(Shr(v, 16 - d), d + n - 16) == ToBits(a, d) + ToBits(v, n)
  {
    hide *;
    var w, k := a + v * Pow2(d), 16 - d;
    var e := n - k;
    ToBitsLow(w, 16);
    ToBitsAdd(a, v, d, k);
    ToBitsSplit(v, k, e);
    Resplit(ToBits(w, 16), ToBits(a, d), ToBits(v, n), ToBits(v, k), ToBits(Shr(v, k), e));
  }

  lemma SplitFits(w: nat, v: nat, d: nat, n: nat)
    requires d <= 16 < d + n && v < Pow2(n)
    ensures Shr(v, 16 - d) < Pow2(d + n - 16) && Low(w, 16) < 65536
  {
    Pow2Values();
    ShrBound(v, 16 - d, d + n - 16);
  }

  lemma Resplit(w: seq<bool>, a: seq<bool>, v: seq<bool>, b: seq<bool>, c: seq<bool>)
    requires w == a + b && v == b + c
    ensures w + c == a + v
  {
  }

  lemma Glue(a: seq<bool>, b: seq<bool>, c: seq<bool>)
    ensures a + b + c == a + (b + c)
  {
  }

  lemma Glue4(s: seq<bool>, a: seq<bool>, b: seq<bool>, c: seq<bool>, d: seq<bool>)
    ensures s + a + b + c + d == s + (a + b + c + d)
  {
    Glue(s, a, b);
    Glue(s, a + b, c);
    Glue(s, a + b + c, d);
  }

  class BitWriter {
    var pending: seq<nat>
    var biBuf: nat
    var biValid: nat

    constructor ()
      ensures Valid() && Sent() == []
    {
      pending, biBuf, biValid := [], 0, 0;
    }

    /** The buffer is zero above its valid bits. */
    ghost predicate Valid()
      reads this
    {
      biValid <= BUF_SIZE && biBuf < Pow2(biValid) && forall i :: 0 <= i < |pending| ==> pending[i] < 256
    }

    /** Every bit sent so far, in order. */
    ghost function Sent(): seq<bool>
      reads this
    {
      ByteBits(pending) + ToBits(biBuf, biValid)
    }

    method PutByte(b: nat)
      requires b < 256 && forall i :: 0 <= i < |pending| ==> pending[i] < 256
      modifies `pending
      ensures pending == old(pending) + [b] && ByteBits(pending) == ByteBits(old(pending)) + ToBits(b, 8)
      ensures forall i :: 0 <= i < |pending| ==> pending[i] < 256
    {
      ByteBitsConcat(pending, [b]);
      ByteBitsOne(b);
      pending := pending + [b];
    }

    /** Output a short, least significant byte first. */
    method PutShort(w: nat)
      requires w < 65536 && forall i :: 0 <= i < |pending| ==> pending[i] < 256
      modifies `pending
      ensures pending == old(pending) + [Low(w, 8), Shr(w, 8)] && ByteBits(pending) == ByteBits(old(pending)) + ToBits(w, 16)
      ensures forall i :: 0 <= i < |pending| ==> pending[i] < 256
    {
      Pow2Values();
      ShrBound(w, 8, 8);
      ShortBits(w);
      ByteBitsConcat(pending, [Low(w, 8), Shr(w, 8)]);
      hide Pow2, ByteBits;
      PutByte(Low(w, 8));
      PutByte(Shr(w, 8));
      assert pending == old(pending) + [Low(w, 8), Shr(w, 8)];
    }

    /** Send a value on a given number of bits. */
    method SendBits(value: nat, length: nat)
      requires Valid() && length <= 16 && value < Pow2(length)
      modifies this
      ensures Valid() && Sent() == old(Sent()) + ToBits(value, length)
    {
      hide Pow2, Low, Shr, ToBits, ByteBits, Or;
      ghost var sent := ByteBits(pending);
      ghost var a, v := ToBits(biBuf, biValid), ToBits(value, length);
      OrDisjoint(biBuf, value, biValid);
      if biValid > BUF_SIZE - length {
        SplitValue(biBuf, value, biValid, length);
        SplitFits(biBuf + value * Pow2(biValid), value, biValid, length);
        biBuf := Low(Or(biBuf, value * Pow2(biValid)), 16);
        ghost var full := ToBits(biBuf, 16);
        PutShort(biBuf);
        biBuf := Shr(value, BUF_SIZE - biValid);
        biValid := biValid + length - BUF_SIZE;
        Glue(sent, full, ToBits(biBuf, biValid));
      } else {
        ToBitsAdd(biBuf, value, biValid, length);
        SumBound(biBuf, value, biValid, length);
        biBuf := Or(biBuf, value * Pow2(biValid));
        biValid := biValid + length;
      }
      Glue(sent, a, v);
    }

    /** Flush the bit buffer, keeping at most 7 bits in it. */
    method BiFlush()
      requires Valid()
      modifies this
      ensures Valid() && Sent() == old(Sent()) && biValid <= 7
    {
      Pow2Values();
      hide Pow2, Low, Shr, ToBits, ByteBits;
      NoBits();
      if biValid == 16 {
        PutShort(biBuf);
        biBuf, biValid := 0, 0;
      } else if biValid >= 8 {
        ToBitsSplit(biBuf, 8, biValid - 8);
        ToBitsLow(biBuf, 8);
        ShrBound(biBuf, 8, biValid - 8);
        PutByte(Low(biBuf, 8));
        biBuf := Shr(biBuf, 8);
        biValid := biValid - 8;
      }
    }

    /** Flush the bit buffer and align the output on a byte boundary. */
    method BiWindup()
      requires Valid()
      modifies this
      ensures Valid() && biValid == 0 && Sent() == old(Sent()) + Padding(|old(Sent())|) && Sent() == ByteBits(pending)
    {
      Pow2Values();
      hide Pow2, Low, Shr, ToBits, ByteBits;
      NoBits();
      assert |Sent()| == 8 * |pending| + biValid;
      if biValid > 8 {
        Pow2Mono(biValid, 16);
        ZeroExtend(biBuf, biValid, 16);
        PutShort(biBuf);
      } else if biValid > 0 {
        Pow2Mono(biValid, 8);
        LowSmall(biBuf, 8);
        ZeroExtend(biBuf, biValid, 8);
        PutByte(Low(biBuf, 8));
      }
      biBuf, biValid := 0, 0;
    }
  }

  lemma NoBits()
    ensures ToBits(0, 0) == [] && Pow2(0) == 1
  {
  }

  /** Zero bits up to the next byte boundary. */
  function Padding(n: nat): seq<bool> {
    Zeros((8 - n % 8) % 8)
  }

  lemma {:induction false} ZeroExtend(v: nat, d: nat, n: nat)
    requires v < Pow2(d) && d <= n
    ensures ToBits(v, n) == ToBits(v, d) + Zeros(n - d)
    decreases n
  {
    if d > 0 {
      HalfBelow(v, Pow2(d - 1));
      ZeroExtend(v / 2, d - 1, n - 1);
    } else if n > 0 {
      ZeroExtend(0, 0, n - 1);
      assert [false] + Zeros(n - 1) == Zeros(n);
    } else {
      assert ToBits(v, 0) + Zeros(0) == [];
    }
  }
}
