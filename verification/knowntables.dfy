/** The tables and codes of RFC 1951 stated a second time, by arithmetic, and stored blocks as bytes. */
module KnownTables {
  import opened Bits
  import opened Canonical
  import opened DecodingTables
  import opened CodeLengths
  import opened BitOutput
  import opened Tokens
  import opened BlockBits
  import opened BlockTrees
  import opened InflateSpec
  import opened InflateStates
  import opened InflateMain
  import opened RoundTrips
  import Matching
  import StaticTrees
  import TreeShape

  // ---- lengths and distances ----

  lemma LengthExtras(c: nat)
    requires c < 29
    ensures |EXTRA_LBITS| == 29 && EXTRA_LBITS[c] == if c < 8 || c == 28 then 0 else (c - 4) / 4
  {
    if c < 8 {
      LowLengthExtras();
    } else if c < 20 {
      MiddleLengthExtras();
    } else {
      HighLengthExtras();
    }
  }

  lemma LowLengthExtras()
    ensures |EXTRA_LBITS| == 29 && forall c :: 0 <= c < 8 ==> EXTRA_LBITS[c] == 0
  {
  }

  lemma MiddleLengthExtras()
    ensures |EXTRA_LBITS| == 29 && forall c :: 8 <= c < 20 ==> EXTRA_LBITS[c] == (c - 4) / 4
  {
  }

  lemma HighLengthExtras()
    ensures |EXTRA_LBITS| == 29 && EXTRA_LBITS[28] == 0 && forall c :: 20 <= c < 28 ==> EXTRA_LBITS[c] == (c - 4) / 4
  {
  }

  /** The length codes of section 3.2.5: eight single lengths, and then four ranges of each size. */
  lemma LengthTable(c: nat)
    requires c < 28
    ensures |LBASE| == |LEXT| == 31
    ensures LBASE[c] == if c < 8 then 3 + c else 3 + (4 + c % 4) * Pow2((c - 4) / 4)
    ensures LEXT[c] == 16 + if c < 8 then 0 else (c - 4) / 4
  {
    LengthBase(c);
    LengthExtras(c);
    hide LBASE, LEXT, EXTRA_LBITS;
    LengthBases(c);
  }

  lemma {:induction false} LengthBases(c: nat)
    requires c <= 28 && |EXTRA_LBITS| == 29
    ensures Base(EXTRA_LBITS, c) == if c < 8 then c else (4 + c % 4) * Pow2((c - 4) / 4)
  {
    hide EXTRA_LBITS, Pow2;
    if c > 0 {
      LengthBases(c - 1);
      LengthExtras(c - 1);
      NextRange(c - 1);
    }
  }

  lemma NextRange(c: nat)
    ensures c >= 8 ==> (4 + c % 4) * Pow2((c - 4) / 4) + Pow2((c - 4) / 4) == (4 + (c + 1) % 4) * Pow2((c + 1 - 4) / 4)
    ensures Pow2(0) == 1 && Pow2(1) == 2
  {
    if c >= 8 && c % 4 == 3 {
      assert (c + 1 - 4) / 4 == (c - 4) / 4 + 1;
    }
  }

  lemma DistanceExtras(c: nat)
    requires c < 30
    ensures |EXTRA_DBITS| == 30 && EXTRA_DBITS[c] == if c < 4 then 0 else (c - 2) / 2
  {
    if c < 10 {
      LowDistanceExtras();
    } else if c < 20 {
      MiddleDistanceExtras();
    } else {
      HighDistanceExtras();
    }
  }

  lemma LowDistanceExtras()
    ensures |EXTRA_DBITS| == 30 && forall c :: 0 <= c < 10 ==> EXTRA_DBITS[c] == if c < 4 then 0 else (c - 2) / 2
  {
  }

  lemma MiddleDistanceExtras()
    ensures |EXTRA_DBITS| == 30 && forall c :: 10 <= c < 20 ==> EXTRA_DBITS[c] == (c - 2) / 2
  {
  }

  lemma HighDistanceExtras()
    ensures |EXTRA_DBITS| == 30 && forall c :: 20 <= c < 30 ==> EXTRA_DBITS[c] == (c - 2) / 2
  {
  }

  /** The distance codes of section 3.2.5: four single distances, and then two ranges of each size. */
  lemma DistanceTable(c: nat)
    requires c < 30
    ensures |DBASE| == |DEXT| == 32
    ensures DBASE[c] == 1 + if c < 4 then c else (2 + c % 2) * Pow2((c - 2) / 2)
    ensures DEXT[c] == 16 + if c < 4 then 0 else (c - 2) / 2
  {
    DistBase(c);
    DistanceExtras(c);
    hide DBASE, DEXT, EXTRA_DBITS;
    DistanceBases(c);
  }

  lemma {:induction false} DistanceBases(c: nat)
    requires c <= 30 && |EXTRA_DBITS| == 30
    ensures Base(EXTRA_DBITS, c) == if c < 4 then c else (2 + c % 2) * Pow2((c - 2) / 2)
  {
    hide EXTRA_DBITS, Pow2;
    if c > 0 {
      DistanceBases(c - 1);
      DistanceExtras(c - 1);
      NextDistances(c - 1);
    }
  }

  lemma NextDistances(c: nat)
    ensures c >= 4 ==> (2 + c % 2) * Pow2((c - 2) / 2) + Pow2((c - 2) / 2) == (2 + (c + 1) % 2) * Pow2((c + 1 - 2) / 2)
    ensures Pow2(0) == 1 && Pow2(1) == 2
  {
    if c >= 4 && c % 2 == 1 {
      assert (c + 1 - 2) / 2 == (c - 2) / 2 + 1;
    }
  }

  // ---- the fixed codes ----

  lemma FixedFirst()
    ensures FirstCode(FixedLit(), 7) == 0 && FirstCode(FixedLit(), 8) == 48 && FirstCode(FixedLit(), 9) == 400
    ensures FirstCode(FixedDist(), 5) == 0
  {
    hide Count, FixedLit, FixedDist, Repeat;
    forall l: nat
      ensures Count(FixedLit(), l) == if l == 7 then 24 else if l == 8 then 152 else if l == 9 then 112 else 0
      ensures Count(FixedDist(), l) == if l == 5 then 32 else 0
    {
      StaticTrees.FixedCount(l);
      DistIs();
      StaticTrees.CountRepeat(5, 32, l);
    }
    StaticTrees.StartUpTo(FixedLit(), 7);
    StaticTrees.StartUpTo(FixedDist(), 5);
    assert FirstCode(FixedLit(), 8) == 48;
  }

  lemma DistIs()
    ensures FixedDist() == Repeat(5, 32)
  {
  }

  /** How many symbols before n have its length. */
  lemma FixedBefore(n: nat)
    requires n < 288
    ensures FixedLit()[n] == if n < 144 then 8 else if n < 256 then 9 else if n < 280 then 7 else 8
    ensures Count(FixedLit()[..n], FixedLit()[n]) == if n < 144 then n else if n < 256 then n - 144 else if n < 280 then n - 256 else n - 136
  {
    FixedPrefix(n);
    hide Count, Repeat, FixedLit;
    var l := FixedLit()[n];
    var a, b, c := Repeat(8, 144), Repeat(9, 112), Repeat(7, 24);
    StaticTrees.CountRepeat(8, if n < 144 then n else 144, l);
    if n >= 144 {
      var d := Repeat(9, if n < 256 then n - 144 else 112);
      TreeShape.CountConcat(a, d, l);
      StaticTrees.CountRepeat(9, |d|, l);
    }
    if n >= 256 {
      var d := Repeat(7, if n < 280 then n - 256 else 24);
      TreeShape.CountConcat(a + b, d, l);
      StaticTrees.CountRepeat(7, |d|, l);
    }
    if n >= 280 {
      TreeShape.CountConcat(a + b + c, Repeat(8, n - 280), l);
      StaticTrees.CountRepeat(8, n - 280, l);
    }
  }

  lemma FixedPrefix(n: nat)
    requires n < 288
    ensures FixedLit()[n] == if n < 144 then 8 else if n < 256 then 9 else if n < 280 then 7 else 8
    ensures n < 144 ==> FixedLit()[..n] == Repeat(8, n)
    ensures 144 <= n < 256 ==> FixedLit()[..n] == Repeat(8, 144) + Repeat(9, n - 144)
    ensures 256 <= n < 280 ==> FixedLit()[..n] == Repeat(8, 144) + Repeat(9, 112) + Repeat(7, n - 256)
    ensures 280 <= n ==> FixedLit()[..n] == Repeat(8, 144) + Repeat(9, 112) + Repeat(7, 24) + Repeat(8, n - 280)
  {
  }

  /** The codes that section 3.2.6 lists: from 00110000 for the first literals, from 110010000 for the
      others, from 0000000 for the end of block and the short lengths, from 11000000 for the long ones. */
  lemma FixedLitCode(n: nat)
    requires n < 288
    ensures FixedCodes().lit == FixedLit() && Used(FixedLit(), n)
    ensures Code(FixedLit(), n) == if n < 144 then CodeBits(48 + n, 8) else if n < 256 then CodeBits(400 + (n - 144), 9)
      else if n < 280 then CodeBits(n - 256, 7) else CodeBits(192 + (n - 280), 8)
  {
    StaticTrees.FixedComplete();
    LitIs();
    hide Count, FirstCode, CodeBits, FixedLit, Kraft;
    FixedFirst();
    FixedBefore(n);
  }

  lemma LitIs()
    ensures FixedCodes().lit == FixedLit() && FixedCodes().dist == FixedDist()
  {
  }

  /** Distance codes are five-bit numbers. */
  lemma FixedDistCode(n: nat)
    requires n < 32
    ensures FixedCodes().dist == FixedDist() && Used(FixedDist(), n) && Code(FixedDist(), n) == CodeBits(n, 5)
  {
    StaticTrees.FixedComplete();
    LitIs();
    DistIs();
    hide Count, FirstCode, CodeBits, FixedDist, Kraft;
    FixedFirst();
    assert FixedDist()[..n] == Repeat(5, n);
    StaticTrees.CountRepeat(5, n, 5);
  }

  // ---- stored blocks ----

  /** A stored block that starts with a byte: one byte for its type, its length, the complement, and its data. */
  function StoredBytes(data: seq<nat>, last: bool): seq<nat>
    requires |data| <= 65535
  {
    [Bit(last), |data| % 256, |data| / 256, 255 - |data| % 256, 255 - |data| / 256] + data
  }

  lemma StoredBlockBytes(data: seq<nat>, last: bool)
    requires |data| <= 65535
    ensures StoredBits(data, last, 0) == ByteBits(StoredBytes(data, last))
  {
    hide ToBits, ByteBits;
    var n := |data|;
    FirstByte(last);
    TwoBytes(n);
    TwoBytes(65535 - n);
    assert (65535 - n) % 256 == 255 - n % 256 && (65535 - n) / 256 == 255 - n / 256;
    FiveBytes(Bit(last), n % 256, n / 256, 255 - n % 256, 255 - n / 256);
    ByteBitsConcat([Bit(last), n % 256, n / 256, 255 - n % 256, 255 - n / 256], data);
    Regroup(TypeBits(0, last), Padding(3), ToBits(n, 16), ToBits(65535 - n, 16), ByteBits(data));
  }

  lemma Regroup(a: seq<bool>, b: seq<bool>, c: seq<bool>, d: seq<bool>, e: seq<bool>)
    ensures a + b + c + d + e == (a + b) + c + d + e
  {
  }

  lemma FirstByte(last: bool)
    ensures TypeBits(0, last) + Padding(3) == ToBits(Bit(last), 8)
  {
    Pow2Values();
    ZeroExtend(Bit(last), 3, 8);
  }

  lemma TwoBytes(v: nat)
    ensures ToBits(v, 16) == ToBits(v % 256, 8) + ToBits(v / 256, 8)
  {
    hide ToBits;
    ToBitsSplit(v, 8, 8);
    ByteShift(v);
  }

  lemma ByteShift(v: nat)
    ensures Shr(v, 8) == v / 256 && ToBits(v, 8) == ToBits(v % 256, 8)
  {
    hide ToBits, Low, Shr;
    Pow2Values();
    LowShr(v / 256, v % 256, 8);
    ToBitsLow(v, 8);
  }

  lemma FiveBytes(a: nat, b: nat, c: nat, d: nat, e: nat)
    ensures ByteBits([a, b, c, d, e]) == ToBits(a, 8) + (ToBits(b, 8) + ToBits(c, 8)) + (ToBits(d, 8) + ToBits(e, 8))
  {
    hide *;
    NoBytes();
    OneMore([], a);
    OneMore([] + [a], b);
    OneMore([] + [a] + [b], c);
    OneMore([] + [a] + [b] + [c], d);
    OneMore([] + [a] + [b] + [c] + [d], e);
    FiveItems(a, b, c, d, e);
    FiveParts(ToBits(a, 8), ToBits(b, 8), ToBits(c, 8), ToBits(d, 8), ToBits(e, 8));
  }

  lemma FiveItems(a: nat, b: nat, c: nat, d: nat, e: nat)
    ensures [] + [a] + [b] + [c] + [d] + [e] == [a, b, c, d, e]
  {
  }

  lemma FiveParts(a: seq<bool>, b: seq<bool>, c: seq<bool>, d: seq<bool>, e: seq<bool>)
    ensures [] + a + b + c + d + e == a + (b + c) + (d + e)
  {
  }

  lemma NoBytes()
    ensures ByteBits([]) == []
  {
  }

  lemma OneMore(s: seq<nat>, b: nat)
    ensures ByteBits(s + [b]) == ByteBits(s) + ToBits(b, 8)
  {
    hide ToBits;
    assert (s + [b])[..|s|] == s;
  }

  /** However the bytes of a last stored block are cut into calls, inflate ends with its data. */
  lemma StoredStream(s: State, data: seq<nat>)
    requires |data| <= 65535 && Matching.Bytes(data) && Ended(s, StoredBytes(data, true))
    ensures s.mode == DONE && s.past == data
  {
    hide *;
    StoredBlockBytes(data, true);
    var input := ByteBits(StoredBytes(data, true));
    AtStart(input);
    BytesSmall(data);
    StoredLeads(input, data, true, 0, []);
    StoredEnds(data, input);
    var c0, c1 := Config(Block(false), 0, []), Config(Block(true), |input|, data);
    LastMove(input, data);
    LeadsMove(input, c0, c1, Config(Done, |input|, data));
    ReadsAs(s, StoredBytes(data, true), |input|, data);
  }

  lemma AtStart(input: seq<bool>)
    ensures At(input, 0, input) && START == Config(Block(false), 0, [])
  {
    assert input[0..] == input;
  }

  lemma BytesSmall(data: seq<nat>)
    requires Matching.Bytes(data)
    ensures forall i :: 0 <= i < |data| ==> data[i] < 256
  {
  }

  lemma StoredEnds(data: seq<nat>, input: seq<bool>)
    requires |data| <= 65535 && input == ByteBits(StoredBytes(data, true))
    ensures |input| % 8 == 0 && [] + data == data
  {
    hide ByteBits;
  }

  lemma LastMove(input: seq<bool>, out: seq<nat>)
    requires |input| % 8 == 0
    ensures Move(input, Config(Block(true), |input|, out)) == Moved(Config(Done, |input|, out))
  {
    assert out + [] == out;
  }
}
