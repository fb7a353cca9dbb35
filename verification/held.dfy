/** The decoder can stop between two symbols with a whole byte in its bit buffer. */
module HeldBits {
  import opened Bits
  import opened Canonical
  import opened DecodingTables
  import opened SymbolDecoding
  import opened CodeLengths
  import opened BitOutput
  import opened BlockBits
  import opened BlockTrees
  import opened InflateSpec
  import opened InflateStates
  import opened InflateMain
  import RoundTrips
  import StaticTrees
  import TreeShape

  /** A block with the fixed codes, five literals of nine bits, and eight bits of a sixth. */
  function Whole(): (bytes: seq<nat>)
    ensures |bytes| == 7 && forall i :: 0 <= i < 7 ==> bytes[i] < 256
  {
    [250] + Repeat(255, 6)
  }

  function Ones(n: nat): (bits: seq<bool>)
    ensures |bits| == n && forall i :: 0 <= i < n ==> bits[i]
  {
    seq(n, i => true)
  }

  lemma Halves(n: nat)
    requires n > 0
    ensures (Pow2(n) - 1) % 2 == 1 && (Pow2(n) - 1) / 2 == Pow2(n - 1) - 1
  {
    assert Pow2(n) == 2 * Pow2(n - 1);
  }

  lemma {:induction false} OnesCode(n: nat)
    ensures CodeBits(Pow2(n) - 1, n) == Ones(n)
  {
    hide *;
    if n == 0 {
      NoOnes();
    } else {
      Halves(n);
      OnesCode(n - 1);
      NextBit(Pow2(n) - 1, n);
      OneMore(n);
    }
  }

  lemma {:induction false} OnesBits(n: nat)
    ensures ToBits(Pow2(n) - 1, n) == Ones(n)
  {
    hide *;
    if n == 0 {
      NoOnes();
    } else {
      Halves(n);
      OnesBits(n - 1);
      NextBit(Pow2(n) - 1, n);
      OneMore(n);
    }
  }

  lemma NoOnes()
    ensures CodeBits(Pow2(0) - 1, 0) == ToBits(Pow2(0) - 1, 0) == Ones(0)
  {
  }

  lemma OneMore(n: nat)
    requires n > 0
    ensures Ones(n) == [true] + Ones(n - 1) == Ones(n - 1) + [true]
  {
  }

  lemma NextBit(v: nat, n: nat)
    requires n > 0
    ensures ToBits(v, n) == [v % 2 == 1] + ToBits(v / 2, n - 1)
    ensures CodeBits(v, n) == CodeBits(v / 2, n - 1) + [v % 2 == 1]
  {
  }

  lemma {:induction false} OnesBytes(k: nat)
    ensures ByteBits(Repeat(255, k)) == Ones(8 * k)
  {
    if k > 0 {
      OnesBytes(k - 1);
      assert Repeat(255, k)[..k - 1] == Repeat(255, k - 1);
      OnesBits(8);
      Pow2Values();
    }
  }

  lemma FirstByte()
    ensures ToBits(250, 8) == TypeBits(1, false) + ToBits(31, 5)
  {
    hide *;
    NextBit(250, 8);
    NextBit(125, 7);
    NextBit(62, 6);
    TypeIs();
    Regroup(false, true, false, ToBits(31, 5));
  }

  lemma TypeIs()
    ensures TypeBits(1, false) == [false, true, false]
  {
    hide ToBits;
    NextBit(2, 3);
    NextBit(1, 2);
    NextBit(0, 1);
    assert TypeBits(1, false) == ToBits(2, 3);
  }

  lemma Regroup(a: bool, b: bool, c: bool, rest: seq<bool>)
    ensures [a] + ([b] + ([c] + rest)) == [a, b, c] + rest
  {
  }

  lemma OneByte(b: nat)
    ensures ByteBits([b]) == ToBits(b, 8)
  {
    hide ToBits;
    assert [b][..0] == [];
  }

  /** The header of the block, and then ones only. */
  lemma WholeBits()
    ensures ByteBits(Whole()) == TypeBits(1, false) + Ones(53)
  {
    hide ToBits, ByteBits, TypeBits;
    ByteBitsConcat([250], Repeat(255, 6));
    OneByte(250);
    FirstByte();
    OnesBytes(6);
    OnesBits(5);
    Pow2Values();
    assert Ones(53) == Ones(5) + Ones(48);
  }

  lemma NinesBefore()
    ensures Count(FixedLit()[..255], 9) == 111
  {
    hide Count;
    assert FixedLit()[..255] == Repeat(8, 144) + Repeat(9, 111);
    TreeShape.CountConcat(Repeat(8, 144), Repeat(9, 111), 9);
    StaticTrees.CountRepeat(8, 144, 9);
    StaticTrees.CountRepeat(9, 111, 9);
  }

  lemma NineFirst()
    ensures FirstCode(FixedLit(), 9) == 400
  {
    hide Count, FixedLit, Repeat;
    forall l: nat ensures Count(FixedLit(), l) == if l == 7 then 24 else if l == 8 then 152 else if l == 9 then 112 else 0 {
      StaticTrees.FixedCount(l);
    }
    StaticTrees.StartUpTo(FixedLit(), 7);
    assert FirstCode(FixedLit(), 8) == 48;
  }

  /** Literal 255 is sent as nine ones. */
  lemma LastLiteral()
    ensures FixedCodes().lit == FixedLit() && Kraft(FixedLit()) == UNIT && Used(FixedLit(), 255) && FixedLit()[255] == 9
    ensures Code(FixedLit(), 255) == Ones(9)
  {
    hide *;
    StaticTrees.FixedComplete();
    FixedAt();
    NinesBefore();
    NineFirst();
    CodeOf255();
    OnesCode(9);
    NinePower();
  }

  lemma FixedAt()
    ensures FixedCodes().lit == FixedLit() && FixedLit()[255] == 9
  {
  }

  lemma NinePower()
    ensures Pow2(9) - 1 == 511
  {
    Pow2Values();
  }

  lemma CodeOf255()
    requires Used(FixedLit(), 255) && FixedLit()[255] == 9
    ensures Code(FixedLit(), 255) == CodeBits(FirstCode(FixedLit(), 9) + Count(FixedLit()[..255], 9), 9)
  {
    hide FixedLit, FirstCode, Count, CodeBits;
  }

  lemma {:induction false} OnesLead(input: seq<bool>, n: nat, k: nat)
    requires |input| == 3 + n && input[3..] == Ones(n) && 9 * k <= n
    ensures var c := LenSym(false, FixedCodes());
      Leads(input, Config(c, 3, []), Config(c, 3 + 9 * k, Repeat(255, k)))
  {
    hide Leads, FixedCodes, Code, Kraft, FixedLit;
    var p := LenSym(false, FixedCodes());
    if k == 0 {
      LeadsSelf(input, Config(p, 3, []));
      assert Repeat(255, 0) == [];
    } else {
      OnesLead(input, n, k - 1);
      LastLiteral();
      var d := Config(p, 3 + 9 * (k - 1), Repeat(255, k - 1));
      assert forall i :: 3 <= i < |input| ==> input[3..][i - 3] == input[i];
      assert Ones(9) <= input[d.pos..];
      RoundTrips.LitLeads(input, d, 255);
      assert Repeat(255, k - 1) + [255] == Repeat(255, k);
      LeadsOn(input, Config(p, 3, []), d, Config(p, 3 + 9 * k, Repeat(255, k)));
    }
  }

  /** Eight ones are no code yet. */
  lemma EightWait(input: seq<bool>, pos: nat, out: seq<nat>)
    requires pos <= |input| && input[pos..] == Ones(8)
    ensures Move(input, Config(LenSym(false, FixedCodes()), pos, out)) == Stuck
  {
    hide FixedCodes, Code, Kraft, FixedLit;
    LastLiteral();
    if n: nat :| Starts(FixedLit(), Ones(8), n) {
      assert Ones(8) <= Ones(9);
      assert Code(FixedLit(), n) <= Code(FixedLit(), 255);
      if n != 255 { PrefixFree(FixedLit(), n, 255); }
    }
  }

  /** Where the bytes of Whole lead, and stop: after five literals, with eight bits left. */
  lemma WholeLeads()
    ensures var d := Config(LenSym(false, FixedCodes()), 48, Repeat(255, 5));
      Leads(ByteBits(Whole()), START, d) && Move(ByteBits(Whole()), d) == Stuck
  {
    hide Leads, ByteBits, FixedCodes, TypeBits, Move;
    var input := ByteBits(Whole());
    var c, d := Config(LenSym(false, FixedCodes()), 3, []), Config(LenSym(false, FixedCodes()), 48, Repeat(255, 5));
    WholeBits();
    assert input[3..] == Ones(53) && input[48..] == Ones(8);
    assert RoundTrips.At(input, 0, TypeBits(1, false));
    RoundTrips.TypeMove(input, 1, false, 0, []);
    LeadsSelf(input, START);
    LeadsMove(input, START, START, c);
    OnesLead(input, 53, 5);
    LeadsOn(input, START, c, d);
    EightWait(input, 48, Repeat(255, 5));
  }

  /** However these bytes have been cut into calls, the decoder is then between two
      symbols, with eight bits in its bit buffer. */
  lemma LenHoldsEight(s: State)
    requires Ended(s, Whole())
    ensures s.mode in {LENSTART, LEN} && s.bits == 8 && s.past == Repeat(255, 5)
  {
    hide Leads, ByteBits, Move, FixedCodes, Whole;
    var d := Config(LenSym(false, FixedCodes()), 48, Repeat(255, 5));
    WholeLeads();
    EndIsReached(s, Whole());
    OneEnd(ByteBits(Whole()), START, s.Now(), d);
    InLen(s);
    EndBytes(s, Whole());
    HeldAt(s);
  }

  /** One call is enough to get there. */
  method HoldEight() returns (s: State)
    ensures fresh(s) && Ended(s, Whole()) && s.mode in {LENSTART, LEN} && s.bits == 8
  {
    hide Between, Ended, Move, Leads, ByteBits, Whole;
    s := new State();
    StartsBetween(s);
    var ret, unused, output := InflateCall(s, Whole(), 258, false);
    assert s.fed + unused == Whole();
    if ret == STREAM_END || ret == DATA_ERROR {
      EndedNow(s, Whole());
    } else {
      AtMostFive(s);
      EndedAt(s, Whole());
    }
    LenHoldsEight(s);
  }

  lemma StartsBetween(s: State)
    requires s.Valid() && s.Tight() && s.past == [] && s.put == [] && s.next == [] && s.mode == TYPEDO && s.window.wsize == 0
    requires s.window.Holds([])
    ensures Between(s)
  {
    hide Leads, ByteBits, Move;
  }

  lemma AtMostFive(s: State)
    requires Between(s) && s.fed <= Whole()
    ensures |s.past| <= 5
  {
    hide Between, Leads, ByteBits, Move, Whole, FixedCodes;
    WholeLeads();
    BetweenReached(s, Whole());
    var d := Config(LenSym(false, FixedCodes()), 48, Repeat(255, 5));
    EndAhead(ByteBits(Whole()), START, s.Now(), d);
    LeadsLocal(ByteBits(Whole()), ByteBits(Whole()), s.Now(), d);
  }

  lemma EndedAt(s: State, whole: seq<nat>)
    requires Between(s) && s.fed == whole && Move(s.Input(), s.Now()) == Stuck
    ensures Ended(s, whole)
  {
    hide Between, Move;
  }

  lemma InLen(s: State)
    requires s.Now().p.LenSym?
    ensures s.mode in {LENSTART, LEN}
  {
  }

  lemma HeldAt(s: State)
    requires Between(s) && s.mode != BAD
    ensures s.bits == 8 * |s.fed| - s.Now().pos
  {
    hide Leads, ByteBits, Move;
  }
}
