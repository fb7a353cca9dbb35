/** Streams written out byte by byte: a dynamic block, stored blocks and the fixed codes, with the
    tables of RFC 1951 stated a second time. */
module KnownStreams {
  import opened Bits
  import opened Canonical
  import opened HuffBits
  import opened DecodingTables
  import opened CodeLengths
  import opened BitOutput
  import opened Tokens
  import opened BlockBits
  import opened BlockTrees
  import opened InflateSpec
  import opened InflateStates
  import opened InflateMain
  import opened RoundTrips
  import BlockData
  import EnoughEntries
  import HeldBits
  import Matching
  import StaticTrees
  import TreeShape

  // ---- the order of the code-length codes ----

  /** 16, 17, 18 and 0 come first, and then the lengths outwards from 8, above and below in turn. */
  lemma OrderOutwards(r: nat)
    requires r < 19
    ensures |ORDER| == 19 && ORDER == BL_ORDER
    ensures ORDER[r] == if r < 3 then 16 + r else if r == 3 then 0 else if r % 2 == 0 then 8 + (r - 4) / 2 else 8 - (r - 3) / 2
  {
    SameOrder();
    assert ORDER[0] == 16 && ORDER[1] == 17 && ORDER[2] == 18 && ORDER[3] == 0 && ORDER[4] == 8 && ORDER[5] == 7 && ORDER[6] == 9;
    assert ORDER[7] == 6 && ORDER[8] == 10 && ORDER[9] == 5 && ORDER[10] == 11 && ORDER[11] == 4 && ORDER[12] == 12;
    assert ORDER[13] == 3 && ORDER[14] == 13 && ORDER[15] == 2 && ORDER[16] == 14 && ORDER[17] == 1 && ORDER[18] == 15;
  }

  // ---- a dynamic block ----

  const TEXT: seq<nat> := [99, 101, 122, 99, 122, 122, 122, 101, 99, 99] + [122, 122, 99, 122, 101, 99, 122, 99, 101, 99] + [99, 101, 122, 101, 122, 122, 99, 101, 101]

  datatype List<T> = Nil | Cons(head: T, tail: List<T>)

  function Items<T>(l: List<T>): seq<T> {
    match l
    case Nil => []
    case Cons(x, rest) => [x] + Items(rest)
  }

  // its three codes

  /** Code lengths as pairs: some zeros, and a length. */
  function Lens(r: List<(nat, nat)>): seq<nat> {
    match r
    case Nil => []
    case Cons(x, rest) => Repeat(0, x.0) + [x.1] + Lens(rest)
  }

  function Size(r: List<(nat, nat)>): nat {
    match r
    case Nil => 0
    case Cons(x, rest) => x.0 + 1 + Size(rest)
  }

  function LenAt(r: List<(nat, nat)>, n: nat): nat {
    match r
    case Nil => 0
    case Cons(x, rest) => if n < x.0 then 0 else if n == x.0 then x.1 else LenAt(rest, n - x.0 - 1)
  }

  /** How many symbols before n have length l. */
  function Before(r: List<(nat, nat)>, n: nat, l: nat): nat {
    match r
    case Nil => 0
    case Cons(x, rest) => if n <= x.0 then 0 else (if x.1 == l then 1 else 0) + Before(rest, n - x.0 - 1, l)
  }

  predicate TwoOrThree(r: List<(nat, nat)>) {
    match r
    case Nil => true
    case Cons(x, rest) => (x.1 == 2 || x.1 == 3) && TwoOrThree(rest)
  }

  lemma {:induction false} LensAre(r: List<(nat, nat)>, n: nat, l: nat)
    requires n <= Size(r) && l >= 1
    ensures |Lens(r)| == Size(r) && Count(Lens(r)[..n], l) == Before(r, n, l) && (n < Size(r) ==> Lens(r)[n] == LenAt(r, n))
  {
    match r {
      case Nil =>
      case Cons(x, rest) =>
        LensAre(rest, if n > x.0 then n - x.0 - 1 else 0, l);
        hide Count, Repeat;
        if n <= x.0 {
          assert Lens(r)[..n] == Repeat(0, n);
          StaticTrees.CountRepeat(0, n, l);
        } else {
          var front := Repeat(0, x.0) + [x.1];
          assert Lens(r)[..n] == front + Lens(rest)[..n - x.0 - 1];
          TreeShape.CountConcat(front, Lens(rest)[..n - x.0 - 1], l);
          StaticTrees.CountRepeat(0, x.0, l);
          CountOne(Repeat(0, x.0), x.1, l);
        }
    }
  }

  lemma CountOne(s: seq<nat>, x: nat, l: nat)
    ensures Count(s + [x], l) == Count(s, l) + if x == l then 1 else 0
  {
    assert (s + [x])[..|s|] == s;
  }

  lemma {:induction false} OnlyTwoThree(r: List<(nat, nat)>, n: nat, l: nat)
    requires TwoOrThree(r) && l != 2 && l != 3
    ensures Before(r, n, l) == 0
  {
    if r.Cons? && n > r.head.0 { OnlyTwoThree(r.tail, n - r.head.0 - 1, l); }
  }

  /** A complete code of lengths two and three. */
  lemma TwoThreeCode(r: List<(nat, nat)>)
    requires TwoOrThree(r) && 2 * Before(r, Size(r), 2) + Before(r, Size(r), 3) == 8
    ensures |Lens(r)| == Size(r) && Kraft(Lens(r)) == UNIT && FirstCode(Lens(r), 2) == 0 && FirstCode(Lens(r), 3) == 2 * Before(r, Size(r), 2)
  {
    hide Count, Before, Lens, Size, TwoOrThree;
    var lens, n2, n3 := Lens(r), Before(r, Size(r), 2), Before(r, Size(r), 3);
    forall l: nat | l >= 1
      ensures Count(lens, l) == if l == 2 then n2 else if l == 3 then n3 else 0
    {
      LensAre(r, Size(r), l);
      assert lens[..Size(r)] == lens;
      if l != 2 && l != 3 { OnlyTwoThree(r, Size(r), l); }
    }
    LensAre(r, Size(r), 2);
    StaticTrees.StartUpTo(lens, 2);
    StaticTrees.StartAfter(lens, 4, 16);
    Pow2Values();
    assert Width(2) == 8192 && Width(3) == 4096;
    assert StartOf(lens, 3) == n2 * 8192 && StartOf(lens, 4) == n2 * 8192 + n3 * 4096;
  }

  /** The code of symbol n, number c, as a number with its first bit lowest. */
  lemma CodeOf(r: List<(nat, nat)>, n: nat, len: nat, before: nat, c: nat, v: nat)
    requires TwoOrThree(r) && 2 * Before(r, Size(r), 2) + Before(r, Size(r), 3) == 8 && n < Size(r)
    requires LenAt(r, n) == len && (len == 2 || len == 3) && Before(r, n, len) == before
    requires c == before + (if len == 2 then 0 else 2 * Before(r, Size(r), 2)) && CodeBits(c, len) == ToBits(v, len)
    ensures Used(Lens(r), n) && Code(Lens(r), n) == ToBits(v, len)
  {
    hide *;
    TwoThreeCode(r);
    LensAre(r, n, len);
    UsedAt(Lens(r), n);
  }

  lemma UsedAt(lens: seq<nat>, n: nat)
    requires n < |lens| && 1 <= lens[n] <= 15
    ensures Used(lens, n) && Code(lens, n) == CodeBits(FirstCode(lens, lens[n]) + Count(lens[..n], lens[n]), lens[n])
  {
    hide FirstCode, Count, CodeBits;
  }

  /** Short codes, first bit lowest. */
  lemma ShortCodes()
    ensures CodeBits(0, 2) == ToBits(0, 2) && CodeBits(1, 2) == ToBits(2, 2) && CodeBits(2, 2) == ToBits(1, 2) && CodeBits(3, 2) == ToBits(3, 2)
    ensures CodeBits(4, 3) == ToBits(1, 3) && CodeBits(5, 3) == ToBits(5, 3) && CodeBits(6, 3) == ToBits(3, 3) && CodeBits(7, 3) == ToBits(7, 3)
  {
    hide CodeBits, ToBits;
    TwoBits(false, false);
    TwoBits(false, true);
    TwoBits(true, false);
    TwoBits(true, true);
    ThreeBits(false, false);
    ThreeBits(false, true);
    ThreeBits(true, false);
    ThreeBits(true, true);
  }

  lemma TwoBits(a: bool, b: bool)
    ensures CodeBits(2 * Bit(a) + Bit(b), 2) == ToBits(Bit(a) + 2 * Bit(b), 2)
  {
    assert CodeBits(Bit(a), 1) == [a] && ToBits(Bit(b), 1) == [b];
  }

  /** Of codes that start with a one. */
  lemma ThreeBits(a: bool, b: bool)
    ensures CodeBits(4 + 2 * Bit(a) + Bit(b), 3) == ToBits(1 + 2 * Bit(a) + 4 * Bit(b), 3)
  {
    assert CodeBits(1, 1) == [true] && CodeBits(2 + Bit(a), 2) == [true, a];
    assert ToBits(Bit(b), 1) == [b] && ToBits(Bit(a) + 2 * Bit(b), 2) == [a, b];
  }

  function BlRuns(): List<(nat, nat)> {
    Cons((0, 3), Cons((1, 2), Cons((0, 3), Cons((12, 3), Cons((0, 3), Cons((0, 2), Nil))))))
  }

  function LitRuns(): List<(nat, nat)> {
    Cons((99, 2), Cons((1, 2), Cons((20, 2), Cons((133, 3), Cons((0, 3), Nil)))))
  }

  function DistRuns(): List<(nat, nat)> {
    Cons((4, 2), Cons((0, 2), Cons((0, 2), Cons((0, 2), Nil))))
  }

  lemma BlTable()
    ensures TwoOrThree(BlRuns()) && Size(BlRuns()) == 19 && Before(BlRuns(), 19, 2) == 2 && Before(BlRuns(), 19, 3) == 4
    ensures LenAt(BlRuns(), 0) == 3 && Before(BlRuns(), 0, 3) == 0
    ensures LenAt(BlRuns(), 2) == 2 && Before(BlRuns(), 2, 2) == 0
    ensures LenAt(BlRuns(), 3) == 3 && Before(BlRuns(), 3, 3) == 1
    ensures LenAt(BlRuns(), 16) == 3 && Before(BlRuns(), 16, 3) == 2
    ensures LenAt(BlRuns(), 17) == 3 && Before(BlRuns(), 17, 3) == 3
    ensures LenAt(BlRuns(), 18) == 2 && Before(BlRuns(), 18, 2) == 1
  {
  }

  lemma BlCodes()
    ensures var bl := Lens(BlRuns());
      && |bl| == 19 && Kraft(bl) == UNIT
      && Used(bl, 0) && Code(bl, 0) == ToBits(1, 3)
      && Used(bl, 2) && Code(bl, 2) == ToBits(0, 2)
      && Used(bl, 3) && Code(bl, 3) == ToBits(5, 3)
      && Used(bl, 16) && Code(bl, 16) == ToBits(3, 3)
      && Used(bl, 17) && Code(bl, 17) == ToBits(7, 3)
      && Used(bl, 18) && Code(bl, 18) == ToBits(2, 2)
  {
    hide *;
    ShortCodes();
    BlTable();
    TwoThreeCode(BlRuns());
    CodeOf(BlRuns(), 0, 3, 0, 4, 1);
    CodeOf(BlRuns(), 2, 2, 0, 0, 0);
    CodeOf(BlRuns(), 3, 3, 1, 5, 5);
    CodeOf(BlRuns(), 16, 3, 2, 6, 3);
    CodeOf(BlRuns(), 17, 3, 3, 7, 7);
    CodeOf(BlRuns(), 18, 2, 1, 1, 2);
  }

  lemma LitTable()
    ensures TwoOrThree(LitRuns()) && Size(LitRuns()) == 258 && Before(LitRuns(), 258, 2) == 3 && Before(LitRuns(), 258, 3) == 2
    ensures LenAt(LitRuns(), 99) == 2 && Before(LitRuns(), 99, 2) == 0
    ensures LenAt(LitRuns(), 101) == 2 && Before(LitRuns(), 101, 2) == 1
    ensures LenAt(LitRuns(), 122) == 2 && Before(LitRuns(), 122, 2) == 2
    ensures LenAt(LitRuns(), 256) == 3 && Before(LitRuns(), 256, 3) == 0
    ensures LenAt(LitRuns(), 257) == 3 && Before(LitRuns(), 257, 3) == 1
  {
  }

  lemma LitCodes()
    ensures var lit := Lens(LitRuns());
      && |lit| == 258 && Kraft(lit) == UNIT
      && Used(lit, 99) && Code(lit, 99) == ToBits(0, 2)
      && Used(lit, 101) && Code(lit, 101) == ToBits(2, 2)
      && Used(lit, 122) && Code(lit, 122) == ToBits(1, 2)
      && Used(lit, 256) && Code(lit, 256) == ToBits(3, 3)
      && Used(lit, 257) && Code(lit, 257) == ToBits(7, 3)
  {
    hide *;
    ShortCodes();
    LitTable();
    TwoThreeCode(LitRuns());
    CodeOf(LitRuns(), 99, 2, 0, 0, 0);
    CodeOf(LitRuns(), 101, 2, 1, 1, 2);
    CodeOf(LitRuns(), 122, 2, 2, 2, 1);
    CodeOf(LitRuns(), 256, 3, 0, 6, 3);
    CodeOf(LitRuns(), 257, 3, 1, 7, 7);
  }

  lemma DistTable()
    ensures TwoOrThree(DistRuns()) && Size(DistRuns()) == 8 && Before(DistRuns(), 8, 2) == 4 && Before(DistRuns(), 8, 3) == 0
    ensures LenAt(DistRuns(), 4) == 2 && Before(DistRuns(), 4, 2) == 0
    ensures LenAt(DistRuns(), 5) == 2 && Before(DistRuns(), 5, 2) == 1
    ensures LenAt(DistRuns(), 6) == 2 && Before(DistRuns(), 6, 2) == 2
    ensures LenAt(DistRuns(), 7) == 2 && Before(DistRuns(), 7, 2) == 3
  {
  }

  lemma DistCodes()
    ensures var dist := Lens(DistRuns());
      && |dist| == 8 && Kraft(dist) == UNIT
      && Used(dist, 4) && Code(dist, 4) == ToBits(0, 2)
      && Used(dist, 5) && Code(dist, 5) == ToBits(2, 2)
      && Used(dist, 6) && Code(dist, 6) == ToBits(1, 2)
      && Used(dist, 7) && Code(dist, 7) == ToBits(3, 2)
  {
    hide *;
    ShortCodes();
    DistTable();
    TwoThreeCode(DistRuns());
    CodeOf(DistRuns(), 4, 2, 0, 0, 0);
    CodeOf(DistRuns(), 5, 2, 1, 1, 2);
    CodeOf(DistRuns(), 6, 2, 2, 2, 1);
    CodeOf(DistRuns(), 7, 2, 3, 3, 3);
  }

  // its bits as a number

  /** The bits of a token of the code lengths. */
  predicate ClKnown(t: ClToken) {
    match t
    case Len(l) => l == 0 || l == 2 || l == 3
    case Rep(n) => 3 <= n <= 6
    case Zeros3(n) => 3 <= n <= 10
    case Zeros11(n) => 11 <= n <= 138
  }

  function ClWidth(t: ClToken): nat {
    match t
    case Len(l) => if l == 2 then 2 else 3
    case Rep(_) => 5
    case Zeros3(_) => 6
    case Zeros11(_) => 9
  }

  function ClValue(t: ClToken): nat
    requires ClKnown(t)
  {
    match t
    case Len(l) => if l == 0 then 1 else if l == 2 then 0 else 5
    case Rep(n) => 3 + 8 * (n - 3)
    case Zeros3(n) => 7 + 8 * (n - 3)
    case Zeros11(n) => 2 + 4 * (n - 11)
  }

  lemma TwoParts(x: nat, m: nat, y: nat, n: nat)
    requires x < Pow2(m) && y < Pow2(n)
    ensures Lsb(ToBits(x, m) + ToBits(y, n)) == x + Pow2(m) * y && Lsb(ToBits(x, m)) == x
  {
    LsbConcat(ToBits(x, m), ToBits(y, n));
    LsbToBits(x, m);
    LsbToBits(y, n);
    LowSmall(x, m);
    LowSmall(y, n);
  }

  lemma ClTokenIs(t: ClToken)
    requires ClKnown(t)
    ensures t.Fits() && Used(Lens(BlRuns()), t.Symbol())
    ensures |ClTokenBits(Lens(BlRuns()), t)| == ClWidth(t) && Lsb(ClTokenBits(Lens(BlRuns()), t)) == ClValue(t)
  {
    hide Lens, Code, Used, ToBits, Lsb;
    BlCodes();
    Pow2Values();
    hide Pow2;
    var v, n := t.ExtraValue(), t.ExtraBits();
    if t.Rep? {
      TwoParts(3, 3, v, n);
    } else if t.Zeros3? {
      TwoParts(7, 3, v, n);
    } else if t.Zeros11? {
      TwoParts(2, 2, v, n);
    } else {
      assert ToBits(0, 0) == [];
      TwoParts(if t.l == 0 then 1 else if t.l == 2 then 0 else 5, if t.l == 2 then 2 else 3, 0, 0);
    }
  }

  predicate AllClKnown(l: List<ClToken>) {
    l.Cons? ==> ClKnown(l.head) && AllClKnown(l.tail)
  }

  function ClTotal(l: List<ClToken>): nat {
    match l
    case Nil => 0
    case Cons(t, rest) => ClWidth(t) + ClTotal(rest)
  }

  function ClSum(l: List<ClToken>): nat
    requires AllClKnown(l)
  {
    match l
    case Nil => 0
    case Cons(t, rest) => ClValue(t) + Pow2(ClWidth(t)) * ClSum(rest)
  }

  lemma {:induction false} ClSumIs(l: List<ClToken>)
    requires AllClKnown(l)
    ensures |ClBits(Lens(BlRuns()), Items(l))| == ClTotal(l) && Lsb(ClBits(Lens(BlRuns()), Items(l))) == ClSum(l)
    ensures forall i :: 0 <= i < |Items(l)| ==> Items(l)[i].Fits() && Used(Lens(BlRuns()), Items(l)[i].Symbol())
  {
    hide ClTokenBits, Lens, BlRuns, Used, ClToken.Fits, ClWidth, ClValue, Lsb, Pow2;
    if l.Cons? {
      var bl := Lens(BlRuns());
      ClSumIs(l.tail);
      ClTokenIs(l.head);
      ClOne(bl, l.head);
      ClBitsConcat(bl, [l.head], Items(l.tail));
      LsbConcat(ClTokenBits(bl, l.head), ClBits(bl, Items(l.tail)));
    } else {
      LsbNone();
    }
  }

  lemma ClOne(bl: seq<nat>, t: ClToken)
    ensures ClBits(bl, [t]) == ClTokenBits(bl, t)
  {
    assert [t][..0] == [];
  }

  lemma LsbNone()
    ensures Lsb([]) == 0
  {
  }

  function ClTokens(): List<ClToken> {
    Cons(Zeros11(99), Cons(Len(2), Cons(Len(0), Cons(Len(2), Cons(Zeros11(20), Cons(Len(2), Cons(Zeros11(133), Cons(Len(3), Cons(Len(3), Cons(Zeros3(4), Cons(Len(2), Cons(Rep(3), Nil))))))))))))
  }

  lemma ClSumValue()
    ensures AllClKnown(ClTokens()) && ClSum(ClTokens()) == 0xc3edf50260962
  {
    assert ClSum(Cons(Zeros11(133), Cons(Len(3), Cons(Len(3), Cons(Zeros3(4), Cons(Len(2), Cons(Rep(3), Nil))))))) == 0x187dbea;
  }

  lemma ClTotalValue()
    ensures ClTotal(ClTokens()) == 55
  {
  }

  // the same for its data

  predicate TokKnown(t: Token) {
    match t
    case Lit(b) => b == 99 || b == 101 || b == 122
    case Match(len, d) => len == 3 && (d == 6 || d == 7 || d == 11 || d == 14)
  }

  function TokWidth(t: Token): nat {
    match t
    case Lit(_) => 2
    case Match(_, d) => if d <= 8 then 6 else 7
  }

  function TokValue(t: Token): nat
    requires TokKnown(t)
  {
    match t
    case Lit(b) => if b == 99 then 0 else if b == 101 then 2 else 1
    case Match(_, d) => 7 + 8 * (if d == 6 then 0 + 4 * 1 else if d == 7 then 2 + 4 * 0 else if d == 11 then 1 + 4 * 2 else 3 + 4 * 1)
  }

  lemma Distances()
    ensures DistCode(5) == 4 && DistCode(6) == 5 && DistCode(10) == 6 && DistCode(13) == 7 && LenCode(0) == 0
    ensures DistExtra(6) == ToBits(1, 1) && DistExtra(7) == ToBits(0, 1) && DistExtra(11) == ToBits(2, 2) && DistExtra(14) == ToBits(1, 2)
    ensures LenExtra(3) == []
  {
    hide ToBits;
    DistanceBases();
    CodeIs(EXTRA_DBITS, 5, 29, 4);
    CodeIs(EXTRA_DBITS, 6, 29, 5);
    CodeIs(EXTRA_DBITS, 10, 29, 6);
    CodeIs(EXTRA_DBITS, 13, 29, 7);
    CodeIs(EXTRA_LBITS, 0, 27, 0);
  }

  lemma DistanceBases()
    ensures |EXTRA_DBITS| == 30 && |EXTRA_LBITS| == 29 && EXTRA_LBITS[0] == 0 && Base(EXTRA_LBITS, 0) == 0 && Base(EXTRA_LBITS, 1) == 1
    ensures Base(EXTRA_DBITS, 4) == 4 && Base(EXTRA_DBITS, 5) == 6 && Base(EXTRA_DBITS, 6) == 8 && Base(EXTRA_DBITS, 7) == 12 && Base(EXTRA_DBITS, 8) == 16
    ensures EXTRA_DBITS[4] == EXTRA_DBITS[5] == 1 && EXTRA_DBITS[6] == EXTRA_DBITS[7] == 2
  {
    Pow2Values();
    assert Base(EXTRA_DBITS, 2) == 2;
  }

  lemma TokenIs(t: Token)
    requires TokKnown(t)
    ensures t.Valid() && Used(Lens(LitRuns()), LitSym(t)) && (t.Match? ==> Used(Lens(DistRuns()), DistCode(t.dist - 1)))
    ensures var b := TokenBits(Lens(LitRuns()), Lens(DistRuns()), t); |b| == TokWidth(t) && Lsb(b) == TokValue(t)
  {
    hide Lens, Code, Used, ToBits, Lsb, LenExtra, DistExtra, DistCode, LenCode;
    LitCodes();
    DistCodes();
    Distances();
    Pow2Values();
    hide Pow2;
    match t {
      case Lit(b) => TwoParts(if b == 99 then 0 else if b == 101 then 2 else 1, 2, 0, 0);
      case Match(_, d) =>
        if d == 6 {
          ThreeParts(7, 0, 1, 1);
        } else if d == 7 {
          ThreeParts(7, 2, 0, 1);
        } else if d == 11 {
          ThreeParts(7, 1, 2, 2);
        } else {
          ThreeParts(7, 3, 1, 2);
        }
    }
  }

  lemma ThreeParts(x: nat, y: nat, z: nat, n: nat)
    requires x < 8 && y < 4 && z < Pow2(n)
    ensures Lsb(ToBits(x, 3) + [] + ToBits(y, 2) + ToBits(z, n)) == x + 8 * (y + 4 * z)
  {
    Pow2Values();
    hide ToBits, Lsb, Pow2;
    var a, b, c := ToBits(x, 3), ToBits(y, 2), ToBits(z, n);
    TwoParts(y, 2, z, n);
    TwoParts(x, 3, 0, 0);
    assert a + [] + b + c == a + (b + c);
    LsbConcat(a, b + c);
  }

  predicate AllTokKnown(l: List<Token>) {
    l.Cons? ==> TokKnown(l.head) && AllTokKnown(l.tail)
  }

  function TokTotal(l: List<Token>): nat {
    match l
    case Nil => 0
    case Cons(t, rest) => TokWidth(t) + TokTotal(rest)
  }

  function TokSum(l: List<Token>): nat
    requires AllTokKnown(l)
  {
    match l
    case Nil => 0
    case Cons(t, rest) => TokValue(t) + Pow2(TokWidth(t)) * TokSum(rest)
  }

  lemma {:induction false} DataConcat(lit: seq<nat>, dist: seq<nat>, a: seq<Token>, b: seq<Token>)
    requires AllValid(a) && AllValid(b)
    ensures AllValid(a + b) && DataBits(lit, dist, a + b) == DataBits(lit, dist, a) + DataBits(lit, dist, b)
  {
    hide TokenBits;
    if b == [] {
      assert a + b == a;
    } else {
      DataConcat(lit, dist, a, b[..|b| - 1]);
      assert (a + b)[..|a + b| - 1] == a + b[..|b| - 1];
    }
  }

  lemma {:induction false} TokSumIs(l: List<Token>)
    requires AllTokKnown(l)
    ensures AllValid(Items(l)) && Matched(Items(l))
    ensures var b := DataBits(Lens(LitRuns()), Lens(DistRuns()), Items(l)); |b| == TokTotal(l) && Lsb(b) == TokSum(l)
  {
    hide TokenBits, Lens, LitRuns, DistRuns, Used, Token.Valid, TokWidth, TokValue, Lsb, Pow2, LitSym, DistCode;
    if l.Cons? {
      var lit, dist := Lens(LitRuns()), Lens(DistRuns());
      TokSumIs(l.tail);
      TokenIs(l.head);
      DataOne(lit, dist, l.head);
      DataConcat(lit, dist, [l.head], Items(l.tail));
      LsbConcat(TokenBits(lit, dist, l.head), DataBits(lit, dist, Items(l.tail)));
    } else {
      LsbNone();
    }
  }

  /** Every symbol has a code. */
  ghost predicate Matched(toks: seq<Token>)
    requires AllValid(toks)
  {
    forall i :: 0 <= i < |toks| ==>
      Used(Lens(LitRuns()), LitSym(toks[i])) && (toks[i].Match? ==> Used(Lens(DistRuns()), DistCode(toks[i].dist - 1)))
  }

  lemma DataOne(lit: seq<nat>, dist: seq<nat>, t: Token)
    requires t.Valid()
    ensures AllValid([t]) && DataBits(lit, dist, [t]) == TokenBits(lit, dist, t)
  {
    hide TokenBits, Token.Valid;
    assert [t][..0] == [];
  }

  function Part1(): List<Token> {
    Cons(Lit(99), Cons(Lit(101), Cons(Lit(122), Cons(Lit(99), Cons(Lit(122), Cons(Lit(122), Cons(Lit(122), Nil)))))))
  }

  lemma Part1Value()
    ensures AllTokKnown(Part1()) && TokTotal(Part1()) == 14 && TokSum(Part1()) == 0x1518
  {
  }

  function Part2(): List<Token> {
    Cons(Lit(101), Cons(Lit(99), Cons(Match(3, 6), Cons(Lit(99), Cons(Match(3, 7), Cons(Lit(122), Cons(Lit(99), Nil)))))))
  }

  lemma Part2Value()
    ensures AllTokKnown(Part2()) && TokTotal(Part2()) == 22 && TokSum(Part2()) == 0x57272
  {
  }

  function Part3(): List<Token> {
    Cons(Match(3, 11), Cons(Lit(101), Cons(Lit(122), Cons(Lit(101), Cons(Match(3, 14), Cons(Lit(101), Cons(Lit(101), Nil)))))))
  }

  lemma Part3Value()
    ensures AllTokKnown(Part3()) && TokTotal(Part3()) == 24 && TokSum(Part3()) == 0xa7f34f
  {
  }

  // what its data stands for

  lemma TextIs()
    ensures |TEXT| == 29 && Matching.Bytes(TEXT)
    ensures TEXT[0] == 99 && TEXT[1] == 101 && TEXT[2] == 122 && TEXT[3] == 99 && TEXT[4] == 122 && TEXT[5] == 122
    ensures TEXT[6] == 122 && TEXT[7] == 101 && TEXT[8] == 99 && TEXT[9] == 99 && TEXT[10] == 122 && TEXT[11] == 122
    ensures TEXT[12] == 99 && TEXT[13] == 122 && TEXT[14] == 101 && TEXT[15] == 99 && TEXT[16] == 122 && TEXT[17] == 99
    ensures TEXT[18] == 101 && TEXT[19] == 99 && TEXT[20] == 99 && TEXT[21] == 101 && TEXT[22] == 122 && TEXT[23] == 101
    ensures TEXT[24] == 122 && TEXT[25] == 122 && TEXT[26] == 99 && TEXT[27] == 101 && TEXT[28] == 101
  {
  }

  function TokBytes(l: List<Token>): nat {
    match l
    case Nil => 0
    case Cons(t, rest) => (if t.Lit? then 1 else 3) + TokBytes(rest)
  }

  /** From byte at on, the tokens yield the text. */
  predicate Plays(l: List<Token>, at: nat) {
    match l
    case Nil => at <= |TEXT|
    case Cons(t, rest) =>
      match t
      case Lit(b) => at < |TEXT| && TEXT[at] == b && Plays(rest, at + 1)
      case Match(len, d) =>
        && len == 3 && 1 <= d <= at && at + 3 <= |TEXT| && d <= 32768
        && TEXT[at] == TEXT[at - d] && TEXT[at + 1] == TEXT[at - d + 1] && TEXT[at + 2] == TEXT[at - d + 2] && Plays(rest, at + 3)
  }

  lemma {:induction false} PlaysIs(l: List<Token>, at: nat)
    requires Plays(l, at) && Matching.Bytes(TEXT)
    ensures at + TokBytes(l) <= |TEXT| && Replay(TEXT[..at], Items(l)) == Replayed(TEXT[..at + TokBytes(l)])
  {
    hide TEXT, Replay, Follows, ReplayOne;
    match l {
      case Nil => ReplayNone(TEXT[..at]);
      case Cons(t, rest) =>
        var next := at + if t.Lit? then 1 else 3;
        PlaysIs(rest, next);
        PlaysOne(t, at);
        ReplayConcat(TEXT[..at], [t], Items(rest));
        ReplaySingle(TEXT[..at], t);
    }
  }

  lemma PlaysOne(t: Token, at: nat)
    requires Matching.Bytes(TEXT) && at < |TEXT|
    requires t.Lit? ==> TEXT[at] == t.b
    requires t.Match? ==> t.len == 3 && 1 <= t.dist <= at && at + 3 <= |TEXT| && t.dist <= 32768
    requires t.Match? ==> TEXT[at] == TEXT[at - t.dist] && TEXT[at + 1] == TEXT[at - t.dist + 1] && TEXT[at + 2] == TEXT[at - t.dist + 2]
    ensures var next := at + if t.Lit? then 1 else 3;
      next <= |TEXT| && Follows(TEXT[..at], t) && ReplayOne(TEXT[..at], t) == TEXT[..next]
  {
    hide TEXT;
    match t {
      case Lit(b) => Matching.LitCovers(TEXT, at);
      case Match(_, d) =>
        assert TEXT[at - d..at - d + 3] == TEXT[at..at + 3];
        Matching.MatchCovers(TEXT, at, d, 3);
    }
  }

  lemma ReplayNone(out: seq<nat>)
    ensures Replay(out, []) == Replayed(out)
  {
  }

  lemma ReplaySingle(out: seq<nat>, t: Token)
    requires Follows(out, t)
    ensures Replay(out, [t]) == Replayed(ReplayOne(out, t))
  {
    assert [t][..0] == [];
  }

  /** All the tokens. */
  function AllTokens(): seq<Token> {
    Items(Part1()) + Items(Part2()) + Items(Part3())
  }

  lemma PartsPlay()
    ensures Plays(Part1(), 0) && TokBytes(Part1()) == 7 && Plays(Part2(), 7) && TokBytes(Part2()) == 11
  {
    TextIs();
    hide TEXT;
  }

  lemma LastPlays()
    ensures Plays(Part3(), 18) && TokBytes(Part3()) == 11
  {
    TextIs();
    hide TEXT;
  }

  lemma TextReplayed()
    ensures Replay([], AllTokens()) == Replayed(TEXT)
  {
    TextIs();
    hide TEXT, Plays, Replay, TokBytes, Items, Part1, Part2, Part3;
    PartsPlay();
    LastPlays();
    PlaysIs(Part1(), 0);
    PlaysIs(Part2(), 7);
    PlaysIs(Part3(), 18);
    assert TEXT[..0] == [] && TEXT[..29] == TEXT;
    ReplayConcat([], Items(Part1()), Items(Part2()));
    ReplayConcat([], Items(Part1()) + Items(Part2()), Items(Part3()));
  }

  // its code lengths

  lemma SpreadOne(acc: seq<nat>, t: ClToken, rest: List<ClToken>, next: seq<nat>)
    requires ExpandOne(acc, t) == Lengths(next)
    ensures Expand(acc, Items(Cons(t, rest))) == Expand(next, Items(rest))
  {
    hide Expand, ExpandOne;
    ExpandConcat(acc, [t], Items(rest));
    ExpandSingle(acc, t);
  }

  /** The first nine tokens are the literal and length code, the last three the distance code. */
  lemma Spread()
    ensures Expand([], Items(ClTokens())) == Lengths(Lens(LitRuns()) + Lens(DistRuns()))
  {
    hide Expand, Lens, Items;
    SpreadLits(ClTokens().tail.tail.tail.tail.tail.tail.tail.tail.tail);
    SpreadDists(Lens(LitRuns()));
  }

  lemma SpreadLits(rest: List<ClToken>)
    ensures Expand([], Items(Cons(Zeros11(99), Cons(Len(2), Cons(Len(0), Cons(Len(2), Cons(Zeros11(20), Cons(Len(2), Cons(Zeros11(133), Cons(Len(3), Cons(Len(3), rest))))))))))) == Expand(Lens(LitRuns()), Items(rest))
  {
    hide Expand, Lens, Items, Repeat;
    var a1 := Repeat(0, 99);
    var a2, a3, a4 := a1 + [2], a1 + [2] + [0], a1 + [2] + [0] + [2];
    var a5 := a4 + Repeat(0, 20);
    var a6 := a5 + [2];
    var a7 := a6 + Repeat(0, 133);
    var a8, a9 := a7 + [3], a7 + [3] + [3];
    assert [] + a1 == a1;
    SpreadOne(a8, Len(3), rest, a9);
    SpreadOne(a7, Len(3), Cons(Len(3), rest), a8);
    SpreadOne(a6, Zeros11(133), Cons(Len(3), Cons(Len(3), rest)), a7);
    SpreadOne(a5, Len(2), Cons(Zeros11(133), Cons(Len(3), Cons(Len(3), rest))), a6);
    SpreadOne(a4, Zeros11(20), Cons(Len(2), Cons(Zeros11(133), Cons(Len(3), Cons(Len(3), rest)))), a5);
    SpreadOne(a3, Len(2), Cons(Zeros11(20), Cons(Len(2), Cons(Zeros11(133), Cons(Len(3), Cons(Len(3), rest))))), a4);
    SpreadOne(a2, Len(0), Cons(Len(2), Cons(Zeros11(20), Cons(Len(2), Cons(Zeros11(133), Cons(Len(3), Cons(Len(3), rest)))))), a3);
    SpreadOne(a1, Len(2), Cons(Len(0), Cons(Len(2), Cons(Zeros11(20), Cons(Len(2), Cons(Zeros11(133), Cons(Len(3), Cons(Len(3), rest))))))), a2);
    SpreadOne([], Zeros11(99), Cons(Len(2), Cons(Len(0), Cons(Len(2), Cons(Zeros11(20), Cons(Len(2), Cons(Zeros11(133), Cons(Len(3), Cons(Len(3), rest)))))))), a1);
    LitsAre(a9);
  }

  lemma LitsAre(a9: seq<nat>)
    requires a9 == Repeat(0, 99) + [2] + [0] + [2] + Repeat(0, 20) + [2] + Repeat(0, 133) + [3] + [3]
    ensures a9 == Lens(LitRuns())
  {
    hide Repeat;
    RepeatFew();
    LensLits();
    assert a9 == Repeat(0, 99) + ([2] + ([0] + ([2] + (Repeat(0, 20) + ([2] + (Repeat(0, 133) + ([3] + [3])))))));
  }

  lemma RepeatFew()
    ensures Repeat(0, 0) == [] && Repeat(0, 1) == [0] && Repeat(2, 3) == [2] + [2] + [2]
  {
  }

  lemma LensLits()
    ensures Lens(LitRuns()) == Repeat(0, 99) + [2] + (Repeat(0, 1) + [2] + (Repeat(0, 20) + [2] + (Repeat(0, 133) + [3] + (Repeat(0, 0) + [3] + []))))
  {
    hide Repeat;
  }

  lemma LensDists()
    ensures Lens(DistRuns()) == Repeat(0, 4) + [2] + (Repeat(0, 0) + [2] + (Repeat(0, 0) + [2] + (Repeat(0, 0) + [2] + [])))
  {
    hide Repeat;
  }

  lemma SpreadDists(acc: seq<nat>)
    ensures Expand(acc, Items(Cons(Zeros3(4), Cons(Len(2), Cons(Rep(3), Nil))))) == Lengths(acc + Lens(DistRuns()))
  {
    hide Expand, Lens, Items, Repeat;
    var a1 := acc + Repeat(0, 4);
    var a2 := a1 + [2];
    var a3 := a2 + Repeat(2, 3);
    SpreadOne(a2, Rep(3), Nil, a3);
    SpreadOne(a1, Len(2), Cons(Rep(3), Nil), a2);
    SpreadOne(acc, Zeros3(4), Cons(Len(2), Cons(Rep(3), Nil)), a1);
    ExpandNothing(a3);
    RepeatFew();
    LensDists();
    assert a3 == acc + (Repeat(0, 4) + [2] + ([2] + ([2] + [2])));
  }

  lemma ExpandNothing(acc: seq<nat>)
    ensures Items<ClToken>(Nil) == [] && Expand(acc, []) == Lengths(acc)
  {
  }

  /** One more code-length code length, that of symbol s. */
  lemma ClNext(n: nat, s: nat, x: nat, v: nat, w: nat)
    requires n < 19 && s == (if n < 3 then 16 + n else if n == 3 then 0 else if n % 2 == 0 then 8 + (n - 4) / 2 else 8 - (n - 3) / 2)
    requires LenAt(BlRuns(), s) == x < 8 && w == if x == 0 then v else v + Pow2(3 * n) * x
    requires BL_CODES == 19 && Lsb(ClLens(Lens(BlRuns()), n)) == v
    ensures Lsb(ClLens(Lens(BlRuns()), n + 1)) == w
  {
    hide *;
    OrderOutwards(n);
    BlTable();
    LensAre(BlRuns(), s, 1);
    Pow2Values();
    ClLensSnoc(Lens(BlRuns()), n, s, x);
    LsbConcat(ClLens(Lens(BlRuns()), n), ToBits(x, 3));
    LsbToBits(x, 3);
    LowSmall(x, 3);
  }

  lemma ClLensSnoc(bl: seq<nat>, n: nat, s: nat, x: nat)
    requires n < |BL_ORDER| && n < BL_CODES && BL_ORDER[n] == s < |bl| && bl[s] == x
    ensures ClLens(bl, n + 1) == ClLens(bl, n) + ToBits(x, 3)
  {
    hide ToBits;
  }

  lemma BlAll()
    ensures LenAt(BlRuns(), 0) == 3 && LenAt(BlRuns(), 1) == 0 && LenAt(BlRuns(), 2) == 2 && LenAt(BlRuns(), 3) == 3 && LenAt(BlRuns(), 4) == 0 && LenAt(BlRuns(), 5) == 0 && LenAt(BlRuns(), 6) == 0
    ensures LenAt(BlRuns(), 7) == 0 && LenAt(BlRuns(), 8) == 0 && LenAt(BlRuns(), 9) == 0 && LenAt(BlRuns(), 10) == 0 && LenAt(BlRuns(), 11) == 0 && LenAt(BlRuns(), 12) == 0
    ensures LenAt(BlRuns(), 13) == 0 && LenAt(BlRuns(), 14) == 0 && LenAt(BlRuns(), 15) == 0 && LenAt(BlRuns(), 16) == 3 && LenAt(BlRuns(), 17) == 3 && LenAt(BlRuns(), 18) == 2
  {
  }

  lemma Powers()
    ensures Pow2(0) == 0x1 && Pow2(3) == 0x8 && Pow2(6) == 0x40 && Pow2(9) == 0x200
    ensures Pow2(39) == 0x8000000000 && Pow2(45) == 0x200000000000
    ensures Pow2(55) == 0x80000000000000 && Pow2(65) == 0x20000000000000000 && Pow2(60) == 0x1000000000000000 && Pow2(16) == 0x10000 && Pow2(17) == 0x20000
  {
    Pow2Values();
    Pow2Add(15, 15);
    Pow2Add(30, 9);
    Pow2Add(30, 15);
    Pow2Add(45, 10);
    Pow2Add(45, 15);
    Pow2Add(55, 10);
    Pow2Add(15, 1);
    Pow2Add(15, 2);
    hide Pow2;
  }

  lemma ClLensValue()
    ensures BL_CODES == 19 && Lsb(ClLens(Lens(BlRuns()), 16)) == 0x41800000069b
  {
    hide *;
    NoClLens();
    BlAll();
    Powers();
    ClNext(0, 16, 3, 0x0, 0x3);
    ClNext(1, 17, 3, 0x3, 0x1b);
    ClNext(2, 18, 2, 0x1b, 0x9b);
    ClNext(3, 0, 3, 0x9b, 0x69b);
    ClNext(4, 8, 0, 0x69b, 0x69b);
    ClNext(5, 7, 0, 0x69b, 0x69b);
    ClNext(6, 9, 0, 0x69b, 0x69b);
    ClNext(7, 6, 0, 0x69b, 0x69b);
    ClNext(8, 10, 0, 0x69b, 0x69b);
    ClNext(9, 5, 0, 0x69b, 0x69b);
    ClNext(10, 11, 0, 0x69b, 0x69b);
    ClNext(11, 4, 0, 0x69b, 0x69b);
    ClNext(12, 12, 0, 0x69b, 0x69b);
    ClNext(13, 3, 3, 0x69b, 0x1800000069b);
    ClNext(14, 13, 0, 0x1800000069b, 0x1800000069b);
    ClNext(15, 2, 2, 0x1800000069b, 0x41800000069b);
  }

  lemma NoClLens()
    ensures BL_CODES == 19 && Lsb(ClLens(Lens(BlRuns()), 0)) == 0
  {
  }

  // ---- all of it ----

  function FirstBytes(): List<nat> {
    Cons(0x0d, Cons(0x87, Cons(0x37, Cons(0x0d, Cons(0x00, Cons(0x00, Cons(0x00, Cons(0x83, Nil))))))))
  }

  function MiddleBytes(): List<nat> {
    Cons(0xc4, Cons(0x12, Cons(0x4c, Cons(0xa0, Cons(0xbe, Cons(0x7d, Cons(0x18, Cons(0x18, Nil))))))))
  }

  function LastBytes(): List<nat> {
    Cons(0x95, Cons(0x9c, Cons(0x5c, Cons(0xf1, Cons(0x34, Cons(0x7f, Cons(0x3a, Nil)))))))
  }

  /** What zlib makes of TEXT. */
  function Stream(): seq<nat> {
    Items(FirstBytes()) + Items(MiddleBytes()) + Items(LastBytes())
  }

  predicate AllBytes(l: List<nat>) {
    l.Cons? ==> l.head < 256 && AllBytes(l.tail)
  }

  function BytesSum(l: List<nat>): nat {
    match l
    case Nil => 0
    case Cons(b, rest) => b + 256 * BytesSum(rest)
  }

  function Length<T>(l: List<T>): nat {
    match l
    case Nil => 0
    case Cons(_, rest) => 1 + Length(rest)
  }

  lemma {:induction false} BytesSumIs(l: List<nat>)
    requires AllBytes(l)
    ensures Lsb(ByteBits(Items(l))) == BytesSum(l) && |Items(l)| == Length(l) && Matching.Bytes(Items(l))
  {
    hide Lsb, ToBits, ByteBits;
    if l.Cons? {
      BytesSumIs(l.tail);
      ByteBitsConcat([l.head], Items(l.tail));
      OneByte(l.head);
      LsbConcat(ToBits(l.head, 8), ByteBits(Items(l.tail)));
      LsbToBits(l.head, 8);
      Pow2Values();
      LowSmall(l.head, 8);
    } else {
      LsbNone();
      NoBytes();
    }
  }

  lemma OneByte(b: nat)
    ensures ByteBits([b]) == ToBits(b, 8)
  {
    hide ToBits;
    assert [b][..0] == [];
  }

  lemma NoBytes()
    ensures ByteBits([]) == []
  {
  }

  lemma FirstValue()
    ensures AllBytes(FirstBytes()) && Length(FirstBytes()) == 8 && BytesSum(FirstBytes()) == 0x830000000d37870d
  {
  }

  lemma MiddleValue()
    ensures AllBytes(MiddleBytes()) && Length(MiddleBytes()) == 8 && BytesSum(MiddleBytes()) == 0x18187dbea04c12c4
  {
  }

  lemma LastValue()
    ensures AllBytes(LastBytes()) && Length(LastBytes()) == 7 && BytesSum(LastBytes()) == 0x3a7f34f15c9c95
  {
  }

  lemma StreamValue()
    ensures |ByteBits(Stream())| == 184 && Lsb(ByteBits(Stream())) == 0x3a7f34f15c9c9518187dbea04c12c4830000000d37870d
  {
    hide *;
    FirstValue();
    MiddleValue();
    LastValue();
    BytesSumIs(FirstBytes());
    BytesSumIs(MiddleBytes());
    BytesSumIs(LastBytes());
    StreamIs();
    var a, b, c := Items(FirstBytes()), Items(MiddleBytes()), Items(LastBytes());
    ByteBitsConcat(a, b);
    ByteBitsConcat(a + b, c);
    LsbConcat(ByteBits(a), ByteBits(b));
    LsbConcat(ByteBits(a + b), ByteBits(c));
    BytePowers();
  }

  lemma BytePowers()
    ensures Pow2(64) == 0x10000000000000000 && Pow2(128) == 0x100000000000000000000000000000000
  {
    Pow2Values();
    Pow2Add(15, 15);
    Pow2Add(30, 15);
    Pow2Add(45, 15);
    Pow2Add(60, 4);
    Pow2Add(64, 64);
    hide Pow2;
  }

  lemma StreamIs()
    ensures Stream() == Items(FirstBytes()) + Items(MiddleBytes()) + Items(LastBytes())
  {
    hide Items;
  }

  function Head(): seq<bool>
    requires BL_CODES == 19
  {
    TypeBits(2, true) + (ToBits(1, 5) + ToBits(7, 5) + ToBits(12, 4)) + ClLens(Lens(BlRuns()), 16)
  }

  function Tail(): seq<bool>
    requires AllValid(AllTokens())
  {
    DataBits(Lens(LitRuns()), Lens(DistRuns()), AllTokens()) + SymBits(Lens(LitRuns()), END_BLOCK)
  }

  lemma HeadValue()
    ensures BL_CODES == 19 && |Head()| == 65 && Lsb(Head()) == 0x830000000d37870d
  {
    hide Lsb, ToBits, ClLens, Lens;
    ClLensValue();
    Powers();
    Pow2Values();
    hide Pow2;
    var t, a, b, c, d := TypeBits(2, true), ToBits(1, 5), ToBits(7, 5), ToBits(12, 4), ClLens(Lens(BlRuns()), 16);
    TwoParts(1, 5, 7, 5);
    TwoParts(12, 4, 0, 0);
    TwoParts(5, 3, 0, 0);
    LsbConcat(a + b, c);
    LsbConcat(t, a + b + c);
    LsbConcat(t + (a + b + c), d);
  }

  lemma TailValue()
    ensures AllValid(AllTokens()) && Matched(AllTokens()) && |Tail()| == 63 && Lsb(Tail()) == 0x3a7f34f15c9c9518
  {
    hide *;
    PartsMatch();
    LitCodes();
    EndIs();
    Powers();
    TailIs();
    TwoParts(3, 3, 0, 0);
    Pow2Values();
    LsbConcat(DataBits(Lens(LitRuns()), Lens(DistRuns()), AllTokens()), ToBits(3, 3));
  }

  lemma EndIs()
    ensures END_BLOCK == 256 && (Used(Lens(LitRuns()), 256) ==> SymBits(Lens(LitRuns()), END_BLOCK) == Code(Lens(LitRuns()), 256))
  {
    hide Code, Lens, Used;
  }

  lemma TailIs()
    requires AllValid(AllTokens())
    ensures Tail() == DataBits(Lens(LitRuns()), Lens(DistRuns()), AllTokens()) + SymBits(Lens(LitRuns()), END_BLOCK)
  {
    hide DataBits, SymBits;
  }

  lemma PartsMatch()
    ensures AllValid(AllTokens()) && Matched(AllTokens())
    ensures var b := DataBits(Lens(LitRuns()), Lens(DistRuns()), AllTokens()); |b| == 60 && Lsb(b) == 0xa7f34f15c9c9518
  {
    hide *;
    var lit, dist := Lens(LitRuns()), Lens(DistRuns());
    var a, b, c := Items(Part1()), Items(Part2()), Items(Part3());
    Part1Value();
    Part2Value();
    Part3Value();
    TokSumIs(Part1());
    TokSumIs(Part2());
    TokSumIs(Part3());
    DataConcat(lit, dist, a, b);
    DataConcat(lit, dist, a + b, c);
    LsbConcat(DataBits(lit, dist, a), DataBits(lit, dist, b));
    LsbConcat(DataBits(lit, dist, a + b), DataBits(lit, dist, c));
    PartPowers();
    AllTokensAre();
    MatchedBoth(a, b);
    MatchedBoth(a + b, c);
  }

  lemma AllTokensAre()
    ensures AllTokens() == Items(Part1()) + Items(Part2()) + Items(Part3())
  {
    hide Items;
  }

  lemma MatchedBoth(a: seq<Token>, b: seq<Token>)
    requires AllValid(a) && AllValid(b) && AllValid(a + b) && Matched(a) && Matched(b)
    ensures Matched(a + b)
  {
    hide Used, Lens, LitSym, DistCode, Token.Valid;
  }

  lemma PartPowers()
    ensures Pow2(14) == 0x4000 && Pow2(36) == 0x1000000000
  {
    Pow2Values();
    Pow2Add(15, 15);
    Pow2Add(30, 6);
    hide Pow2;
  }

  /** The bytes are the bits of the block and one bit of padding. */
  lemma StreamBits()
    ensures BL_CODES == 19 && AllValid(AllTokens()) && |ClBits(Lens(BlRuns()), Items(ClTokens()))| == 55 && |Head()| == 65 && |Tail()| == 63
    ensures ByteBits(Stream()) == Head() + ClBits(Lens(BlRuns()), Items(ClTokens())) + Tail() + ToBits(0, 1)
  {
    hide *;
    HeadValue();
    TailValue();
    ClSumValue();
    ClTotalValue();
    ClSumIs(ClTokens());
    StreamValue();
    Powers();
    PowerLast();
    var a, b, c, d := Head(), ClBits(Lens(BlRuns()), Items(ClTokens())), Tail(), ToBits(0, 1);
    TwoParts(0, 1, 0, 0);
    LsbConcat(a, b);
    LsbConcat(a + b, c);
    LsbConcat(a + b + c, d);
    LsbInjective(ByteBits(Stream()), a + b + c + d);
  }

  lemma PowerLast()
    ensures Pow2(120) == 0x1000000000000000000000000000000 && Pow2(183) == 0x8000000000000000000000000000000000000000000000 && Pow2(0) == 1 && Pow2(1) == 2
  {
    Pow2Values();
    Powers();
    Pow2Add(55, 65);
    Pow2Add(120, 60);
    Pow2Add(180, 3);
    hide Pow2;
  }

  /** What comes before the end of the stream is there at its position. */
  lemma StreamAt()
    ensures BL_CODES == 19 && AllValid(AllTokens())
    ensures At(ByteBits(Stream()), 0, TypeBits(2, true)) && At(ByteBits(Stream()), 3, ToBits(1, 5) + ToBits(7, 5) + ToBits(12, 4))
    ensures At(ByteBits(Stream()), 17, ClLens(Lens(BlRuns()), 16))
    ensures At(ByteBits(Stream()), 65, ClBits(Lens(BlRuns()), Items(ClTokens()))) && |ClBits(Lens(BlRuns()), Items(ClTokens()))| == 55
    ensures At(ByteBits(Stream()), 120, Tail()) && |Tail()| == 63 && |ByteBits(Stream())| == 184
  {
    hide *;
    StreamBits();
    HeadIs();
    var input := ByteBits(Stream());
    var a, b, c, d := Head(), ClBits(Lens(BlRuns()), Items(ClTokens())), Tail(), ToBits(0, 1);
    StartsAt(a + b + c + d);
    AtParts(input, 0, a + b + c, d);
    AtParts(input, 0, a + b, c);
    AtParts(input, 0, a, b);
    var t, n, l := TypeBits(2, true), ToBits(1, 5) + ToBits(7, 5) + ToBits(12, 4), ClLens(Lens(BlRuns()), 16);
    AtParts(input, 0, t + n, l);
    AtParts(input, 0, t, n);
  }

  lemma StartsAt(input: seq<bool>)
    ensures At(input, 0, input)
  {
    assert input[0..] == input;
  }

  lemma HeadIs()
    requires BL_CODES == 19
    ensures Head() == TypeBits(2, true) + (ToBits(1, 5) + ToBits(7, 5) + ToBits(12, 4)) + ClLens(Lens(BlRuns()), 16)
  {
    hide ToBits, ClLens, Lens, TypeBits;
  }

  lemma {:induction false} CoversMatched(toks: seq<Token>)
    requires AllValid(toks) && Matched(toks) && Used(Lens(LitRuns()), 256)
    ensures Covers(LitFreqs(toks), Lens(LitRuns())) && Covers(DistFreqs(toks), Lens(DistRuns()))
  {
    hide Used, Lens, LitSym, DistCode, Token.Valid;
    if toks != [] {
      var init := toks[..|toks| - 1];
      assert forall i :: 0 <= i < |init| ==> init[i] == toks[i];
      CoversMatched(init);
    }
  }

  /** The dynamic block leads to the end of the stream, with the text as its output. */
  lemma StreamLeads()
    ensures Leads(ByteBits(Stream()), START, Config(Done, 184, TEXT))
  {
    hide *;
    var input, lit, dist, bl := ByteBits(Stream()), Lens(LitRuns()), Lens(DistRuns()), Lens(BlRuns());
    StreamAt();
    Sizes();
    LitCodes();
    DistCodes();
    BlCodes();
    var c0 := Config(Block(false), 0, []);
    var c1, c2 := Config(Table(true), 3, []), Config(CodeLens(true, 258, 8, Padded(bl), []), 65, []);
    var c3, c4 := Config(LenSym(true, Codes(lit, dist)), 120, []), Config(Block(true), 183, TEXT);
    TypeMove(input, 2, true, 0, []);
    LeadsSelf(input, c0);
    LeadsMove(input, c0, c0, c1);
    BlSmall();
    CountsLead(input, true, 258, 8, 16, bl, 3, []);
    LeadsOn(input, c0, c1, c2);
    LengthsGiven(input);
    LeadsOn(input, c0, c2, c3);
    PartsMatch();
    CoversMatched(AllTokens());
    TextReplayed();
    TailIs();
    CodedLeads(input, true, Codes(lit, dist), AllTokens(), 120, []);
    LeadsOn(input, c0, c3, c4);
    LastMove(input, 183, TEXT);
    LeadsMove(input, c0, c4, Config(Done, 184, TEXT));
    StartIs();
  }

  lemma StartIs()
    ensures START == Config(Block(false), 0, [])
  {
  }

  lemma Sizes()
    ensures BL_CODES == 19 == |BL_ORDER| && UNIT == 32768 && END_BLOCK == 256
  {
  }

  lemma LastMove(input: seq<bool>, pos: nat, out: seq<nat>)
    requires pos + Pad(pos) <= |input|
    ensures Move(input, Config(Block(true), pos, out)) == Moved(Config(Done, pos + Pad(pos), out))
  {
    assert out + [] == out;
  }

  /** The lengths that are not sent are zero. */
  lemma BlSmall()
    ensures forall n :: 0 <= n < |Lens(BlRuns())| ==> Lens(BlRuns())[n] <= 7
    ensures |BL_ORDER| == BL_CODES == 19 && forall r :: 16 <= r < 19 ==> LenOrZero(Lens(BlRuns()), BL_ORDER[r]) == 0
  {
    hide Lens, BlRuns, TwoOrThree, Size, LenAt, Before, Count;
    BlTable();
    BlAll();
    LensAre(BlRuns(), 0, 1);
    forall n | 0 <= n < |Lens(BlRuns())|
      ensures Lens(BlRuns())[n] <= 7
    {
      LensAre(BlRuns(), n, 1);
      SmallLen(BlRuns(), n);
    }
    LensAre(BlRuns(), 14, 1);
    LensAre(BlRuns(), 1, 1);
    LensAre(BlRuns(), 15, 1);
    OrderOutwards(16);
    OrderOutwards(17);
    OrderOutwards(18);
  }

  lemma {:induction false} SmallLen(r: List<(nat, nat)>, n: nat)
    requires TwoOrThree(r)
    ensures LenAt(r, n) <= 3
  {
    if r.Cons? && n > r.head.0 { SmallLen(r.tail, n - r.head.0 - 1); }
  }

  lemma LengthsGiven(input: seq<bool>)
    requires At(input, 65, ClBits(Lens(BlRuns()), Items(ClTokens()))) && |ClBits(Lens(BlRuns()), Items(ClTokens()))| == 55
    ensures Leads(input, Config(CodeLens(true, 258, 8, Padded(Lens(BlRuns())), []), 65, []),
                  Config(LenSym(true, Codes(Lens(LitRuns()), Lens(DistRuns()))), 120, []))
  {
    hide *;
    var lit, dist, bl := Lens(LitRuns()), Lens(DistRuns()), Lens(BlRuns());
    Sizes();
    LitCodes();
    DistCodes();
    BlCodes();
    UsedNonzero(lit, 256);
    EnoughEntries.LensFit(lit);
    EnoughEntries.DistsFit(dist);
    Spread();
    ClSumValue();
    ClSumIs(ClTokens());
    LengthsLead(input, true, lit, dist, bl, Items(ClTokens()), 65, []);
  }

  lemma UsedNonzero(lens: seq<nat>, n: nat)
    requires Used(lens, n)
    ensures n < |lens| && lens[n] != 0
  {
  }

  /** However these bytes have been cut into calls, inflate ends with the text. */
  lemma DynamicBlock(s: State)
    requires Ended(s, Stream())
    ensures s.mode == DONE && s.past == TEXT
  {
    hide *;
    StreamLeads();
    ReadsAs(s, Stream(), 184, TEXT);
  }

  /** One call is enough. */
  method InflateText() returns (text: seq<nat>)
    ensures text == TEXT
  {
    hide *;
    var s := new State();
    HeldBits.StartsBetween(s);
    StreamSmall();
    var ret, unused, output := InflateCall(s, Stream(), 30, false);
    assert s.fed + unused == Stream();
    TextOnly(s);
    if ret == STREAM_END || ret == DATA_ERROR {
      EndedNow(s, Stream());
    } else {
      HeldBits.EndedAt(s, Stream());
    }
    DynamicBlock(s);
    text := output;
  }

  lemma StreamSmall()
    ensures forall i :: 0 <= i < |Stream()| ==> Stream()[i] < 256
  {
    hide *;
    FirstValue();
    MiddleValue();
    LastValue();
    BytesSumIs(FirstBytes());
    BytesSumIs(MiddleBytes());
    BytesSumIs(LastBytes());
    StreamIs();
    SmallJoin(Items(FirstBytes()), Items(MiddleBytes()), Items(LastBytes()));
  }

  lemma SmallJoin(a: seq<nat>, b: seq<nat>, c: seq<nat>)
    requires Matching.Bytes(a) && Matching.Bytes(b) && Matching.Bytes(c)
    ensures forall i :: 0 <= i < |a + b + c| ==> (a + b + c)[i] < 256
  {
  }

  lemma TextOnly(s: State)
    requires Between(s) && s.fed <= Stream()
    ensures |s.past| <= 29
  {
    hide *;
    StreamLeads();
    BetweenReached(s, Stream());
    TextIs();
    LastStops(ByteBits(Stream()));
    var d := Config(Done, 184, TEXT);
    EndAhead(ByteBits(Stream()), START, s.Now(), d);
    LeadsLocal(ByteBits(Stream()), ByteBits(Stream()), s.Now(), d);
  }

  lemma LastStops(input: seq<bool>)
    ensures Move(input, Config(Done, 184, TEXT)) == Stuck
  {
    hide TEXT;
  }
}
