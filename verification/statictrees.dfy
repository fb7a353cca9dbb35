/** The fixed codes of section 3.2.6 of RFC 1951, as tr_static_init builds them. */
module StaticTrees {
  import opened Bits
  import opened Canonical
  import opened HuffBits
  import opened TreeShape
  import opened CodeLengths
  import opened Tokens
  import opened BlockBits
  import GenCodes

  /** The tables that do not change once they are initialized. */
  datatype StaticTables = StaticTables(lengthCode: seq<nat>, baseLength: seq<nat>, distCode: seq<nat>, baseDist: seq<nat>,
                                       slCode: seq<nat>, slLen: seq<nat>, sdCode: seq<nat>, sdLen: seq<nat>) {
    ghost predicate Right() {
      && |lengthCode| == 256 && (forall lc :: 0 <= lc < 256 ==> lengthCode[lc] == LenCode(lc))
      && |baseLength| == LENGTH_CODES && (forall c :: 0 <= c < 28 ==> baseLength[c] == Base(EXTRA_LBITS, c))
      && |distCode| == 512 && (forall d :: 0 <= d < 32768 ==> DCode(distCode, d) == DistCode(d))
      && |baseDist| == D_CODES && (forall c :: 0 <= c < D_CODES ==> baseDist[c] == Base(EXTRA_DBITS, c))
      && |slCode| == 288 && slLen == FixedLit() && (forall n :: 0 <= n < 288 ==> slCode[n] == Huff(FixedLit(), n))
      && |sdCode| == D_CODES && sdLen == FixedDist()[..D_CODES]
      && (forall n :: 0 <= n < D_CODES ==> sdCode[n] == Huff(FixedDist(), n))
    }
  }

  lemma {:induction false} CountRepeat(x: nat, n: nat, l: nat)
    ensures Count(Repeat(x, n), l) == if x == l then n else 0
  {
    if n > 0 {
      CountRepeat(x, n - 1, l);
      assert Repeat(x, n)[..n - 1] == Repeat(x, n - 1);
    }
  }

  lemma FixedCount(l: nat)
    ensures Count(FixedLit(), l) == if l == 7 then 24 else if l == 8 then 152 else if l == 9 then 112 else 0
  {
    hide Count;
    var a, b, c, d := Repeat(8, 144), Repeat(9, 112), Repeat(7, 24), Repeat(8, 8);
    CountConcat(a + b + c, d, l);
    CountConcat(a + b, c, l);
    CountConcat(a, b, l);
    CountRepeat(8, 144, l);
    CountRepeat(9, 112, l);
    CountRepeat(7, 24, l);
    CountRepeat(8, 8, l);
  }

  lemma {:induction false} StartUpTo(lens: seq<nat>, l: nat)
    requires 1 <= l <= MAXBITS + 1 && forall i :: 1 <= i < l ==> Count(lens, i) == 0
    ensures StartOf(lens, l) == 0 && FirstCode(lens, l) == 0
  {
    if l > 1 { StartUpTo(lens, l - 1); }
  }

  lemma {:induction false} StartAfter(lens: seq<nat>, k: nat, l: nat)
    requires 1 <= k <= l <= MAXBITS + 1 && forall i :: k <= i < l ==> Count(lens, i) == 0
    ensures StartOf(lens, l) == StartOf(lens, k)
  {
    if k < l { StartAfter(lens, k, l - 1); }
  }

  lemma FixedComplete()
    ensures Kraft(FixedLit()) == UNIT && Kraft(FixedDist()) == UNIT
    ensures forall n :: 0 <= n < 288 ==> Used(FixedLit(), n)
    ensures forall n :: 0 <= n < 32 ==> Used(FixedDist(), n)
  {
    var f, g := FixedLit(), FixedDist();
    forall l: nat
      ensures Count(f, l) == if l == 7 then 24 else if l == 8 then 152 else if l == 9 then 112 else 0
      ensures Count(g, l) == if l == 5 then 32 else 0
    {
      FixedCount(l);
      CountRepeat(5, 32, l);
    }
    Pow2Values();
    hide Count, Repeat, FixedLit, FixedDist, Pow2;
    StartUpTo(f, 7);
    StartAfter(f, 10, 16);
    StartUpTo(g, 5);
    StartAfter(g, 6, 16);
    assert Width(7) == 256 && Width(8) == 128 && Width(9) == 64 && Width(5) == 1024;
    assert StartOf(f, 8) == 24 * 256 && StartOf(f, 9) == 24 * 256 + 152 * 128;
  }

  /** A run of equal lengths up to symbol last, counted as they are set. */
  method SetRun(dl: array<nat>, blCount: array<nat>, n0: nat, last: nat, len: nat)
    requires dl != blCount && n0 <= last < dl.Length && len < blCount.Length
    modifies dl, blCount
    ensures forall i :: 0 <= i < dl.Length ==> dl[i] == if n0 <= i <= last then len else old(dl[i])
    ensures blCount[..] == old(blCount[..])[len := old(blCount[len]) + last + 1 - n0]
  {
    var n := n0;
    while n <= last
      invariant n0 <= n <= last + 1
      invariant forall i :: 0 <= i < dl.Length ==> dl[i] == if n0 <= i < n then len else old(dl[i])
      invariant blCount[..] == old(blCount[..])[len := old(blCount[len]) + n - n0]
    {
      dl[n] := len;
      blCount[len] := blCount[len] + 1;
      n := n + 1;
    }
  }

  /** The codes of the static literal tree, and the trivial static distance tree. */
  method InitStaticCodes(slCode: array<nat>, slLen: array<nat>, sdCode: array<nat>, sdLen: array<nat>)
    requires slCode.Length == slLen.Length == 288 && sdCode.Length == sdLen.Length == D_CODES
    requires slCode != slLen && sdCode != sdLen && slCode != sdCode && slCode != sdLen && slLen != sdCode && slLen != sdLen
    modifies slCode, slLen, sdCode, sdLen
    ensures slLen[..] == FixedLit() && forall n :: 0 <= n < 288 ==> slCode[n] == Huff(FixedLit(), n)
    ensures sdLen[..] == FixedDist()[..D_CODES] && forall n :: 0 <= n < D_CODES ==> sdCode[n] == Huff(FixedDist(), n)
  {
    hide Huff, Kraft, Count, Pow2;
    FixedComplete();
    var blCount := new nat[MAXBITS + 1](i => 0);
    SetRun(slLen, blCount, 0, 143, 8);
    SetRun(slLen, blCount, 144, 255, 9);
    SetRun(slLen, blCount, 256, 279, 7);
    SetRun(slLen, blCount, 280, 287, 8);
    assert slLen[..] == FixedLit();
    forall l | 1 <= l <= MAXBITS
      ensures blCount[l] == Count(FixedLit(), l)
    {
      FixedCount(l);
    }
    assert slLen[..288] == FixedLit();
    GenCodes.GenCodes(slCode, slLen, 287, blCount);
    InitDistCodes(sdCode, sdLen);
  }

  method InitDistCodes(sdCode: array<nat>, sdLen: array<nat>)
    requires sdCode.Length == sdLen.Length == D_CODES && sdCode != sdLen
    modifies sdCode, sdLen
    ensures sdLen[..] == FixedDist()[..D_CODES] && forall n :: 0 <= n < D_CODES ==> sdCode[n] == Huff(FixedDist(), n)
  {
    hide Huff, Count;
    for n := 0 to D_CODES
      invariant forall i :: 0 <= i < n ==> sdLen[i] == 5 && sdCode[i] == Huff(FixedDist(), i)
    {
      sdLen[n] := 5;
      FixedDistCode(n);
      sdCode[n] := GenCodes.BiReverse(n, 5);
    }
  }

  /** The static distance codes are the 5-bit numbers. */
  lemma FixedDistCode(n: nat)
    requires n < 32
    ensures Used(FixedDist(), n) && Huff(FixedDist(), n) == Lsb(CodeBits(n, 5))
  {
    var g := FixedDist();
    forall l: nat
      ensures Count(g, l) == if l == 5 then 32 else 0
    {
      CountRepeat(5, 32, l);
    }
    StartUpTo(g, 5);
    CountRepeat(5, n, 5);
    assert g[..n] == Repeat(5, n);
  }

  /** Initialize the various constant tables. */
  method TrStaticInit() returns (t: StaticTables)
    ensures t.Right()
  {
    hide Huff, LenCode, DistCode, Base, FixedLit, FixedDist;
    var lengthCode, baseLength := new nat[256], new nat[LENGTH_CODES];
    var distCode, baseDist := new nat[512], new nat[D_CODES];
    var slCode, slLen, sdCode, sdLen := new nat[288], new nat[288], new nat[D_CODES], new nat[D_CODES];
    InitLengths(baseLength, lengthCode);
    InitDists(baseDist, distCode);
    InitStaticCodes(slCode, slLen, sdCode, sdLen);
    t := StaticTables(lengthCode[..], baseLength[..], distCode[..], baseDist[..], slCode[..], slLen[..], sdCode[..], sdLen[..]);
  }
}
