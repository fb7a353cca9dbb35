/** The tree side of the compressor: tallying tokens, building the three trees of
    a block, and sending it (sections 3.2.3 to 3.2.7 of RFC 1951). */
module BlockTrees {
  import opened Bits
  import opened Canonical
  import opened HuffBits
  import opened Sums
  import opened Forests
  import opened BitLengths
  import opened BuildTrees
  import opened BitOutput
  import opened CodeLengths
  import opened Tokens
  import opened BlockBits
  import opened StaticTrees
  import opened BlockData

  const BL_ORDER: seq<nat> := [16, 17, 18, 0, 8, 7, 9, 6, 10, 5, 11, 4, 12, 3, 13, 2, 14, 1, 15]

  function LenOrZero(lens: seq<nat>, i: nat): nat {
    if i < |lens| then lens[i] else 0
  }

  /** The lengths of the first n code-length codes, three bits each. */
  function ClLens(bl: seq<nat>, n: nat): (b: seq<bool>)
    requires n <= BL_CODES
    ensures |b| == 3 * n
  {
    if n == 0 then [] else ClLens(bl, n - 1) + ToBits(LenOrZero(bl, BL_ORDER[n - 1]), 3)
  }

  /** The header of a dynamic block: the counts and the three trees. */
  function HeaderBits(lit: seq<nat>, dist: seq<nat>, bl: seq<nat>, blcodes: nat): seq<bool>
    requires |lit| >= 257 && |dist| >= 1 && 4 <= blcodes <= BL_CODES
  {
    ToBits(|lit| - 257, 5) + ToBits(|dist| - 1, 5) + ToBits(blcodes - 4, 4) + ClLens(bl, blcodes)
    + ClBits(bl, Encode(lit)) + ClBits(bl, Encode(dist))
  }

  // ---- what a built tree gives ----

  /** A complete code for every symbol with a frequency, with its bits in the arrays. */
  ghost predicate Coded(freq: seq<nat>, fc: seq<nat>, dl: seq<nat>, maxCode: nat, max: nat) {
    && maxCode < |freq| <= |dl| && |freq| <= |fc| && max <= MAXBITS
    && var lens := dl[..maxCode + 1];
    && (forall n :: 0 <= n <= maxCode ==> lens[n] <= max) && Kraft(lens) == UNIT
    && (forall n :: 0 <= n <= maxCode && lens[n] != 0 ==> fc[n] == Huff(lens, n))
    && (forall n :: 0 <= n < |freq| && freq[n] != 0 ==> n <= maxCode && lens[n] != 0)
  }

  lemma CodedCodes(freq: seq<nat>, fc: seq<nat>, dl: seq<nat>, maxCode: nat, max: nat)
    requires Coded(freq, fc, dl, maxCode, max)
    ensures var lens := dl[..maxCode + 1];
      CodesFor(freq, lens, fc, dl) && Covers(freq, lens) && ValidLens(lens) && Kraft(lens) == UNIT
      && forall n :: |lens| <= n < |freq| ==> freq[n] == 0
  {
    hide Huff, Kraft;
  }

  /** Costs only look at the symbols. */
  lemma CostPrefix(f: seq<nat>, g: seq<nat>, a: seq<nat>, b: seq<nat>, desc: StaticDesc, k: nat)
    requires k <= |f| && k <= |g| && k <= |a| && k <= |b|
    requires forall n :: 0 <= n < k ==> f[n] == g[n] && a[n] == b[n]
    ensures SumTo(k, Cost(f, a, desc)) == SumTo(k, Cost(g, b, desc))
  {
    SumSame(k, Cost(f, a, desc), Cost(g, b, desc));
  }

  lemma TotalPrefix(f: seq<nat>, g: seq<nat>, k: nat)
    requires k <= |f| && k <= |g| && f[..k] == g[..k]
    ensures SumTo(k, FreqAt(f)) == SumTo(k, FreqAt(g))
  {
    forall n: nat | n < k
      ensures FreqAt(f)(n) == FreqAt(g)(n)
    {
      assert f[..k][n] == g[..k][n];
    }
    SumSame(k, FreqAt(f), FreqAt(g));
  }

  lemma BumpTotal(f: seq<nat>, n: nat, k: nat)
    requires n < |f| && n < k
    ensures SumTo(k, FreqAt(f[n := f[n] + 1])) == SumTo(k, FreqAt(f)) + 1
  {
    SumChange(k, FreqAt(f), FreqAt(f[n := f[n] + 1]), n);
  }

  /** As many frequencies as tokens: no frequency overflows 16 bits. */
  lemma {:induction false} FreqTotals(toks: seq<Token>)
    requires AllValid(toks)
    ensures SumTo(L_CODES, FreqAt(LitFreqs(toks))) == |toks| + 1
    ensures SumTo(D_CODES, FreqAt(DistFreqs(toks))) <= |toks|
  {
    hide SumTo, LenCode, DistCode;
    if toks == [] {
      var z := NoFreqs(L_CODES);
      SumZero(L_CODES, FreqAt(z));
      BumpTotal(z, END_BLOCK, L_CODES);
      SumZero(D_CODES, FreqAt(NoFreqs(D_CODES)));
    } else {
      var init, t := toks[..|toks| - 1], toks[|toks| - 1];
      FreqTotals(init);
      FreqsNext(toks);
      hide LitFreqs, DistFreqs;
      BumpTotal(LitFreqs(init), LitSym(t), L_CODES);
      if t.Match? { BumpTotal(DistFreqs(init), DistCode(t.dist - 1), D_CODES); }
    }
  }

  lemma {:induction false} OccursTotal(toks: seq<ClToken>, freq: seq<nat>)
    requires |freq| >= BL_CODES && forall i :: 0 <= i < BL_CODES ==> freq[i] == Occurs(toks, i)
    requires forall i :: 0 <= i < |toks| ==> toks[i].Symbol() < BL_CODES
    ensures SumTo(BL_CODES, FreqAt(freq)) == |toks|
  {
    hide SumTo;
    if toks == [] {
      SumZero(BL_CODES, FreqAt(freq));
    } else {
      var init, sym := toks[..|toks| - 1], toks[|toks| - 1].Symbol();
      var f := freq[sym := freq[sym] - 1];
      OccursTotal(init, f);
      BumpTotal(f, sym, BL_CODES);
      assert f[sym := f[sym] + 1] == freq;
    }
  }

  /** The bits of the tokens are the cost of their frequencies. */
  lemma {:induction false} ClCost(bl: seq<nat>, toks: seq<ClToken>, freq: seq<nat>, k: nat)
    requires k <= |bl| && k <= BL_CODES <= |freq| && forall i :: 0 <= i < BL_CODES ==> freq[i] == Occurs(toks, i)
    requires forall i :: 0 <= i < |toks| ==> toks[i].Fits() && toks[i].Symbol() < k && Used(bl, toks[i].Symbol())
    ensures |ClBits(bl, toks)| == SumTo(k, Cost(freq, bl, BlDesc()))
  {
    hide Code, ToBits, SumTo, Cost, Pow2;
    if toks == [] {
      CostOfNone(freq, bl, BlDesc(), k);
    } else {
      var init, t := toks[..|toks| - 1], toks[|toks| - 1];
      var f := freq[t.Symbol() := freq[t.Symbol()] - 1];
      ClCost(bl, init, f, k);
      CostStep(f, t.Symbol(), bl, BlDesc(), k);
      assert f[t.Symbol() := f[t.Symbol()] + 1] == freq;
      BlExtra(t);
    }
  }

  lemma BlExtra(t: ClToken)
    requires t.Fits()
    ensures BlDesc().Xbits(t.Symbol()) == t.ExtraBits()
  {
  }

  datatype Buffer = NoBuffer | Buffer(data: seq<nat>)

  /** How a block was sent. */
  datatype BlockKind = StoredKind | FixedKind | DynamicKind(lit: seq<nat>, dist: seq<nat>, bl: seq<nat>, blcodes: nat)

  /** Build one tree and read off what later steps need. */
  method Build(h: HuffState, fc: array<nat>, dl: array<nat>, desc: StaticDesc, ghost freq: seq<nat>) returns (maxCode: nat)
    requires h.Separate() && h.Apart(fc, dl) && desc.Valid() && fc.Length == 2 * desc.elems + 1
    requires |freq| == desc.elems && fc[..desc.elems] == freq && SumTo(desc.elems, FreqAt(freq)) <= 65533
    modifies h`heapLen, h`heapMax, h`optLen, h`staticLen, h.heap, h.depth, h.blCount, fc, dl
    ensures Coded(freq, fc[..], dl[..], maxCode, desc.maxLength)
    ensures forall n :: maxCode < n < desc.elems ==> dl[n] == 0
    ensures 0 < maxCode < desc.elems && dl[maxCode] != 0
    ensures h.optLen == old(h.optLen) + SumTo(maxCode + 1, Cost(freq, dl[..maxCode + 1], desc))
    ensures h.staticLen == old(h.staticLen) + if |desc.stree| == 0 then 0 else SumTo(desc.elems, Cost(freq, desc.stree, desc))
  {
    hide TreeLens, Cost, SumTo, Kraft, Huff, FreqAt;
    ghost var f0 := fc[..];
    assert f0[..desc.elems] == freq;
    TotalPrefix(f0, freq, desc.elems);
    maxCode := BuildTree(h, fc, dl, desc);
    TreeWithin(f0, dl[..], maxCode, desc);
    LensCoded(f0, freq, fc[..], dl[..], maxCode, desc);
    CostPrefix(f0, freq, dl[..], dl[..maxCode + 1], desc, maxCode + 1);
    if |desc.stree| != 0 {
      CostPrefix(f0, freq, desc.stree, desc.stree, desc, maxCode + 1);
      CostRest(freq, desc.stree, desc, maxCode + 1, desc.elems);
    }
  }

  lemma TreeWithin(f0: seq<nat>, dl: seq<nat>, maxCode: nat, desc: StaticDesc)
    requires TreeLens(f0, dl, maxCode, desc)
    ensures maxCode < desc.elems && maxCode < |dl| && maxCode < |f0|
  {
  }

  lemma LensCoded(f0: seq<nat>, freq: seq<nat>, fc: seq<nat>, dl: seq<nat>, maxCode: nat, desc: StaticDesc)
    requires |fc| == |f0| == |dl| && |freq| == desc.elems <= |f0| && f0[..desc.elems] == freq
    requires TreeLens(f0, dl, maxCode, desc) && desc.maxLength <= MAXBITS
    requires forall n :: 0 <= n <= maxCode && dl[n] != 0 ==> fc[n] == Huff(dl[..maxCode + 1], n)
    ensures Coded(freq, fc, dl, maxCode, desc.maxLength)
    ensures forall n :: 0 <= n < desc.elems ==> freq[n] == f0[n]
    ensures forall n :: maxCode < n < desc.elems ==> freq[n] == 0 && dl[n] == 0
    ensures 0 < maxCode < desc.elems && dl[maxCode] != 0
  {
    forall n | 0 <= n < desc.elems
      ensures freq[n] == f0[n]
    {
      assert f0[..desc.elems][n] == f0[n];
    }
    hide Kraft, Huff;
  }

  /** Unused symbols cost nothing. */
  lemma {:induction false} CostRest(freq: seq<nat>, lens: seq<nat>, desc: StaticDesc, j: nat, k: nat)
    requires j <= k <= |freq| && forall n :: j <= n < k ==> freq[n] == 0
    ensures SumTo(j, Cost(freq, lens, desc)) == SumTo(k, Cost(freq, lens, desc))
    decreases k
  {
    if j < k { CostRest(freq, lens, desc, j, k - 1); }
  }

  class TreeCoder {
    const h: HuffState
    const w: BitWriter
    const t: StaticTables
    const lfc: array<nat>
    const ldl: array<nat>
    const dfc: array<nat>
    const ddl: array<nat>
    const bfc: array<nat>
    const bdl: array<nat>
    const dBuf: array<nat>
    const lBuf: array<nat>
    const litBufsize: nat
    const level: nat
    const fixedOnly: bool
    var lastLit: nat

    constructor (litBufsize: nat, level: nat, fixedOnly: bool, t: StaticTables)
      requires 1 <= litBufsize <= 32768 && t.Right()
      ensures Valid() && Toks() == [] && w.Sent() == [] && lastLit == 0
      ensures this.litBufsize == litBufsize && this.level == level && this.fixedOnly == fixedOnly
      ensures fresh(Repr())
    {
      hide StaticTables.Right, LitFreqs, DistFreqs, BitWriter.Valid, BitWriter.Sent, Toks, Valid;
      this.litBufsize, this.level, this.fixedOnly, this.t := litBufsize, level, fixedOnly, t;
      var state := new HuffState();
      var writer := new BitWriter();
      h, w := state, writer;
      lfc, ldl := new nat[HEAP_SIZE], new nat[HEAP_SIZE];
      dfc, ddl := new nat[2 * D_CODES + 1], new nat[2 * D_CODES + 1];
      bfc, bdl := new nat[2 * BL_CODES + 1], new nat[2 * BL_CODES + 1];
      dBuf, lBuf := new nat[litBufsize], new nat[litBufsize];
      lastLit := 0;
      new;
      InitBlock();
    }

    ghost predicate Shape()
      reads h
    {
      && h.Separate() && h.Apart(lfc, ldl) && h.Apart(dfc, ddl) && h.Apart(bfc, bdl) && t.Right()
      && lfc.Length == HEAP_SIZE && dfc.Length == 2 * D_CODES + 1 && bfc.Length == 2 * BL_CODES + 1
      && dBuf.Length == lBuf.Length == litBufsize && 1 <= litBufsize <= 32768
      && dBuf != lBuf && dBuf !in {h.heap, h.depth, h.blCount} && lBuf !in {h.heap, h.depth, h.blCount}
      && lfc !in {dfc, ddl, bfc, bdl, dBuf, lBuf} && ldl !in {dfc, ddl, bfc, bdl, dBuf, lBuf}
      && dfc !in {bfc, bdl, dBuf, lBuf} && ddl !in {bfc, bdl, dBuf, lBuf} && bfc !in {dBuf, lBuf} && bdl !in {dBuf, lBuf}
    }

    /** Everything the methods change. */
    ghost function Repr(): set<object> {
      {this, h, w, h.heap, h.depth, h.blCount, lfc, ldl, dfc, ddl, bfc, bdl, dBuf, lBuf}
    }

    /** The tokens tallied since the last block. */
    ghost function Toks(): seq<Token>
      reads this, dBuf, lBuf
      requires lastLit <= dBuf.Length && lastLit <= lBuf.Length
    {
      TokensOf(dBuf[..], lBuf[..], lastLit)
    }

    /** The frequencies are those of the buffered tokens and one end of block. */
    ghost predicate Valid()
      reads this, h, w, dBuf, lBuf, lfc, dfc, bfc
    {
      && Shape() && w.Valid() && lastLit < litBufsize && AllValid(Toks())
      && lfc[..L_CODES] == LitFreqs(Toks()) && dfc[..D_CODES] == DistFreqs(Toks()) && bfc[..BL_CODES] == NoFreqs(BL_CODES)
      && h.optLen == 0 && h.staticLen == 0
    }

    /** Initialize a new block. */
    method InitBlock()
      requires Shape() && w.Valid()
      modifies this, h`optLen, h`staticLen, lfc, dfc, bfc
      ensures Valid() && Toks() == [] && w.Sent() == old(w.Sent()) && lastLit == 0
    {
      hide StaticTables.Right;
      for n := 0 to L_CODES
        invariant forall i :: 0 <= i < n ==> lfc[i] == 0
      {
        lfc[n] := 0;
      }
      for n := 0 to D_CODES
        invariant forall i :: 0 <= i < L_CODES ==> lfc[i] == 0
        invariant forall i :: 0 <= i < n ==> dfc[i] == 0
      {
        dfc[n] := 0;
      }
      for n := 0 to BL_CODES
        invariant forall i :: 0 <= i < L_CODES ==> lfc[i] == 0
        invariant forall i :: 0 <= i < D_CODES ==> dfc[i] == 0
        invariant forall i :: 0 <= i < n ==> bfc[i] == 0
      {
        bfc[n] := 0;
      }
      lfc[END_BLOCK] := 1;
      h.optLen, h.staticLen := 0, 0;
      lastLit := 0;
      assert lfc[..L_CODES] == NoFreqs(L_CODES)[END_BLOCK := 1];
      assert dfc[..D_CODES] == NoFreqs(D_CODES);
    }

    /** Save a literal and tally it; true when the block must be flushed. */
    method TallyLit(c: nat) returns (flush: bool)
      requires Valid() && c < 256 && lastLit + 1 < litBufsize
      modifies this, dBuf, lBuf, lfc
      ensures Valid() && Toks() == old(Toks()) + [Lit(c)] && flush == (lastLit == litBufsize - 1)
      ensures lastLit == old(lastLit) + 1
    {
      hide StaticTables.Right, LitFreqs, DistFreqs;
      ghost var toks, f := Toks(), lfc[..];
      dBuf[lastLit] := 0;
      lBuf[lastLit] := c;
      lastLit := lastLit + 1;
      lfc[c] := lfc[c] + 1;
      flush := lastLit == litBufsize - 1;
      TokAppended(toks, Toks(), Lit(c));
      assert lfc[..] == f[c := f[c] + 1];
      Bumped(f, L_CODES, c);
    }

    /** Save a match and tally it; true when the block must be flushed. */
    method TallyDist(distance: nat, length: nat) returns (flush: bool)
      requires Valid() && 1 <= distance <= 32768 && length <= MAX_MATCH - MIN_MATCH && lastLit + 1 < litBufsize
      modifies this, dBuf, lBuf, lfc, dfc
      ensures Valid() && Toks() == old(Toks()) + [Match(length + MIN_MATCH, distance)] && flush == (lastLit == litBufsize - 1)
      ensures lastLit == old(lastLit) + 1
    {
      hide LitFreqs, DistFreqs, LenCode, DistCode, Base, DCode, FixedLit, FixedDist, Huff;
      ghost var toks, f, g := Toks(), lfc[..], dfc[..];
      dBuf[lastLit] := distance;
      lBuf[lastLit] := length;
      lastLit := lastLit + 1;
      var dist := distance - 1;
      var lc, dc := t.lengthCode[length] + LITERALS + 1, DCode(t.distCode, dist);
      hide StaticTables.Right;
      lfc[lc] := lfc[lc] + 1;
      dfc[dc] := dfc[dc] + 1;
      flush := lastLit == litBufsize - 1;
      TokAppended(toks, Toks(), Match(length + MIN_MATCH, distance));
      assert lfc[..] == f[lc := f[lc] + 1] && dfc[..] == g[dc := g[dc] + 1];
      Bumped(f, L_CODES, lc);
      Bumped(g, D_CODES, dc);
    }

    /** Build the tree of the bit lengths; the index in BL_ORDER of its last length to send. */
    method BuildBlTree(maxL: nat, maxD: nat) returns (maxBlindex: nat, maxBl: nat)
      requires Shape() && maxL < L_CODES && maxD < D_CODES && bfc[..BL_CODES] == NoFreqs(BL_CODES)
      requires ValidLens(ldl[..maxL + 1]) && ValidLens(ddl[..maxD + 1]) && ldl[maxL] != 0
      modifies h`heapLen, h`heapMax, h`optLen, h`staticLen, h.heap, h.depth, h.blCount, ldl, ddl, bfc, bdl
      ensures ldl[..] == old(ldl[..])[maxL + 1 := GUARD] && ddl[..] == old(ddl[..])[maxD + 1 := GUARD]
      ensures maxBl < BL_CODES && BlTree(ldl[..maxL + 1], ddl[..maxD + 1], bfc[..], bdl[..], maxBl)
      ensures 3 <= maxBlindex < BL_CODES && LastSent(bdl[..], maxBlindex)
      ensures h.optLen == old(h.optLen) + |ClBits(bdl[..maxBl + 1], Encode(ldl[..maxL + 1]))|
                          + |ClBits(bdl[..maxBl + 1], Encode(ddl[..maxD + 1]))| + 3 * (maxBlindex + 1) + 5 + 5 + 4
      ensures h.staticLen == old(h.staticLen)
    {
      hide StaticTables.Right, Tallied, Encode, Kraft, Coded, BlTree, LastSent, ClBits, SumTo, Cost, ValidLens;
      ghost var lit, dist := ldl[..maxL + 1], ddl[..maxD + 1];
      assert lit[|lit| - 1] != 0;
      ScanTree(ldl, bfc, maxL);
      ghost var mid := bfc[..];
      ScanTree(ddl, bfc, maxD);
      assert ldl[..maxL + 1] == lit && ddl[..maxD + 1] == dist;
      ghost var freq := bfc[..BL_CODES];
      BothScanned(old(bfc[..]), mid, bfc[..], lit, dist, freq);
      DescsValid();
      maxBl := Build(h, bfc, bdl, BlDesc(), freq);
      BlBuilt(lit, dist, freq, bfc[..], bdl[..], maxBl);
      LengthSent(lit, dist, bfc[..], bdl[..], maxBl);
      maxBlindex := LastLength();
      h.optLen := h.optLen + 3 * (maxBlindex + 1) + 5 + 5 + 4;
    }

    method LastLength() returns (maxBlindex: nat)
      requires bdl.Length >= BL_CODES && SomeLength(bdl[..])
      ensures 3 <= maxBlindex < BL_CODES && LastSent(bdl[..], maxBlindex)
    {
      OrderInRange();
      hide BL_ORDER;
      maxBlindex := BL_CODES - 1;
      while maxBlindex >= 3
        invariant 2 <= maxBlindex < BL_CODES && forall r :: maxBlindex < r < BL_CODES ==> bdl[BL_ORDER[r]] == 0
      {
        if bdl[BL_ORDER[maxBlindex]] != 0 { break; }
        maxBlindex := maxBlindex - 1;
      }
    }

    /** Send the header for a block using dynamic Huffman trees. */
    method SendAllTrees(lcodes: nat, dcodes: nat, blcodes: nat, ghost maxBl: nat)
      requires Shape() && w.Valid() && 257 <= lcodes <= L_CODES && 1 <= dcodes <= D_CODES && 4 <= blcodes <= BL_CODES
      requires ValidLens(ldl[..lcodes]) && ValidLens(ddl[..dcodes]) && ldl[lcodes] == GUARD && ddl[dcodes] == GUARD
      requires maxBl < BL_CODES && BlTree(ldl[..lcodes], ddl[..dcodes], bfc[..], bdl[..], maxBl)
      modifies w
      ensures w.Valid()
      ensures w.Sent() == old(w.Sent()) + HeaderBits(ldl[..lcodes], ddl[..dcodes], bdl[..maxBl + 1], blcodes)
    {
      hide StaticTables.Right, Encode, Kraft, BlTree, HasCodes;
      Pow2Values();
      hide Pow2, ToBits, ClLens, ClBits, HeaderBits;
      BlTreeCodes(ldl[..lcodes], ddl[..dcodes], bfc[..], bdl[..], maxBl);
      ghost var lit, dist, bl, sent := ldl[..lcodes], ddl[..dcodes], bdl[..maxBl + 1], w.Sent();
      w.SendBits(lcodes - 257, 5);
      w.SendBits(dcodes - 1, 5);
      w.SendBits(blcodes - 4, 4);
      ghost var counts := w.Sent();
      SendLengthLengths(blcodes, maxBl);
      ghost var lengths := w.Sent();
      SendTree(w, ldl, lcodes - 1, bfc[..], bdl[..], bl);
      SendTree(w, ddl, dcodes - 1, bfc[..], bdl[..], bl);
      HeaderSent(sent, counts, lengths, w.Sent(), lit, dist, bl, blcodes);
    }

    /** Send the lengths of the code-length codes in the order of decreasing probability. */
    method SendLengthLengths(blcodes: nat, ghost maxBl: nat)
      requires w.Valid() && 4 <= blcodes <= BL_CODES && bdl.Length >= BL_CODES && maxBl < BL_CODES
      requires forall n :: 0 <= n < BL_CODES ==> bdl[n] <= 7 && bdl[n] == LenOrZero(bdl[..maxBl + 1], n)
      modifies w
      ensures w.Valid() && w.Sent() == old(w.Sent()) + ClLens(bdl[..maxBl + 1], blcodes)
    {
      OrderInRange();
      Pow2Values();
      hide BL_ORDER, Pow2, ToBits;
      ghost var bl := bdl[..maxBl + 1];
      assert w.Sent() + ClLens(bl, 0) == w.Sent();
      for rank := 0 to blcodes
        invariant w.Valid() && w.Sent() == old(w.Sent()) + ClLens(bl, rank)
      {
        w.SendBits(bdl[BL_ORDER[rank]], 3);
        Glue(old(w.Sent()), ClLens(bl, rank), ToBits(LenOrZero(bl, BL_ORDER[rank]), 3));
      }
    }

    /** Copy a stored block, storing first the length and its one's complement. */
    method CopyBlock(buf: seq<nat>)
      requires w.Valid() && |buf| <= 65535 && forall i :: 0 <= i < |buf| ==> buf[i] < 256
      modifies w
      ensures w.Valid() && w.biValid == 0 && |w.Sent()| % 8 == 0
      ensures w.Sent() == old(w.Sent()) + Padding(|old(w.Sent())|) + ToBits(|buf|, 16) + ToBits(65535 - |buf|, 16) + ByteBits(buf)
    {
      hide Pow2, ToBits, ByteBits, Padding;
      w.BiWindup();
      ghost var aligned := w.Sent();
      w.PutShort(|buf|);
      w.PutShort(65535 - |buf|);
      ghost var start := w.pending;
      NoBits();
      assert w.Sent() == ByteBits(w.pending);
      NoBytes(start, buf);
      for i := 0 to |buf|
        invariant w.biValid == 0 && w.biBuf == 0 && w.pending == start + buf[..i]
        invariant forall k :: 0 <= k < |w.pending| ==> w.pending[k] < 256
      {
        w.PutByte(buf[i]);
        assert buf[..i + 1] == buf[..i] + [buf[i]];
      }
      assert buf[..|buf|] == buf;
      ByteBitsConcat(start, buf);
      WholeBytes(w.pending);
    }

    /** Send a stored block. */
    method StoredBlock(buf: seq<nat>, last: bool)
      requires w.Valid() && |buf| <= 65535 && forall i :: 0 <= i < |buf| ==> buf[i] < 256
      modifies w
      ensures w.Valid() && (buf == [] ==> |w.Sent()| % 8 == 0)
      ensures w.Sent() == old(w.Sent()) + StoredBits(buf, last, |old(w.Sent())|)
    {
      hide ToBits, ByteBits, Padding, TypeBits, StoredBits, BitWriter.Valid, BitWriter.Sent;
      ghost var sent := w.Sent();
      SendType(0, last);
      CopyBlock(buf);
      StoredSent(sent, w.Sent(), buf, last);
    }

    /** The three bits that start a block. */
    method SendType(kind: nat, last: bool)
      requires w.Valid() && kind <= 2
      modifies w
      ensures w.Valid() && w.Sent() == old(w.Sent()) + TypeBits(kind, last)
    {
      Pow2Values();
      w.SendBits(2 * kind + Bit(last), 3);
    }

    /** Construct the three trees of the block; opt_len and static_len become the exact
        numbers of bits after the block type. */
    method BuildTrees(ghost toks: seq<Token>) returns (maxL: nat, maxD: nat, maxBlindex: nat, maxBl: nat)
      requires Valid() && toks == Toks()
      modifies h`heapLen, h`heapMax, h`optLen, h`staticLen, h.heap, h.depth, h.blCount, lfc, ldl, dfc, ddl, bfc, bdl
      ensures TreesBuilt(toks, lfc[..], ldl[..], dfc[..], ddl[..], bfc[..], bdl[..], maxL, maxD, maxBlindex, maxBl)
      ensures h.optLen == |DynamicBits(DynamicKind(ldl[..maxL + 1], ddl[..maxD + 1], bdl[..maxBl + 1], maxBlindex + 1), toks)|
      ensures h.staticLen == |FixedBits(toks)|
    {
      hide StaticTables.Right, LitFreqs, DistFreqs, Coded, SumTo, Cost, BlTree, LastSent, Encode, TreesBuilt, DynamicBits, FixedBits, ClBits;
      DescsValid();
      FreqTotals(toks);
      maxL := Build(h, lfc, ldl, LDesc(), LitFreqs(toks));
      maxD := Build(h, dfc, ddl, DDesc(), DistFreqs(toks));
      ghost var l0, d0 := ldl[..], ddl[..];
      CodedCodes(LitFreqs(toks), lfc[..], l0, maxL, MAXBITS);
      CodedCodes(DistFreqs(toks), dfc[..], d0, maxD, MAXBITS);
      maxBlindex, maxBl := BuildBlTree(maxL, maxD);
      GuardKeeps(LitFreqs(toks), lfc[..], l0, maxL, MAXBITS);
      GuardKeeps(DistFreqs(toks), dfc[..], d0, maxD, MAXBITS);
      AllBuilt(toks, lfc[..], ldl[..], dfc[..], ddl[..], bfc[..], bdl[..], maxL, maxD, maxBlindex, maxBl);
      OptimalLength(toks, ldl[..maxL + 1], ddl[..maxD + 1], bdl[..maxBl + 1], maxBlindex + 1);
      StaticLength(toks);
    }

    /** Build the trees unless a stored block is forced, choose the best encoding, and send the block. */
    method ChooseAndSend(ghost toks: seq<Token>, buf: Buffer, storedLen: nat, last: bool) returns (ghost kind: BlockKind, ghost dyn: BlockKind)
      requires Valid() && toks == Toks()
      requires buf.Buffer? ==> |buf.data| == storedLen <= 65535 && forall i :: 0 <= i < storedLen ==> buf.data[i] < 256
      modifies w, h`heapLen, h`heapMax, h`optLen, h`staticLen, h.heap, h.depth, h.blCount, lfc, ldl, dfc, ddl, bfc, bdl
      ensures Shape() && w.Valid() && AllValid(toks)
      ensures level > 0 ==> DynamicOk(dyn, toks)
      ensures kind == if level == 0 then (if buf.Buffer? then StoredKind else FixedKind) else Choice(dyn, toks, buf, storedLen, last, fixedOnly)
      ensures kind.StoredKind? ==> buf.Buffer?
      ensures kind.DynamicKind? ==> DynamicOk(kind, toks) && kind == dyn
      ensures w.Sent() == old(w.Sent()) + KindBits(kind, toks, buf, last, |old(w.Sent())|)
    {
      hide StaticTables.Right, LitFreqs, DistFreqs, Encode, TreesBuilt, DynamicBits, FixedBits, DynamicOk, Choice, StoredBits,
        TypeBits, Kraft;
      var maxL, maxD, maxBlindex, maxBl := 0, 0, 0, 0;
      var optLenb, staticLenb := storedLen + 5, storedLen + 5;
      dyn := StoredKind;
      if level > 0 {
        maxL, maxD, maxBlindex, maxBl := BuildTrees(toks);
        BuiltOk(toks, lfc[..], ldl[..], dfc[..], ddl[..], bfc[..], bdl[..], maxL, maxD, maxBlindex, maxBl);
        dyn := DynamicKind(ldl[..maxL + 1], ddl[..maxD + 1], bdl[..maxBl + 1], maxBlindex + 1);
        optLenb := (h.optLen + 3 + 7) / 8;
        staticLenb := (h.staticLen + 3 + 7) / 8;
        ChoiceIs(dyn, toks, buf, storedLen, last, fixedOnly, optLenb, staticLenb);
        if staticLenb <= optLenb { optLenb := staticLenb; }
      }
      if storedLen + 4 <= optLenb && buf.Buffer? {
        kind := StoredKind;
        StoredBlock(buf.data, last);
      } else if fixedOnly || staticLenb == optLenb {
        kind := FixedKind;
        SendFixed(toks, last);
      } else {
        kind := dyn;
        SendDynamic(toks, last, maxL, maxD, maxBlindex, maxBl);
      }
    }

    /** Determine the best encoding for the current block and send it.  The result
        is how it was sent and how it would have been sent with dynamic trees. */
    method FlushBlock(buf: Buffer, storedLen: nat, last: bool) returns (ghost kind: BlockKind, ghost dyn: BlockKind)
      requires Valid()
      requires buf.Buffer? ==> |buf.data| == storedLen <= 65535 && forall i :: 0 <= i < storedLen ==> buf.data[i] < 256
      modifies this, w, h`heapLen, h`heapMax, h`optLen, h`staticLen, h.heap, h.depth, h.blCount, lfc, ldl, dfc, ddl, bfc, bdl
      ensures Valid() && Toks() == [] && AllValid(old(Toks()))
      ensures level > 0 ==> DynamicOk(dyn, old(Toks()))
      ensures kind == if level == 0 then (if buf.Buffer? then StoredKind else FixedKind) else Choice(dyn, old(Toks()), buf, storedLen, last, fixedOnly)
      ensures kind.StoredKind? ==> buf.Buffer?
      ensures kind.DynamicKind? ==> DynamicOk(kind, old(Toks()))
      ensures var sent := old(w.Sent()) + KindBits(kind, old(Toks()), buf, last, |old(w.Sent())|);
        w.Sent() == if last then sent + Padding(|sent|) else sent
    {
      hide LitFreqs, DistFreqs, DynamicOk, Choice, KindBits, StaticTables.Right;
      kind, dyn := ChooseAndSend(Toks(), buf, storedLen, last);
      InitBlock();
      if last {
        w.BiWindup();
      }
    }

    /** Send the block with the fixed trees. */
    method SendFixed(ghost toks: seq<Token>, last: bool)
      requires Shape() && w.Valid() && lastLit < litBufsize && toks == Toks() && AllValid(toks)
      modifies w
      ensures w.Valid() && w.Sent() == old(w.Sent()) + (TypeBits(1, last) + FixedBits(toks))
    {
      hide LitFreqs, DistFreqs, TypeBits, DataBits, SymBits;
      ghost var sent := w.Sent();
      StaticCodes(t, toks);
      SendType(1, last);
      CompressBlock(w, t, dBuf, lBuf, lastLit, t.slCode, t.slLen, t.sdCode, t.sdLen, FixedLit(), FixedDist(), toks);
      Glue(sent + TypeBits(1, last), DataBits(FixedLit(), FixedDist(), toks), SymBits(FixedLit(), END_BLOCK));
      Glue(sent, TypeBits(1, last), FixedBits(toks));
    }

    /** Send the block with its own trees. */
    method SendDynamic(ghost toks: seq<Token>, last: bool, maxL: nat, maxD: nat, maxBlindex: nat, maxBl: nat)
      requires Shape() && w.Valid() && lastLit < litBufsize && toks == Toks() && maxL < L_CODES && maxD < D_CODES && maxBl < BL_CODES
      requires TreesBuilt(toks, lfc[..], ldl[..], dfc[..], ddl[..], bfc[..], bdl[..], maxL, maxD, maxBlindex, maxBl)
      modifies w
      ensures w.Valid()
      ensures w.Sent() == old(w.Sent()) + (TypeBits(2, last)
        + DynamicBits(DynamicKind(ldl[..maxL + 1], ddl[..maxD + 1], bdl[..maxBl + 1], maxBlindex + 1), toks))
    {
      hide StaticTables.Right, LitFreqs, DistFreqs, TypeBits, DataBits, SymBits, HeaderBits, Coded, Kraft, Huff, Encode, BlTree;
      ghost var sent := w.Sent();
      ghost var lit, dist, bl := ldl[..maxL + 1], ddl[..maxD + 1], bdl[..maxBl + 1];
      CodedCodes(LitFreqs(toks), lfc[..], ldl[..], maxL, MAXBITS);
      CodedCodes(DistFreqs(toks), dfc[..], ddl[..], maxD, MAXBITS);
      SendType(2, last);
      SendAllTrees(maxL + 1, maxD + 1, maxBlindex + 1, maxBl);
      CompressBlock(w, t, dBuf, lBuf, lastLit, lfc[..], ldl[..], dfc[..], ddl[..], lit, dist, toks);
      DynamicSent(sent, w.Sent(), TypeBits(2, last), lit, dist, bl, maxBlindex + 1, toks);
    }
  }

  lemma DynamicSent(sent: seq<bool>, now: seq<bool>, t: seq<bool>, lit: seq<nat>, dist: seq<nat>, bl: seq<nat>, blcodes: nat, toks: seq<Token>)
    requires AllValid(toks) && |lit| >= 257 && |dist| >= 1 && 4 <= blcodes <= BL_CODES
    requires now == sent + t + HeaderBits(lit, dist, bl, blcodes) + DataBits(lit, dist, toks) + SymBits(lit, END_BLOCK)
    ensures now == sent + (t + DynamicBits(DynamicKind(lit, dist, bl, blcodes), toks))
  {
    var a, b, c := HeaderBits(lit, dist, bl, blcodes), DataBits(lit, dist, toks), SymBits(lit, END_BLOCK);
    var d := DynamicBits(DynamicKind(lit, dist, bl, blcodes), toks);
    assert d == a + b + c;
    hide *;
    Glue(sent + t, a, b);
    Glue(sent + t, a + b, c);
    Glue(sent, t, d);
  }

  lemma StaticCodes(t: StaticTables, toks: seq<Token>)
    requires t.Right() && AllValid(toks)
    ensures CodesFor(LitFreqs(toks), FixedLit(), t.slCode, t.slLen) && CodesFor(DistFreqs(toks), FixedDist(), t.sdCode, t.sdLen)
  {
    FixedComplete();
    hide LitFreqs, DistFreqs, Huff, Kraft, Repeat;
  }

  /** The trees of a dynamic block: complete codes that cover what the block uses, within the header's limits. */
  ghost predicate DynamicOk(kind: BlockKind, toks: seq<Token>) {
    && kind.DynamicKind? && AllValid(toks)
    && 257 <= |kind.lit| <= L_CODES && 1 <= |kind.dist| <= D_CODES && |kind.bl| <= BL_CODES && 4 <= kind.blcodes <= BL_CODES
    && ValidLens(kind.lit) && Kraft(kind.lit) == UNIT && Covers(LitFreqs(toks), kind.lit)
    && ValidLens(kind.dist) && Kraft(kind.dist) == UNIT && Covers(DistFreqs(toks), kind.dist)
    && (forall n :: 0 <= n < |kind.bl| ==> kind.bl[n] <= 7) && Kraft(kind.bl) == UNIT
    && |BL_ORDER| == BL_CODES && (forall r :: kind.blcodes <= r < BL_CODES ==> LenOrZero(kind.bl, BL_ORDER[r]) == 0)
    && (forall i :: 0 <= i < |Encode(kind.lit)| ==> Used(kind.bl, Encode(kind.lit)[i].Symbol()))
    && (forall i :: 0 <= i < |Encode(kind.dist)| ==> Used(kind.bl, Encode(kind.dist)[i].Symbol()))
  }

  lemma BuiltOk(toks: seq<Token>, lfc: seq<nat>, ldl: seq<nat>, dfc: seq<nat>, ddl: seq<nat>, bfc: seq<nat>,
                bdl: seq<nat>, maxL: nat, maxD: nat, maxBlindex: nat, maxBl: nat)
    requires TreesBuilt(toks, lfc, ldl, dfc, ddl, bfc, bdl, maxL, maxD, maxBlindex, maxBl)
    ensures maxL < L_CODES && maxD < D_CODES && maxBl < BL_CODES <= |bdl| && maxL < |ldl| && maxD < |ddl|
    ensures DynamicOk(DynamicKind(ldl[..maxL + 1], ddl[..maxD + 1], bdl[..maxBl + 1], maxBlindex + 1), toks)
  {
    CodedCodes(LitFreqs(toks), lfc, ldl, maxL, MAXBITS);
    CodedCodes(DistFreqs(toks), dfc, ddl, maxD, MAXBITS);
    TokensUsed(bdl[..maxBl + 1], bfc, bdl, Encode(ldl[..maxL + 1]));
    TokensUsed(bdl[..maxBl + 1], bfc, bdl, Encode(ddl[..maxD + 1]));
    hide LitFreqs, DistFreqs, Kraft, Huff, Encode, HasCodes, CodesFor, Covers, BL_ORDER;
  }

  /** All the bits of a block that starts after pos bits. */
  function KindBits(kind: BlockKind, toks: seq<Token>, buf: Buffer, last: bool, pos: nat): seq<bool>
    requires AllValid(toks) && (kind.StoredKind? ==> buf.Buffer? && |buf.data| <= 65535)
    requires kind.DynamicKind? ==> |kind.lit| >= 257 && |kind.dist| >= 1 && 4 <= kind.blcodes <= BL_CODES
  {
    match kind
    case StoredKind => StoredBits(buf.data, last, pos)
    case FixedKind => TypeBits(1, last) + FixedBits(toks)
    case DynamicKind(_, _, _, _) => TypeBits(2, last) + DynamicBits(kind, toks)
  }

  function Bytes(bits: nat): nat {
    (bits + 7) / 8
  }

  /** Stored when the raw bytes and their length words are no longer than the best
      compressed form; otherwise fixed trees unless dynamic ones save a byte. */
  ghost function Choice(dyn: BlockKind, toks: seq<Token>, buf: Buffer, storedLen: nat, last: bool, fixedOnly: bool): BlockKind
    requires DynamicOk(dyn, toks)
  {
    var opt := Bytes(|KindBits(dyn, toks, buf, last, 0)|);
    var fix := Bytes(|KindBits(FixedKind, toks, buf, last, 0)|);
    if storedLen + 4 <= (if fix <= opt then fix else opt) && buf.Buffer? then StoredKind
    else if fixedOnly || fix <= opt then FixedKind
    else dyn
  }

  lemma ChoiceIs(dyn: BlockKind, toks: seq<Token>, buf: Buffer, storedLen: nat, last: bool, fixedOnly: bool, opt: nat, fix: nat)
    requires DynamicOk(dyn, toks)
    requires opt == (|DynamicBits(dyn, toks)| + 3 + 7) / 8 && fix == (|FixedBits(toks)| + 3 + 7) / 8
    ensures Choice(dyn, toks, buf, storedLen, last, fixedOnly)
         == if storedLen + 4 <= (if fix <= opt then fix else opt) && buf.Buffer? then StoredKind
            else if fixedOnly || fix <= opt then FixedKind else dyn
    ensures |dyn.lit| >= 257 && |dyn.dist| >= 1 && 4 <= dyn.blcodes <= BL_CODES && dyn.DynamicKind?
  {
    hide DynamicBits, FixedBits, TypeBits;
    assert |TypeBits(1, last)| == 3 && |TypeBits(2, last)| == 3;
  }

  /** The bytes of a block as they are compared: rounded up, and for raw bytes their number and
      the two length words. */
  ghost function Size(kind: BlockKind, toks: seq<Token>, storedLen: nat): nat {
    match kind
    case StoredKind => storedLen + 4
    case FixedKind => if AllValid(toks) then Bytes(3 + |FixedBits(toks)|) else 0
    case DynamicKind(lit, dist, _, blcodes) =>
      if AllValid(toks) && |lit| >= 257 && |dist| >= 1 && 4 <= blcodes <= BL_CODES then Bytes(3 + |DynamicBits(kind, toks)|) else 0
  }

  /** No encoding that could have been sent is smaller than the one chosen. */
  lemma ChoiceSmallest(dyn: BlockKind, toks: seq<Token>, buf: Buffer, storedLen: nat, last: bool, other: BlockKind)
    requires DynamicOk(dyn, toks) && ((other == StoredKind && buf.Buffer?) || other == FixedKind || other == dyn)
    ensures Size(Choice(dyn, toks, buf, storedLen, last, false), toks, storedLen) <= Size(other, toks, storedLen)
  {
    hide *;
    DynamicShape(dyn, toks);
    var opt, fix := (|DynamicBits(dyn, toks)| + 3 + 7) / 8, (|FixedBits(toks)| + 3 + 7) / 8;
    ChoiceIs(dyn, toks, buf, storedLen, last, false, opt, fix);
    SizesAre(dyn, toks, storedLen);
  }

  /** Where only the fixed trees may be used, a smaller stored block is passed over exactly if
      other trees, which are not used, would have been smaller still. */
  lemma FixedChoice(dyn: BlockKind, toks: seq<Token>, buf: Buffer, storedLen: nat, last: bool)
    requires DynamicOk(dyn, toks) && buf.Buffer?
    ensures Choice(dyn, toks, buf, storedLen, last, true) in {StoredKind, FixedKind}
    ensures Size(Choice(dyn, toks, buf, storedLen, last, true), toks, storedLen) > Size(StoredKind, toks, storedLen)
      <==> Size(dyn, toks, storedLen) < Size(StoredKind, toks, storedLen) < Size(FixedKind, toks, storedLen)
  {
    hide *;
    DynamicShape(dyn, toks);
    var opt, fix := (|DynamicBits(dyn, toks)| + 3 + 7) / 8, (|FixedBits(toks)| + 3 + 7) / 8;
    ChoiceIs(dyn, toks, buf, storedLen, last, true, opt, fix);
    SizesAre(dyn, toks, storedLen);
  }

  lemma DynamicShape(dyn: BlockKind, toks: seq<Token>)
    requires DynamicOk(dyn, toks)
    ensures dyn.DynamicKind? && AllValid(toks) && |dyn.lit| >= 257 && |dyn.dist| >= 1 && 4 <= dyn.blcodes <= BL_CODES
  {
  }

  lemma SizesAre(dyn: BlockKind, toks: seq<Token>, storedLen: nat)
    requires dyn.DynamicKind? && AllValid(toks) && |dyn.lit| >= 257 && |dyn.dist| >= 1 && 4 <= dyn.blcodes <= BL_CODES
    ensures Size(StoredKind, toks, storedLen) == storedLen + 4 && Size(FixedKind, toks, storedLen) == (|FixedBits(toks)| + 3 + 7) / 8
    ensures Size(dyn, toks, storedLen) == (|DynamicBits(dyn, toks)| + 3 + 7) / 8
  {
    hide DynamicBits, FixedBits;
  }

  /** The bits that are sent fit that number of bytes; a stored block has its type and padding besides. */
  lemma SizeOfBits(kind: BlockKind, toks: seq<Token>, buf: Buffer, last: bool, pos: nat)
    requires AllValid(toks) && (kind.StoredKind? ==> buf.Buffer? && |buf.data| <= 65535)
    requires kind.DynamicKind? ==> |kind.lit| >= 257 && |kind.dist| >= 1 && 4 <= kind.blcodes <= BL_CODES
    ensures var n := |KindBits(kind, toks, buf, last, pos)|; var size := Size(kind, toks, if kind.StoredKind? then |buf.data| else 0);
      if kind.StoredKind? then 8 * size + 3 <= n <= 8 * size + 10 else 8 * size - 8 < n <= 8 * size
  {
    hide DynamicBits, FixedBits;
    assert |TypeBits(1, last)| == 3 && |TypeBits(2, last)| == 3;
    if kind.StoredKind? { StoredSize(buf.data, last, pos); }
  }

  lemma StoredSize(data: seq<nat>, last: bool, pos: nat)
    requires |data| <= 65535
    ensures 8 * |data| + 35 <= |StoredBits(data, last, pos)| <= 8 * |data| + 42
  {
    hide ToBits, ByteBits;
  }

  /** What the three trees of a block are. */
  ghost predicate TreesBuilt(toks: seq<Token>, lfc: seq<nat>, ldl: seq<nat>, dfc: seq<nat>, ddl: seq<nat>, bfc: seq<nat>,
                             bdl: seq<nat>, maxL: nat, maxD: nat, maxBlindex: nat, maxBl: nat)
  {
    && AllValid(toks)
    && Coded(LitFreqs(toks), lfc, ldl, maxL, MAXBITS) && Coded(DistFreqs(toks), dfc, ddl, maxD, MAXBITS)
    && END_BLOCK <= maxL && maxL + 1 < |ldl| && maxD + 1 < |ddl| && 3 <= maxBlindex < BL_CODES
    && ldl[maxL + 1] == GUARD && ddl[maxD + 1] == GUARD
    && BlTree(ldl[..maxL + 1], ddl[..maxD + 1], bfc, bdl, maxBl) && LastSent(bdl, maxBlindex)
  }

  lemma AllBuilt(toks: seq<Token>, lfc: seq<nat>, ldl: seq<nat>, dfc: seq<nat>, ddl: seq<nat>, bfc: seq<nat>,
                 bdl: seq<nat>, maxL: nat, maxD: nat, maxBlindex: nat, maxBl: nat)
    requires AllValid(toks)
    requires Coded(LitFreqs(toks), lfc, ldl, maxL, MAXBITS) && Coded(DistFreqs(toks), dfc, ddl, maxD, MAXBITS)
    requires maxL + 1 < |ldl| && maxD + 1 < |ddl| && 3 <= maxBlindex < BL_CODES
    requires ldl[maxL + 1] == GUARD && ddl[maxD + 1] == GUARD
    requires BlTree(ldl[..maxL + 1], ddl[..maxD + 1], bfc, bdl, maxBl) && LastSent(bdl, maxBlindex)
    ensures TreesBuilt(toks, lfc, ldl, dfc, ddl, bfc, bdl, maxL, maxD, maxBlindex, maxBl) && END_BLOCK <= maxL
  {
    EndCounted(toks);
    hide LitFreqs, DistFreqs, BlTree, LastSent, Kraft, Huff;
  }

  /** The guard after a tree does not disturb it. */
  lemma GuardKeeps(freq: seq<nat>, fc: seq<nat>, dl: seq<nat>, maxCode: nat, max: nat)
    requires Coded(freq, fc, dl, maxCode, max) && maxCode + 1 < |dl|
    ensures Coded(freq, fc, dl[maxCode + 1 := GUARD], maxCode, max)
    ensures dl[maxCode + 1 := GUARD][..maxCode + 1] == dl[..maxCode + 1]
  {
    assert dl[maxCode + 1 := GUARD][..maxCode + 1] == dl[..maxCode + 1];
    hide Kraft, Huff;
  }

  /** A block with dynamic trees, after its type. */
  function DynamicBits(kind: BlockKind, toks: seq<Token>): seq<bool>
    requires kind.DynamicKind? && AllValid(toks) && |kind.lit| >= 257 && |kind.dist| >= 1 && 4 <= kind.blcodes <= BL_CODES
  {
    HeaderBits(kind.lit, kind.dist, kind.bl, kind.blcodes) + DataBits(kind.lit, kind.dist, toks) + SymBits(kind.lit, END_BLOCK)
  }

  /** A block with the fixed trees, after its type. */
  function FixedBits(toks: seq<Token>): seq<bool>
    requires AllValid(toks)
  {
    DataBits(FixedLit(), FixedDist(), toks) + SymBits(FixedLit(), END_BLOCK)
  }

  /** opt_len is the exact length of a dynamic block. */
  lemma OptimalLength(toks: seq<Token>, lit: seq<nat>, dist: seq<nat>, bl: seq<nat>, blcodes: nat)
    requires AllValid(toks) && 257 <= |lit| <= L_CODES && 1 <= |dist| <= D_CODES && 4 <= blcodes <= BL_CODES
    requires Covers(LitFreqs(toks), lit) && Covers(DistFreqs(toks), dist)
    requires forall n :: |lit| <= n < L_CODES ==> LitFreqs(toks)[n] == 0
    requires forall n :: |dist| <= n < D_CODES ==> DistFreqs(toks)[n] == 0
    ensures |DynamicBits(DynamicKind(lit, dist, bl, blcodes), toks)|
         == SumTo(|lit|, Cost(LitFreqs(toks), lit, LDesc())) + SumTo(|dist|, Cost(DistFreqs(toks), dist, DDesc()))
            + |ClBits(bl, Encode(lit))| + |ClBits(bl, Encode(dist))| + 3 * blcodes + 5 + 5 + 4
  {
    DataCost(lit, dist, toks, |lit|, |dist|);
    hide LitFreqs, DistFreqs, SumTo, Cost, ToBits, ClBits, Encode, DataBits, SymBits, Covers;
  }

  /** static_len is the exact length of a block with the fixed trees. */
  lemma StaticLength(toks: seq<Token>)
    requires AllValid(toks)
    ensures |FixedBits(toks)| == SumTo(L_CODES, Cost(LitFreqs(toks), LDesc().stree, LDesc()))
                                 + SumTo(D_CODES, Cost(DistFreqs(toks), DDesc().stree, DDesc()))
  {
    FixedComplete();
    hide LitFreqs, DistFreqs, SumTo, Cost, FixedLit, FixedDist, DataBits, SymBits, Kraft;
    DataCost(FixedLit(), FixedDist(), toks, L_CODES, D_CODES);
    CostPrefix(LitFreqs(toks), LitFreqs(toks), FixedLit(), LDesc().stree, LDesc(), L_CODES);
    CostPrefix(DistFreqs(toks), DistFreqs(toks), FixedDist(), DDesc().stree, DDesc(), D_CODES);
  }

  /** One bit says whether this is the last block, two bits the kind. */
  function TypeBits(kind: nat, last: bool): (b: seq<bool>)
    ensures |b| == 3
  {
    ToBits(2 * kind + Bit(last), 3)
  }

  /** A stored block that starts after pos bits. */
  function StoredBits(data: seq<nat>, last: bool, pos: nat): seq<bool>
    requires |data| <= 65535
  {
    TypeBits(0, last) + Padding(pos + 3) + ToBits(|data|, 16) + ToBits(65535 - |data|, 16) + ByteBits(data)
  }

  lemma StoredSent(sent: seq<bool>, now: seq<bool>, data: seq<nat>, last: bool)
    requires |data| <= 65535
    requires var a := sent + TypeBits(0, last);
      now == a + Padding(|a|) + ToBits(|data|, 16) + ToBits(65535 - |data|, 16) + ByteBits(data)
    ensures now == sent + StoredBits(data, last, |sent|)
  {
    hide ToBits, ByteBits, Padding, TypeBits;
    var t, p, x, y, d := TypeBits(0, last), Padding(|sent| + 3), ToBits(|data|, 16), ToBits(65535 - |data|, 16), ByteBits(data);
    Glue4(sent, t, p, x, y);
    Glue(sent, t + p + x + y, d);
  }

  lemma WholeBytes(bytes: seq<nat>)
    ensures |ByteBits(bytes)| % 8 == 0
  {
    hide ToBits;
  }

  lemma NoBytes(start: seq<nat>, buf: seq<nat>)
    ensures start + buf[..0] == start
  {
  }

  lemma BlTreeCodes(lit: seq<nat>, dist: seq<nat>, bfc: seq<nat>, bdl: seq<nat>, maxBl: nat)
    requires BlTree(lit, dist, bfc, bdl, maxBl)
    ensures |bdl| >= BL_CODES > maxBl && forall n :: 0 <= n < BL_CODES ==> bdl[n] <= 7 && bdl[n] == LenOrZero(bdl[..maxBl + 1], n)
    ensures HasCodes(bdl[..maxBl + 1], bfc, bdl, Encode(lit)) && HasCodes(bdl[..maxBl + 1], bfc, bdl, Encode(dist))
  {
    hide Encode, Kraft, HasCodes;
  }

  lemma HeaderSent(sent: seq<bool>, counts: seq<bool>, lengths: seq<bool>, now: seq<bool>,
                   lit: seq<nat>, dist: seq<nat>, bl: seq<nat>, blcodes: nat)
    requires |lit| >= 257 && |dist| >= 1 && 4 <= blcodes <= BL_CODES
    requires counts == sent + ToBits(|lit| - 257, 5) + ToBits(|dist| - 1, 5) + ToBits(blcodes - 4, 4)
    requires lengths == counts + ClLens(bl, blcodes) && now == lengths + ClBits(bl, Encode(lit)) + ClBits(bl, Encode(dist))
    ensures now == sent + HeaderBits(lit, dist, bl, blcodes)
  {
    hide ToBits, ClLens, ClBits, Encode;
    var a, b, c := ToBits(|lit| - 257, 5), ToBits(|dist| - 1, 5), ToBits(blcodes - 4, 4);
    var d, e, f := ClLens(bl, blcodes), ClBits(bl, Encode(lit)), ClBits(bl, Encode(dist));
    Glue4(sent, a, b, c, d);
    Glue(sent, a + b + c + d, e);
    Glue(sent, a + b + c + d + e, f);
  }

  /** Some bit length proper, not just repeats, has a code. */
  ghost predicate SomeLength(bdl: seq<nat>) {
    |BL_ORDER| == BL_CODES && exists r :: 3 <= r < BL_CODES && BL_ORDER[r] < |bdl| && bdl[BL_ORDER[r]] != 0
  }

  lemma RankOf(l: nat) returns (r: nat)
    requires l <= MAXBITS
    ensures 3 <= r < BL_CODES == |BL_ORDER| && BL_ORDER[r] == l
  {
    r := if l == 0 then 3 else if l == 8 then 4 else if l < 8 then 19 - 2 * l else 2 * l - 12;
  }

  /** Repeats alone expand to zeros. */
  lemma {:induction false} OnlyRepeats(toks: seq<ClToken>)
    requires forall i :: 0 <= i < |toks| && toks[i].Len? ==> toks[i].l == 0
    ensures Expand([], toks).Lengths? ==> forall i :: 0 <= i < |Expand([], toks).lens| ==> Expand([], toks).lens[i] == 0
  {
    if toks != [] { OnlyRepeats(toks[..|toks| - 1]); }
  }

  /** At least one proper length is sent, so at least four code-length codes are. */
  lemma LengthSent(lit: seq<nat>, dist: seq<nat>, bfc: seq<nat>, bdl: seq<nat>, maxBl: nat)
    requires ValidLens(lit) && |lit| >= 1 && lit[|lit| - 1] != 0 && BlTree(lit, dist, bfc, bdl, maxBl)
    ensures SomeLength(bdl)
  {
    RoundTrip([], lit);
    assert [] + lit == lit;
    hide Encode, Kraft, Huff;
    var toks := Encode(lit);
    if forall i :: 0 <= i < |toks| && toks[i].Len? ==> toks[i].l == 0 {
      OnlyRepeats(toks);
    }
    var i :| 0 <= i < |toks| && toks[i].Len? && toks[i].l != 0;
    var l := toks[i].l;
    assert toks[i].Fits() && HasCode(bdl[..maxBl + 1], bfc, bdl, toks[i].Symbol());
    var r := RankOf(l);
  }

  lemma OrderInRange()
    ensures |BL_ORDER| == BL_CODES && forall r :: 0 <= r < BL_CODES ==> BL_ORDER[r] < BL_CODES
  {
  }

  /** No code-length code after the last one sent has a length. */
  ghost predicate LastSent(bdl: seq<nat>, maxBlindex: nat) {
    |bdl| >= BL_CODES && |BL_ORDER| == BL_CODES
    && forall r :: maxBlindex < r < BL_CODES ==> BL_ORDER[r] < BL_CODES && bdl[BL_ORDER[r]] == 0
  }

  /** The code-length code covers both trees' tokens. */
  ghost predicate BlTree(lit: seq<nat>, dist: seq<nat>, bfc: seq<nat>, bdl: seq<nat>, maxBl: nat) {
    && maxBl < BL_CODES <= |bdl| && BL_CODES <= |bfc|
    && var bl := bdl[..maxBl + 1];
    && ValidLens(bl) && Kraft(bl) == UNIT && (forall n :: 0 <= n <= maxBl ==> bl[n] <= 7)
    && (forall n :: maxBl < n < BL_CODES ==> bdl[n] == 0)
    && HasCodes(bl, bfc, bdl, Encode(lit)) && HasCodes(bl, bfc, bdl, Encode(dist))
  }

  lemma BothScanned(was: seq<nat>, mid: seq<nat>, now: seq<nat>, lit: seq<nat>, dist: seq<nat>, freq: seq<nat>)
    requires Tallied(was, mid, Encode(lit)) && Tallied(mid, now, Encode(dist)) && |was| >= BL_CODES
    requires was[..BL_CODES] == NoFreqs(BL_CODES) && freq == now[..BL_CODES]
    requires ValidLens(lit) && ValidLens(dist) && |lit| <= L_CODES && |dist| <= D_CODES
    ensures forall i :: 0 <= i < BL_CODES ==> freq[i] == Occurs(Encode(lit) + Encode(dist), i)
    ensures SumTo(BL_CODES, FreqAt(freq)) <= 65533
  {
    RoundTrip([], lit);
    RoundTrip([], dist);
    TallyMore(was, mid, now, Encode(lit), Encode(dist));
    hide Encode, SumTo;
    var toks := Encode(lit) + Encode(dist);
    forall i | 0 <= i < BL_CODES
      ensures freq[i] == Occurs(toks, i)
    {
      assert was[..BL_CODES][i] == was[i];
    }
    OccursTotal(toks, freq);
  }

  lemma {:induction false} OccursSome(toks: seq<ClToken>, i: nat)
    requires i < |toks|
    ensures Occurs(toks, toks[i].Symbol()) > 0
  {
    if i < |toks| - 1 {
      OccursSome(toks[..|toks| - 1], i);
    }
  }

  lemma BlBuilt(lit: seq<nat>, dist: seq<nat>, freq: seq<nat>, bfc: seq<nat>, bdl: seq<nat>, maxBl: nat)
    requires ValidLens(lit) && ValidLens(dist) && |freq| == BL_CODES
    requires forall i :: 0 <= i < BL_CODES ==> freq[i] == Occurs(Encode(lit) + Encode(dist), i)
    requires Coded(freq, bfc, bdl, maxBl, 7) && forall n :: maxBl < n < BL_CODES ==> bdl[n] == 0
    ensures BlTree(lit, dist, bfc, bdl, maxBl)
    ensures SumTo(maxBl + 1, Cost(freq, bdl[..maxBl + 1], BlDesc()))
         == |ClBits(bdl[..maxBl + 1], Encode(lit))| + |ClBits(bdl[..maxBl + 1], Encode(dist))|
  {
    hide Encode, Kraft, Huff, Cost, SumTo, Code, CodesFor, Covers, HasCodes, HasCode, ClBits, Occurs, ClToken.Fits, Expand;
    CodedCodes(freq, bfc, bdl, maxBl, 7);
    RoundTrip([], lit);
    RoundTrip([], dist);
    var bl, a, b := bdl[..maxBl + 1], Encode(lit), Encode(dist);
    TokensCoded(bl, freq, bfc, bdl, a + b);
    HasBoth(bl, bfc, bdl, a, b);
    TokensUsed(bl, bfc, bdl, a + b);
    ClCost(bl, a + b, freq, maxBl + 1);
    ClBitsConcat(bl, a, b);
  }

  lemma HasBoth(bl: seq<nat>, bfc: seq<nat>, bdl: seq<nat>, a: seq<ClToken>, b: seq<ClToken>)
    requires HasCodes(bl, bfc, bdl, a + b)
    ensures HasCodes(bl, bfc, bdl, a) && HasCodes(bl, bfc, bdl, b)
  {
    hide HasCode;
    forall i | 0 <= i < |a| ensures HasCode(bl, bfc, bdl, a[i].Symbol()) { assert (a + b)[i] == a[i]; }
    forall i | 0 <= i < |b| ensures HasCode(bl, bfc, bdl, b[i].Symbol()) { assert (a + b)[|a| + i] == b[i]; }
  }

  lemma TokensUsed(bl: seq<nat>, bfc: seq<nat>, bdl: seq<nat>, toks: seq<ClToken>)
    requires HasCodes(bl, bfc, bdl, toks)
    ensures forall i :: 0 <= i < |toks| ==> toks[i].Symbol() < |bl| && Used(bl, toks[i].Symbol())
  {
    hide Huff;
  }

  lemma TokensCoded(bl: seq<nat>, freq: seq<nat>, bfc: seq<nat>, bdl: seq<nat>, toks: seq<ClToken>)
    requires |freq| == BL_CODES && forall i :: 0 <= i < BL_CODES ==> freq[i] == Occurs(toks, i)
    requires CodesFor(freq, bl, bfc, bdl) && |bl| <= |bfc| && |bl| <= |bdl| && forall i :: 0 <= i < |toks| ==> toks[i].Fits()
    ensures HasCodes(bl, bfc, bdl, toks)
  {
    hide HasCode;
    forall i | 0 <= i < |toks|
      ensures HasCode(bl, bfc, bdl, toks[i].Symbol())
    {
      OccursSome(toks, i);
      assert toks[i].Fits();
    }
  }

  lemma TokAppended(toks: seq<Token>, now: seq<Token>, t: Token)
    requires AllValid(toks) && t.Valid() && |now| == |toks| + 1
    requires now[|toks|] == t && forall i :: 0 <= i < |toks| ==> now[i] == toks[i]
    ensures now == toks + [t] && AllValid(now)
    ensures LitSym(t) < L_CODES && LitFreqs(now) == LitFreqs(toks)[LitSym(t) := LitFreqs(toks)[LitSym(t)] + 1]
    ensures DistFreqs(now) == if t.Lit? then DistFreqs(toks)
              else DistFreqs(toks)[DistCode(t.dist - 1) := DistFreqs(toks)[DistCode(t.dist - 1)] + 1]
  {
    hide LitFreqs, DistFreqs, LitSym, DistCode, AllValid;
    assert now == toks + [t];
    assert now[..|now| - 1] == toks;
    ValidNext(toks, t);
    FreqsNext(now);
  }

  lemma ValidNext(toks: seq<Token>, t: Token)
    requires AllValid(toks) && t.Valid()
    ensures AllValid(toks + [t])
  {
  }

  lemma Bumped(f: seq<nat>, k: nat, n: nat)
    requires n < k <= |f|
    ensures f[n := f[n] + 1][..k] == f[..k][n := f[..k][n] + 1]
  {
  }
}
