/** compress_block: sending the tallied literals and matches of a block. */
module BlockData {
  import opened Bits
  import opened Canonical
  import opened HuffBits
  import opened Tokens
  import opened BitOutput
  import opened CodeLengths
  import opened BlockBits
  import opened StaticTrees
  import opened BitLengths

  /** A tallied pair: distance zero marks a literal, otherwise lc is the length - 3. */
  function TokenAt(dist: nat, lc: nat): Token {
    if dist == 0 then Lit(lc) else Match(lc + MIN_MATCH, dist)
  }

  function TokensOf(dBuf: seq<nat>, lBuf: seq<nat>, n: nat): (s: seq<Token>)
    requires n <= |dBuf| && n <= |lBuf|
    ensures |s| == n
  {
    seq(n, i requires 0 <= i < n => TokenAt(dBuf[i], lBuf[i]))
  }

  /** The code of every symbol with a frequency is in the arrays. */
  ghost predicate CodesFor(freq: seq<nat>, lens: seq<nat>, fc: seq<nat>, dl: seq<nat>) {
    forall n: nat :: n < |freq| && freq[n] != 0 ==> HasCode(lens, fc, dl, n)
  }

  lemma LitSymBound(t: Token)
    requires t.Valid()
    ensures LitSym(t) < L_CODES
  {
  }

  /** The symbols of the i-th token have frequencies, hence codes. */
  lemma {:induction false} TokenCounted(toks: seq<Token>, i: nat)
    requires AllValid(toks) && i < |toks|
    ensures LitSym(toks[i]) < L_CODES && LitFreqs(toks)[LitSym(toks[i])] > 0
    ensures toks[i].Match? ==> DistFreqs(toks)[DistCode(toks[i].dist - 1)] > 0
  {
    hide LitFreqs, DistFreqs, DistCode, LitSym;
    LitSymBound(toks[i]);
    FreqsGrow(toks);
    if i < |toks| - 1 {
      TokenCounted(toks[..|toks| - 1], i);
      assert toks[..|toks| - 1][i] == toks[i];
    }
  }

  lemma {:induction false} EndCounted(toks: seq<Token>)
    requires AllValid(toks)
    ensures LitFreqs(toks)[END_BLOCK] > 0
  {
    hide LenCode;
    if toks != [] {
      EndCounted(toks[..|toks| - 1]);
      FreqsGrow(toks);
    }
  }

  lemma DataBitsNext(lit: seq<nat>, dist: seq<nat>, toks: seq<Token>, i: nat)
    requires AllValid(toks) && i < |toks|
    ensures DataBits(lit, dist, toks[..i + 1]) == DataBits(lit, dist, toks[..i]) + TokenBits(lit, dist, toks[i])
  {
    assert toks[..i + 1][..i] == toks[..i];
  }

  /** Values that send_bits gets as extra bits fit them. */
  lemma LenExtraFits(len: nat)
    requires MIN_MATCH <= len <= MAX_MATCH
    ensures var c := LenCode(len - MIN_MATCH);
      && EXTRA_LBITS[c] <= 5 && (EXTRA_LBITS[c] != 0 ==> c < 28 && LenBase(len) == Base(EXTRA_LBITS, c))
      && len - MIN_MATCH - LenBase(len) < Pow2(EXTRA_LBITS[c])
  {
    hide EXTRA_LBITS, Pow2, Base;
    Sizes();
    var lc := len - MIN_MATCH;
    var c := LenCode(lc);
    ExtrasSmall(c);
    LastLenExtra();
    if lc != 255 {
      BaseEnds();
      BaseNext(EXTRA_LBITS, c);
    }
  }

  lemma ExtrasSmall(c: nat)
    requires c < LENGTH_CODES
    ensures EXTRA_LBITS[c] <= 5
  {
  }

  lemma LastLenExtra()
    ensures EXTRA_LBITS[28] == 0 && Pow2(0) == 1
  {
  }

  lemma DistExtraFits(d: nat)
    requires 1 <= d <= 32768
    ensures var c := DistCode(d - 1);
      EXTRA_DBITS[c] <= 13 && Base(EXTRA_DBITS, c) <= d - 1 && d - 1 - Base(EXTRA_DBITS, c) < Pow2(EXTRA_DBITS[c])
  {
    Sizes();
    DistExtrasSmall(DistCode(d - 1));
    hide EXTRA_DBITS, DistCode, Pow2, Base;
    CodeTop(d - 1);
    BaseNext(EXTRA_DBITS, DistCode(d - 1));
  }

  lemma DistExtrasSmall(c: nat)
    requires c < D_CODES
    ensures EXTRA_DBITS[c] <= 13
  {
  }

  /** What the static tables say about a length, and the bits it takes. */
  lemma LengthEntry(t: StaticTables, lc: nat)
    requires t.Right() && lc < 256
    ensures var c := LenCode(lc);
      && |t.lengthCode| == 256 && t.lengthCode[lc] == c < LENGTH_CODES == |EXTRA_LBITS| == |t.baseLength|
      && EXTRA_LBITS[c] <= 16
      && if EXTRA_LBITS[c] == 0 then LenExtra(lc + MIN_MATCH) == []
         else
           && t.baseLength[c] <= lc && lc - t.baseLength[c] < Pow2(EXTRA_LBITS[c])
           && LenExtra(lc + MIN_MATCH) == ToBits(lc - t.baseLength[c], EXTRA_LBITS[c])
  {
    hide LenCode, Base, EXTRA_LBITS, Pow2, ToBits, DCode, FixedLit, FixedDist, Huff;
    Sizes();
    LenExtraFits(lc + MIN_MATCH);
  }

  /** What the static tables say about a distance, and the bits it takes. */
  lemma DistEntry(t: StaticTables, dist: nat)
    requires t.Right() && 1 <= dist <= 32768
    ensures var c := DistCode(dist - 1);
      && |t.distCode| == 512 && DCode(t.distCode, dist - 1) == c < D_CODES == |EXTRA_DBITS| == |t.baseDist|
      && EXTRA_DBITS[c] <= 16 && t.baseDist[c] <= dist - 1 && dist - 1 - t.baseDist[c] < Pow2(EXTRA_DBITS[c])
      && DistExtra(dist) == ToBits(dist - 1 - t.baseDist[c], EXTRA_DBITS[c])
  {
    hide DistCode, Base, EXTRA_DBITS, Pow2, ToBits, DCode, FixedLit, FixedDist, Huff;
    Sizes();
    DistExtraFits(dist);
  }

  /** Send the length code and the extra length bits. */
  method SendLength(w: BitWriter, t: StaticTables, lc0: nat, lCode: seq<nat>, lLen: seq<nat>, ghost lit: seq<nat>)
    requires w.Valid() && t.Right() && lc0 < 256 && HasCode(lit, lCode, lLen, LITERALS + 1 + LenCode(lc0))
    modifies w
    ensures w.Valid()
    ensures w.Sent() == old(w.Sent()) + SymBits(lit, LITERALS + 1 + LenCode(lc0)) + LenExtra(lc0 + MIN_MATCH)
  {
    hide Code, ToBits, Pow2, LenCode, EXTRA_LBITS, StaticTables.Right, LenExtra, HasCode, SymBits;
    LengthEntry(t, lc0);
    LitBits(lit, [], LITERALS + 1 + LenCode(lc0), lCode, lLen);
    var lc := lc0;
    var code := t.lengthCode[lc];
    SendCode(w, lCode, lLen, code + LITERALS + 1, lit);
    var extra := EXTRA_LBITS[code];
    if extra != 0 {
      lc := lc - t.baseLength[code];
      w.SendBits(lc, extra);
    }
  }

  /** Send the distance code and the extra distance bits. */
  method SendDistance(w: BitWriter, t: StaticTables, dist0: nat, dCode: seq<nat>, dLen: seq<nat>, ghost dl: seq<nat>)
    requires w.Valid() && t.Right() && 1 <= dist0 <= 32768 && HasCode(dl, dCode, dLen, DistCode(dist0 - 1))
    modifies w
    ensures w.Valid() && w.Sent() == old(w.Sent()) + SymBits(dl, DistCode(dist0 - 1)) + DistExtra(dist0)
  {
    hide Code, ToBits, Pow2, DistCode, EXTRA_DBITS, StaticTables.Right, DistExtra, HasCode, SymBits, DCode;
    DistEntry(t, dist0);
    LitBits(dl, [], DistCode(dist0 - 1), dCode, dLen);
    var dist := dist0 - 1;
    var code := DCode(t.distCode, dist);
    SendCode(w, dCode, dLen, code, dl);
    var extra := EXTRA_DBITS[code];
    if extra != 0 {
      dist := dist - t.baseDist[code];
      w.SendBits(dist, extra);
    } else {
      NoExtra(w.Sent(), dist - t.baseDist[code]);
    }
  }

  lemma NoExtra(s: seq<bool>, v: nat)
    ensures s + ToBits(v, 0) == s
  {
  }

  /** Send a match: length code, extra bits, distance code, extra bits. */
  method SendMatch(w: BitWriter, t: StaticTables, dist: nat, lc: nat,
                   lCode: seq<nat>, lLen: seq<nat>, dCode: seq<nat>, dLen: seq<nat>, ghost lit: seq<nat>, ghost dl: seq<nat>)
    requires w.Valid() && t.Right() && 1 <= dist <= 32768 && lc < 256
    requires HasCode(lit, lCode, lLen, LITERALS + 1 + LenCode(lc)) && HasCode(dl, dCode, dLen, DistCode(dist - 1))
    modifies w
    ensures w.Valid() && w.Sent() == old(w.Sent()) + TokenBits(lit, dl, Match(lc + MIN_MATCH, dist))
  {
    hide Code, ToBits, Pow2, LenCode, DistCode, Base, SymBits, LenExtra, DistExtra, Huff, HasCode, TokenBits;
    ghost var sent := w.Sent();
    SendLength(w, t, lc, lCode, lLen, lit);
    SendDistance(w, t, dist, dCode, dLen, dl);
    MatchBits(sent, w.Sent(), lit, dl, Match(lc + MIN_MATCH, dist));
  }

  lemma MatchBits(sent: seq<bool>, now: seq<bool>, lit: seq<nat>, dl: seq<nat>, m: Token)
    requires m.Valid() && m.Match?
    requires now == ((sent + SymBits(lit, LitSym(m))) + LenExtra(m.len)) + SymBits(dl, DistCode(m.dist - 1)) + DistExtra(m.dist)
    ensures now == sent + TokenBits(lit, dl, m)
  {
    hide SymBits, LenExtra, DistExtra, LitSym, DistCode;
  }

  /** Send the block data compressed using the given Huffman trees. */
  method CompressBlock(w: BitWriter, t: StaticTables, dBuf: array<nat>, lBuf: array<nat>, lastLit: nat,
                       lCode: seq<nat>, lLen: seq<nat>, dCode: seq<nat>, dLen: seq<nat>,
                       ghost lit: seq<nat>, ghost dist: seq<nat>, ghost toks: seq<Token>)
    requires w.Valid() && t.Right() && lastLit <= dBuf.Length && lastLit <= lBuf.Length
    requires toks == TokensOf(dBuf[..], lBuf[..], lastLit) && AllValid(toks)
    requires CodesFor(LitFreqs(toks), lit, lCode, lLen) && CodesFor(DistFreqs(toks), dist, dCode, dLen)
    modifies w
    ensures w.Valid() && w.Sent() == old(w.Sent()) + DataBits(lit, dist, toks) + SymBits(lit, END_BLOCK)
  {
    hide LitFreqs, DistFreqs, TokenBits, DataBits, HasCode, Code, DistCode, LenCode;
    ghost var sent := w.Sent();
    DataBitsNone(lit, dist);
    EndCounted(toks);
    var lx := 0;
    while lx < lastLit
      invariant lx <= lastLit && w.Valid() && w.Sent() == sent + DataBits(lit, dist, toks[..lx])
    {
      TokenCounted(toks, lx);
      DataBitsNext(lit, dist, toks, lx);
      Glue(sent, DataBits(lit, dist, toks[..lx]), TokenBits(lit, dist, toks[lx]));
      var d, lc := dBuf[lx], lBuf[lx];
      assert toks[lx] == TokenAt(d, lc) && toks[lx].Valid();
      lx := lx + 1;
      if d == 0 {
        SendCode(w, lCode, lLen, lc, lit);
        LitBits(lit, dist, lc, lCode, lLen);
      } else {
        SendMatch(w, t, d, lc, lCode, lLen, dCode, dLen, lit, dist);
      }
    }
    assert toks[..lastLit] == toks;
    SendCode(w, lCode, lLen, END_BLOCK, lit);
    LitBits(lit, dist, END_BLOCK, lCode, lLen);
  }

  lemma LitBits(lit: seq<nat>, dist: seq<nat>, b: nat, fc: seq<nat>, dl: seq<nat>)
    requires HasCode(lit, fc, dl, b)
    ensures SymBits(lit, b) == Code(lit, b) && (b < 256 ==> TokenBits(lit, dist, Lit(b)) == Code(lit, b))
  {
  }

  lemma DataBitsNone(lit: seq<nat>, dist: seq<nat>)
    ensures DataBits(lit, dist, []) == [] && forall s: seq<bool> :: s + [] == s
  {
  }
}
