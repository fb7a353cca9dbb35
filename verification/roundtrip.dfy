/** What the compressor sends decodes to what it was given: every block leads the
    decoding machine from one block boundary to the next. */
module RoundTrips {
  import opened Bits
  import opened Canonical
  import opened HuffBits
  import opened DecodingTables
  import opened SymbolDecoding
  import opened CodeLengths
  import opened BitOutput
  import opened Tokens
  import opened BlockBits
  import opened InflateSpec
  import opened BlockTrees
  import BitLengths
  import EnoughEntries
  import BlockData
  import TreeShape
  import StaticTrees

  /** The input continues with these bits. */
  ghost predicate At(input: seq<bool>, pos: nat, bits: seq<bool>) {
    pos <= |input| && bits <= input[pos..]
  }

  lemma AtParts(input: seq<bool>, pos: nat, a: seq<bool>, b: seq<bool>)
    ensures At(input, pos, a + b) <==> At(input, pos, a) && At(input, pos + |a|, b)
  {
    if At(input, pos, a + b) {
      assert a == (a + b)[..|a|];
      assert input[pos + |a|..] == input[pos..][|a|..];
      assert b == (a + b)[|a|..];
    }
    if At(input, pos, a) && At(input, pos + |a|, b) {
      assert input[pos + |a|..] == input[pos..][|a|..];
    }
  }

  /** Reading back a number that was sent. */
  lemma ReadBack(input: seq<bool>, pos: nat, v: nat, n: nat)
    requires At(input, pos, ToBits(v, n)) && v < Pow2(n)
    ensures n <= |input[pos..]| && Lsb(input[pos..][..n]) == v
  {
    assert input[pos..][..n] == ToBits(v, n);
    LsbToBits(v, n);
    LowSmall(v, n);
  }

  /** A match is copied byte by byte. */
  lemma {:induction false} MatchLeads(input: seq<bool>, last: bool, codes: Codes, len: nat, dist: nat, pos: nat, out: seq<nat>)
    requires 1 <= len && 1 <= dist <= |out| && pos <= |input|
    ensures Leads(input, Config(MatchOut(last, codes, len, dist), pos, out), Config(LenSym(last, codes), pos, CopyBack(out, len, dist)))
    decreases len
  {
    hide *;
    var c := Config(MatchOut(last, codes, len, dist), pos, out);
    var out' := out + [out[|out| - dist]];
    var d := Config(if len == 1 then LenSym(last, codes) else MatchOut(last, codes, len - 1, dist), pos, out');
    CopyMove(input, last, codes, len, dist, pos, out);
    LeadsSelf(input, c);
    LeadsMove(input, c, c, d);
    CopyBackStep(out, len, dist);
    if len == 1 {
      CopyBackNone(out', dist);
    } else {
      MatchLeads(input, last, codes, len - 1, dist, pos, out');
      LeadsOn(input, c, d, Config(LenSym(last, codes), pos, CopyBack(out, len, dist)));
    }
  }

  lemma CopyMove(input: seq<bool>, last: bool, codes: Codes, len: nat, dist: nat, pos: nat, out: seq<nat>)
    requires 1 <= len && 1 <= dist <= |out| && pos <= |input|
    ensures Move(input, Config(MatchOut(last, codes, len, dist), pos, out)) ==
      Moved(Config(if len == 1 then LenSym(last, codes) else MatchOut(last, codes, len - 1, dist), pos, out + [out[|out| - dist]]))
  {
  }

  lemma CopyBackStep(out: seq<nat>, len: nat, dist: nat)
    requires 1 <= dist <= |out| && len >= 1
    ensures CopyBack(out, len, dist) == CopyBack(out + [out[|out| - dist]], len - 1, dist)
  {
  }

  lemma CopyBackNone(out: seq<nat>, dist: nat)
    requires 1 <= dist <= |out|
    ensures CopyBack(out, 0, dist) == out
  {
  }

  lemma SymLeads(input: seq<bool>, c: Config, lens: seq<nat>, n: nat)
    requires c.pos <= |input| && Kraft(lens) <= UNIT && Used(lens, n) && At(input, c.pos, Code(lens, n))
    ensures DecodeStep(lens, input[c.pos..]) == Sym(n)
  {
    StepSym(lens, input[c.pos..], n);
  }

  /** A literal's code leads to its byte. */
  lemma LitLeads(input: seq<bool>, c: Config, b: nat)
    requires c.p.LenSym? && Kraft(c.p.codes.lit) <= UNIT && b < 256 && Used(c.p.codes.lit, b)
    requires At(input, c.pos, Code(c.p.codes.lit, b))
    ensures Leads(input, c, Config(c.p, c.pos + |Code(c.p.codes.lit, b)|, c.out + [b]))
  {
    hide Code, Kraft, Iter;
    SymLeads(input, c, c.p.codes.lit, b);
    var d := Config(LitOut(c.p.last, c.p.codes, b), c.pos + c.p.codes.lit[b], c.out);
    var e := Config(c.p, c.pos + c.p.codes.lit[b], c.out + [b]);
    assert c.out + [] == c.out;
    assert Move(input, c) == Moved(d);
    assert Move(input, d) == Moved(e);
    hide Move;
    LeadsSelf(input, c);
    LeadsMove(input, c, c, d);
    LeadsMove(input, c, d, e);
  }

  /** The end-of-block code leads to the next block. */
  lemma EndLeads(input: seq<bool>, c: Config)
    requires c.p.LenSym? && Kraft(c.p.codes.lit) <= UNIT && Used(c.p.codes.lit, 256)
    requires At(input, c.pos, Code(c.p.codes.lit, 256))
    ensures Leads(input, c, Config(Block(c.p.last), c.pos + |Code(c.p.codes.lit, 256)|, c.out))
  {
    hide Code, Kraft, Iter;
    SymLeads(input, c, c.p.codes.lit, 256);
    var d := Config(Block(c.p.last), c.pos + c.p.codes.lit[256], c.out);
    assert c.out + [] == c.out;
    assert Move(input, c) == Moved(d);
    hide Move;
    LeadsSelf(input, c);
    LeadsMove(input, c, c, d);
  }

  /** What the decoder's table says about a length agrees with the encoder's extra bits. */
  lemma LenEntry(len: nat) returns (n: nat, v: nat, e: nat)
    requires MIN_MATCH <= len <= MAX_MATCH
    ensures n == LitSym(Match(len, 1)) && 257 <= n < 286 && LBASE[n - 257] + v == len && LEXT[n - 257] == 16 + e
    ensures e <= 5 && v < Pow2(e) && LenExtra(len) == ToBits(v, e)
  {
    hide LBASE, LEXT, EXTRA_LBITS, LenCode, Base, Pow2, ToBits;
    BlockData.LenExtraFits(len);
    Sizes();
    var c := LenCode(len - MIN_MATCH);
    n, v, e := LITERALS + 1 + c, len - MIN_MATCH - LenBase(len), EXTRA_LBITS[c];
    if c == 28 {
      LastLen(len);
    } else {
      LengthBase(c);
    }
  }

  lemma LastLen(len: nat)
    requires MIN_MATCH <= len <= MAX_MATCH && LenCode(len - MIN_MATCH) == 28
    ensures len == 258 && LBASE[28] == 258 && LEXT[28] == 16 && EXTRA_LBITS[28] == 0
  {
  }

  lemma DistEntry(d: nat) returns (n: nat, v: nat, e: nat)
    requires 1 <= d <= 32768
    ensures n == DistCode(d - 1) < 30 && DBASE[n] + v == d && DEXT[n] == 16 + e
    ensures e <= 13 && v < Pow2(e) && DistExtra(d) == ToBits(v, e)
  {
    n := DistCode(d - 1);
    BlockData.DistExtraFits(d);
    Sizes();
    DistBase(n);
    hide DBASE, DEXT, EXTRA_DBITS, DistCode, Base, Pow2;
    v, e := d - 1 - Base(EXTRA_DBITS, n), EXTRA_DBITS[n];
  }

  lemma LenSymMove(input: seq<bool>, last: bool, codes: Codes, pos: nat, out: seq<nat>, n: nat, e: nat)
    requires Kraft(codes.lit) <= UNIT && Used(codes.lit, n) && 257 <= n < 286
    requires At(input, pos, Code(codes.lit, n)) && LEXT[n - 257] == 16 + e
    ensures Move(input, Config(LenSym(last, codes), pos, out))
         == Moved(Config(LenExt(last, codes, LBASE[n - 257], e), pos + codes.lit[n], out))
  {
    TableSizes();
    hide Code, Kraft, LBASE, LEXT;
    SymLeads(input, Config(LenSym(last, codes), pos, out), codes.lit, n);
    assert out + [] == out;
  }

  lemma LenExtMove(input: seq<bool>, last: bool, codes: Codes, base: nat, e: nat, pos: nat, out: seq<nat>, v: nat)
    requires At(input, pos, ToBits(v, e)) && v < Pow2(e)
    ensures Move(input, Config(LenExt(last, codes, base, e), pos, out)) == Moved(Config(DistSym(last, codes, base + v), pos + e, out))
  {
    hide Pow2, ToBits, Lsb;
    ReadBack(input, pos, v, e);
    assert out + [] == out;
  }

  lemma DistSymMove(input: seq<bool>, last: bool, codes: Codes, len: nat, pos: nat, out: seq<nat>, n: nat, e: nat)
    requires Kraft(codes.dist) <= UNIT && Used(codes.dist, n) && n < 30
    requires At(input, pos, Code(codes.dist, n)) && DEXT[n] == 16 + e
    ensures Move(input, Config(DistSym(last, codes, len), pos, out))
         == Moved(Config(DistExt(last, codes, len, DBASE[n], e), pos + codes.dist[n], out))
  {
    TableSizes();
    hide Code, Kraft, DBASE, DEXT;
    SymLeads(input, Config(DistSym(last, codes, len), pos, out), codes.dist, n);
    assert out + [] == out;
  }

  lemma DistExtMove(input: seq<bool>, last: bool, codes: Codes, len: nat, base: nat, e: nat, pos: nat, out: seq<nat>, v: nat)
    requires At(input, pos, ToBits(v, e)) && v < Pow2(e)
    ensures Move(input, Config(DistExt(last, codes, len, base, e), pos, out))
         == Moved(Config(MatchOut(last, codes, len, base + v), pos + e, out))
  {
    hide Pow2, ToBits, Lsb;
    ReadBack(input, pos, v, e);
    assert out + [] == out;
  }

  lemma TwoMoves(input: seq<bool>, c: Config, d: Config, e: Config)
    requires Move(input, c) == Moved(d) && Move(input, d) == Moved(e)
    ensures Leads(input, c, e)
  {
    hide Move;
    LeadsSelf(input, c);
    LeadsMove(input, c, c, d);
    LeadsMove(input, c, d, e);
  }

  /** A length code and its extra bits lead to the length. */
  lemma LengthLeads(input: seq<bool>, last: bool, codes: Codes, pos: nat, out: seq<nat>, len: nat, n: nat)
    requires Kraft(codes.lit) <= UNIT && MIN_MATCH <= len <= MAX_MATCH && n == LitSym(Match(len, 1))
    requires Used(codes.lit, n) && At(input, pos, Code(codes.lit, n)) && At(input, pos + codes.lit[n], LenExtra(len))
    ensures Leads(input, Config(LenSym(last, codes), pos, out),
                  Config(DistSym(last, codes, len), pos + codes.lit[n] + |LenExtra(len)|, out))
  {
    TableSizes();
    hide Code, Kraft, Leads, LBASE, LEXT, LenExtra, LitSym, Pow2, Move, ToBits, At;
    var m, v, e := LenEntry(len);
    LenSymMove(input, last, codes, pos, out, n, e);
    LenExtMove(input, last, codes, LBASE[n - 257], e, pos + codes.lit[n], out, v);
    TwoMoves(input, Config(LenSym(last, codes), pos, out), Config(LenExt(last, codes, LBASE[n - 257], e), pos + codes.lit[n], out),
             Config(DistSym(last, codes, len), pos + codes.lit[n] + e, out));
  }

  /** A distance code and its extra bits lead to the copy. */
  lemma DistanceLeads(input: seq<bool>, last: bool, codes: Codes, len: nat, pos: nat, out: seq<nat>, dist: nat, n: nat)
    requires Kraft(codes.dist) <= UNIT && 1 <= dist <= 32768 && n == DistCode(dist - 1)
    requires Used(codes.dist, n) && At(input, pos, Code(codes.dist, n)) && At(input, pos + codes.dist[n], DistExtra(dist))
    ensures Leads(input, Config(DistSym(last, codes, len), pos, out),
                  Config(MatchOut(last, codes, len, dist), pos + codes.dist[n] + |DistExtra(dist)|, out))
  {
    TableSizes();
    hide Code, Kraft, Leads, DBASE, DEXT, DistExtra, DistCode, Pow2, Move, ToBits, At;
    var m, v, e := DistEntry(dist);
    DistSymMove(input, last, codes, len, pos, out, n, e);
    DistExtMove(input, last, codes, len, DBASE[n], e, pos + codes.dist[n], out, v);
    TwoMoves(input, Config(DistSym(last, codes, len), pos, out), Config(DistExt(last, codes, len, DBASE[n], e), pos + codes.dist[n], out),
             Config(MatchOut(last, codes, len, dist), pos + codes.dist[n] + e, out));
  }

  lemma MatchSplit(input: seq<bool>, lit: seq<nat>, dl: seq<nat>, pos: nat, len: nat, dist: nat)
    requires MIN_MATCH <= len <= MAX_MATCH && 1 <= dist <= 32768
    requires Used(lit, LitSym(Match(len, dist))) && Used(dl, DistCode(dist - 1)) && At(input, pos, TokenBits(lit, dl, Match(len, dist)))
    ensures var n, m := LitSym(Match(len, dist)), DistCode(dist - 1); var q := pos + lit[n] + |LenExtra(len)|;
      && n == LitSym(Match(len, 1)) && At(input, pos, Code(lit, n)) && At(input, pos + lit[n], LenExtra(len))
      && At(input, q, Code(dl, m)) && At(input, q + dl[m], DistExtra(dist))
      && |TokenBits(lit, dl, Match(len, dist))| == lit[n] + |LenExtra(len)| + dl[m] + |DistExtra(dist)|
      && pos + |TokenBits(lit, dl, Match(len, dist))| <= |input|
  {
    hide At, Code, LenExtra, DistExtra, LenCode, DistCode;
    var a, x, b, y := SymBits(lit, LitSym(Match(len, dist))), LenExtra(len), SymBits(dl, DistCode(dist - 1)), DistExtra(dist);
    AtParts(input, pos, a + x + b, y);
    AtParts(input, pos, a + x, b);
    AtParts(input, pos, a, x);
    AtInside(input, pos, a + x + b + y);
  }

  /** A match's bits lead to its copy. */
  lemma MatchTokenLeads(input: seq<bool>, last: bool, codes: Codes, pos: nat, out: seq<nat>, len: nat, dist: nat)
    requires Kraft(codes.lit) <= UNIT && Kraft(codes.dist) <= UNIT && MIN_MATCH <= len <= MAX_MATCH && 1 <= dist <= 32768
    requires Used(codes.lit, LitSym(Match(len, dist))) && Used(codes.dist, DistCode(dist - 1)) && dist <= |out|
    requires At(input, pos, TokenBits(codes.lit, codes.dist, Match(len, dist)))
    ensures Leads(input, Config(LenSym(last, codes), pos, out),
                  Config(LenSym(last, codes), pos + |TokenBits(codes.lit, codes.dist, Match(len, dist))|, CopyBack(out, len, dist)))
  {
    hide *;
    LimitFacts(len);
    var n, m := LitSym(Match(len, dist)), DistCode(dist - 1);
    UsedIn(codes.lit, n);
    UsedIn(codes.dist, m);
    MatchSplit(input, codes.lit, codes.dist, pos, len, dist);
    LengthLeads(input, last, codes, pos, out, len, n);
    var c, d := Config(LenSym(last, codes), pos, out), Config(DistSym(last, codes, len), pos + codes.lit[n] + |LenExtra(len)|, out);
    DistanceLeads(input, last, codes, len, d.pos, out, dist, m);
    var e := Config(MatchOut(last, codes, len, dist), d.pos + codes.dist[m] + |DistExtra(dist)|, out);
    MatchLeads(input, last, codes, len, dist, e.pos, out);
    LeadsOn(input, c, d, e);
    LeadsOn(input, c, e, Config(LenSym(last, codes), e.pos, CopyBack(out, len, dist)));
  }

  lemma LimitFacts(len: nat)
    ensures MIN_MATCH == 3 && MAX_MATCH == 258
  {
  }

  /** The bits of a token lead to what the token stands for. */
  lemma TokenLeads(input: seq<bool>, last: bool, codes: Codes, pos: nat, out: seq<nat>, t: Token)
    requires Kraft(codes.lit) <= UNIT && Kraft(codes.dist) <= UNIT && t.Valid() && Follows(out, t)
    requires Used(codes.lit, LitSym(t)) && (t.Match? ==> Used(codes.dist, DistCode(t.dist - 1)))
    requires At(input, pos, TokenBits(codes.lit, codes.dist, t))
    ensures Leads(input, Config(LenSym(last, codes), pos, out),
                  Config(LenSym(last, codes), pos + |TokenBits(codes.lit, codes.dist, t)|, ReplayOne(out, t)))
  {
    hide Code, Kraft, Leads, LenExtra, DistExtra, DistCode, LenCode, CopyBack, At;
    match t {
      case Lit(b) => LitLeads(input, Config(LenSym(last, codes), pos, out), b);
      case Match(len, dist) => MatchTokenLeads(input, last, codes, pos, out, len, dist);
    }
  }

  /** A block's data leads to the replay of its tokens. */
  lemma {:induction false} DataLeads(input: seq<bool>, c: Config, toks: seq<Token>)
    requires c.p.LenSym? && Kraft(c.p.codes.lit) <= UNIT && Kraft(c.p.codes.dist) <= UNIT && AllValid(toks) && c.pos <= |input|
    requires Covers(LitFreqs(toks), c.p.codes.lit) && Covers(DistFreqs(toks), c.p.codes.dist)
    requires At(input, c.pos, DataBits(c.p.codes.lit, c.p.codes.dist, toks)) && Replay(c.out, toks).Replayed?
    ensures Leads(input, c, Config(c.p, c.pos + |DataBits(c.p.codes.lit, c.p.codes.dist, toks)|, Replay(c.out, toks).out))
  {
    hide Kraft, Leads, TokenBits, Follows, ReplayOne, LitFreqs, DistFreqs, LitSym, DistCode;
    if toks == [] {
      LeadsSelf(input, c);
    } else {
      var init, t := toks[..|toks| - 1], toks[|toks| - 1];
      var lit, dl := c.p.codes.lit, c.p.codes.dist;
      FreqsGrow(toks);
      CoversLess(LitFreqs(init), LitFreqs(toks), lit);
      CoversLess(DistFreqs(init), DistFreqs(toks), dl);
      AtParts(input, c.pos, DataBits(lit, dl, init), TokenBits(lit, dl, t));
      DataLeads(input, c, init);
      var d := Config(c.p, c.pos + |DataBits(lit, dl, init)|, Replay(c.out, init).out);
      BlockData.LitSymBound(t);
      TokenLeads(input, c.p.last, c.p.codes, d.pos, d.out, t);
      LeadsOn(input, c, d, Config(c.p, d.pos + |TokenBits(lit, dl, t)|, ReplayOne(d.out, t)));
    }
  }

  // ---- the header of a dynamic block ----

  /** The code-length code as the decoder sees it: all 19 lengths. */
  function Padded(bl: seq<nat>): (r: seq<nat>)
    requires |bl| <= BL_CODES
    ensures |r| == BL_CODES
  {
    bl + Repeat(0, BL_CODES - |bl|)
  }

  lemma PaddedCount(bl: seq<nat>, l: nat)
    requires |bl| <= BL_CODES && l >= 1
    ensures Count(Padded(bl), l) == Count(bl, l)
  {
    TreeShape.CountConcat(bl, Repeat(0, BL_CODES - |bl|), l);
    StaticTrees.CountRepeat(0, BL_CODES - |bl|, l);
  }

  lemma {:induction false} PaddedStarts(bl: seq<nat>, l: nat)
    requires |bl| <= BL_CODES && l <= MAXBITS + 1
    ensures StartOf(Padded(bl), l) == StartOf(bl, l) && FirstCode(Padded(bl), l) == FirstCode(bl, l)
  {
    hide Padded;
    if l > 1 {
      PaddedStarts(bl, l - 1);
      PaddedCount(bl, l - 1);
    }
  }

  /** Symbols without codes at the end change no code. */
  lemma PaddedCode(bl: seq<nat>, n: nat)
    requires |bl| <= BL_CODES && Used(bl, n)
    ensures Used(Padded(bl), n) && Code(Padded(bl), n) == Code(bl, n) && Padded(bl)[n] == bl[n]
  {
    PaddedStarts(bl, bl[n]);
    assert Padded(bl)[..n] == bl[..n];
  }

  /** The code-length code lengths in the order of transmission. */
  function Sent(bl: seq<nat>, k: nat): (s: seq<nat>)
    requires k <= BL_CODES
    ensures |s| == k
  {
    if k == 0 then [] else Sent(bl, k - 1) + [LenOrZero(bl, BL_ORDER[k - 1])]
  }

  lemma {:induction false} SentAt(bl: seq<nat>, k: nat, r: nat)
    requires r < k <= BL_CODES == |BL_ORDER|
    ensures Sent(bl, k)[r] == LenOrZero(bl, BL_ORDER[r])
  {
    hide BL_ORDER;
    if r < k - 1 { SentAt(bl, k - 1, r); }
  }

  lemma SameOrder()
    ensures ORDER == BL_ORDER && |BL_ORDER| == BL_CODES
  {
  }

  lemma UnorderSent(bl: seq<nat>, k: nat)
    requires |bl| <= BL_CODES && k <= BL_CODES == |BL_ORDER|
    requires forall r :: k <= r < BL_CODES ==> LenOrZero(bl, BL_ORDER[r]) == 0
    ensures Unorder(Sent(bl, k)) == Padded(bl)
  {
    SameOrder();
    hide BL_ORDER, ORDER, Sent;
    forall i | 0 <= i < BL_CODES
      ensures Unorder(Sent(bl, k))[i] == Padded(bl)[i]
    {
      if Rank(i) < k { SentAt(bl, k, Rank(i)); }
    }
  }

  lemma {:induction false} LenLensLeads(input: seq<bool>, last: bool, nlen: nat, ndist: nat, ncode: nat, bl: seq<nat>, pos: nat, out: seq<nat>, k: nat)
    requires k <= ncode <= BL_CODES && At(input, pos, ClLens(bl, k)) && forall n :: 0 <= n < |bl| ==> bl[n] <= 7
    ensures Leads(input, Config(LenLens(last, nlen, ndist, ncode, []), pos, out),
                  Config(LenLens(last, nlen, ndist, ncode, Sent(bl, k)), pos + 3 * k, out))
  {
    hide *;
    var c := Config(LenLens(last, nlen, ndist, ncode, []), pos, out);
    if k == 0 {
      SentNone(bl);
      LeadsSelf(input, c);
    } else {
      ClLensNext(input, pos, bl, k);
      LenLensLeads(input, last, nlen, ndist, ncode, bl, pos, out, k - 1);
      var d := Config(LenLens(last, nlen, ndist, ncode, Sent(bl, k - 1)), pos + 3 * (k - 1), out);
      LenLensNext(input, last, nlen, ndist, ncode, bl, d.pos, out, k);
      LeadsMove(input, c, d, Config(LenLens(last, nlen, ndist, ncode, Sent(bl, k)), pos + 3 * k, out));
    }
  }

  lemma SentNone(bl: seq<nat>)
    ensures Sent(bl, 0) == []
  {
  }

  lemma ClLensNext(input: seq<bool>, pos: nat, bl: seq<nat>, k: nat)
    requires 0 < k <= BL_CODES && At(input, pos, ClLens(bl, k))
    ensures k - 1 < |BL_ORDER| && At(input, pos, ClLens(bl, k - 1)) && At(input, pos + 3 * (k - 1), ToBits(LenOrZero(bl, BL_ORDER[k - 1]), 3))
  {
    AtParts(input, pos, ClLens(bl, k - 1), ToBits(LenOrZero(bl, BL_ORDER[k - 1]), 3));
    hide At, ToBits;
  }

  /** One more code-length code length. */
  lemma LenLensNext(input: seq<bool>, last: bool, nlen: nat, ndist: nat, ncode: nat, bl: seq<nat>, pos: nat, out: seq<nat>, k: nat)
    requires 0 < k <= ncode <= BL_CODES && k - 1 < |BL_ORDER| && At(input, pos, ToBits(LenOrZero(bl, BL_ORDER[k - 1]), 3))
    requires forall n :: 0 <= n < |bl| ==> bl[n] <= 7
    ensures Move(input, Config(LenLens(last, nlen, ndist, ncode, Sent(bl, k - 1)), pos, out))
         == Moved(Config(LenLens(last, nlen, ndist, ncode, Sent(bl, k)), pos + 3, out))
  {
    hide Pow2, Leads, Outcome, ToBits, BL_ORDER, At, Move, Sent;
    var x := LenOrZero(bl, BL_ORDER[k - 1]);
    ThreeBits();
    ReadBack(input, pos, x, 3);
    SentNext(bl, k);
    AtInside(input, pos, ToBits(x, 3));
    LenLensGo(input, last, nlen, ndist, ncode, Sent(bl, k - 1), pos, out);
  }

  lemma ThreeBits()
    ensures Pow2(3) == 8
  {
    Pow2Values();
  }

  lemma SentNext(bl: seq<nat>, k: nat)
    requires 0 < k <= BL_CODES && k - 1 < |BL_ORDER|
    ensures Sent(bl, k) == Sent(bl, k - 1) + [LenOrZero(bl, BL_ORDER[k - 1])] && |Sent(bl, k - 1)| == k - 1
  {
    hide BL_ORDER, LenOrZero;
  }

  lemma LenLensGo(input: seq<bool>, last: bool, nlen: nat, ndist: nat, ncode: nat, got: seq<nat>, pos: nat, out: seq<nat>)
    requires |got| < ncode && pos + 3 <= |input|
    ensures Move(input, Config(LenLens(last, nlen, ndist, ncode, got), pos, out))
         == Moved(Config(LenLens(last, nlen, ndist, ncode, got + [Lsb(input[pos..][..3])]), pos + 3, out))
  {
    hide Lsb, Outcome;
    assert out + [] == out;
  }

  /** One token of the compressed lengths. */
  lemma ClTokenMove(input: seq<bool>, p: Point, pos: nat, out: seq<nat>, bl: seq<nat>, t: ClToken, lens: seq<nat>)
    requires p.CodeLens? && |p.lens| < p.nlen + p.ndist && Kraft(p.bl) <= UNIT && t.Fits()
    requires Used(bl, t.Symbol()) && Used(p.bl, t.Symbol()) && Code(p.bl, t.Symbol()) == Code(bl, t.Symbol())
    requires At(input, pos, ClTokenBits(bl, t))
    requires ExpandOne(p.lens, t) == Lengths(lens) && |lens| <= p.nlen + p.ndist
    ensures Move(input, Config(p, pos, out)) == Moved(Config(p.(lens := lens), pos + |ClTokenBits(bl, t)|, out))
  {
    hide *;
    ClFacts(t);
    var n, e, v := t.Symbol(), t.ExtraBits(), t.ExtraValue();
    UsedIn(bl, n);
    UsedIn(p.bl, n);
    var len := p.bl[n];
    ClSplit(input, pos, bl, t);
    AtInside(input, pos, Code(bl, n));
    AtInside(input, pos + len, ToBits(v, e));
    SymLeads(input, Config(p, pos, out), p.bl, n);
    if n >= 16 {
      ReadBack(input, pos + len, v, e);
      assert input[pos..][len..len + e] == input[pos + len..][..e];
    }
    ClGo(input, p, pos, out, t, lens);
  }

  lemma UsedIn(lens: seq<nat>, n: nat)
    requires Used(lens, n)
    ensures n < |lens| && lens[n] >= 1 && |Code(lens, n)| == lens[n]
  {
    hide Code;
  }

  lemma ClSplit(input: seq<bool>, pos: nat, bl: seq<nat>, t: ClToken)
    requires t.Fits() && Used(bl, t.Symbol()) && At(input, pos, ClTokenBits(bl, t))
    ensures At(input, pos, Code(bl, t.Symbol())) && At(input, pos + |Code(bl, t.Symbol())|, ToBits(t.ExtraValue(), t.ExtraBits()))
    ensures |ClTokenBits(bl, t)| == |Code(bl, t.Symbol())| + t.ExtraBits()
  {
    hide Code, ToBits, At;
    AtParts(input, pos, Code(bl, t.Symbol()), ToBits(t.ExtraValue(), t.ExtraBits()));
  }

  lemma ClFacts(t: ClToken)
    requires t.Fits()
    ensures t.Symbol() < 19 && 0 <= t.ExtraValue() && (t.Symbol() >= 16 ==> t.ExtraValue() < Pow2(t.ExtraBits()))
  {
    Pow2Values();
  }

  /** The step on the bits of a token. */
  lemma ClGo(input: seq<bool>, p: Point, pos: nat, out: seq<nat>, t: ClToken, lens: seq<nat>)
    requires p.CodeLens? && |p.lens| < p.nlen + p.ndist && t.Fits() && t.Symbol() < |p.bl| && pos <= |input|
    requires DecodeStep(p.bl, input[pos..]) == Sym(t.Symbol())
    requires pos + p.bl[t.Symbol()] + t.ExtraBits() <= |input|
    requires t.Symbol() >= 16 ==> Lsb(input[pos..][p.bl[t.Symbol()]..p.bl[t.Symbol()] + t.ExtraBits()]) == t.ExtraValue()
    requires ExpandOne(p.lens, t) == Lengths(lens) && |lens| <= p.nlen + p.ndist
    ensures Move(input, Config(p, pos, out)) == Moved(Config(p.(lens := lens), pos + p.bl[t.Symbol()] + t.ExtraBits(), out))
  {
    hide DecodeStep, Outcome, Lsb, Pow2;
    assert out + [] == out;
  }

  lemma {:induction false} ClTokensLead(input: seq<bool>, p: Point, pos: nat, out: seq<nat>, bl: seq<nat>, toks: seq<ClToken>, acc: seq<nat>)
    requires p.CodeLens? && p.lens == [] && |bl| <= BL_CODES && p.bl == Padded(bl) && Kraft(p.bl) <= UNIT
    requires forall i :: 0 <= i < |toks| ==> toks[i].Fits() && Used(bl, toks[i].Symbol())
    requires At(input, pos, ClBits(bl, toks)) && Expand([], toks) == Lengths(acc) && |acc| <= p.nlen + p.ndist
    ensures Leads(input, Config(p, pos, out), Config(p.(lens := acc), pos + |ClBits(bl, toks)|, out))
  {
    hide Kraft, Leads, Move, ClTokenBits, Padded, Code, ExpandOne;
    if toks == [] {
      LeadsSelf(input, Config(p, pos, out));
    } else {
      var init, t := toks[..|toks| - 1], toks[|toks| - 1];
      AtParts(input, pos, ClBits(bl, init), ClTokenBits(bl, t));
      var a := Expand([], init).lens;
      Grows(a, t);
      ClTokensLead(input, p, pos, out, bl, init, a);
      var d := Config(p.(lens := a), pos + |ClBits(bl, init)|, out);
      PaddedCode(bl, t.Symbol());
      ClTokenMove(input, d.p, d.pos, out, bl, t, acc);
      LeadsMove(input, Config(p, pos, out), d, Config(p.(lens := acc), pos + |ClBits(bl, toks)|, out));
    }
  }

  lemma Grows(a: seq<nat>, t: ClToken)
    requires t.Fits() && ExpandOne(a, t).Lengths?
    ensures |a| < |ExpandOne(a, t).lens|
  {
  }

  /** inflate_table accepts the two codes of the block: their tables are not too large. */
  ghost predicate Accepted(kind: BlockKind) {
    kind.DynamicKind? ==> Outcome(LENS, kind.lit, 9) == 0 && Outcome(DISTS, kind.dist, 6) == 0
  }

  /** It always does. */
  lemma AlwaysAccepted(kind: BlockKind, toks: seq<Token>)
    requires kind.DynamicKind? ==> DynamicOk(kind, toks)
    ensures Accepted(kind)
  {
    hide Kraft, Outcome, Covers, LitFreqs, DistFreqs, Encode, AllValid;
    if kind.DynamicKind? {
      EnoughEntries.LensFit(kind.lit);
      EnoughEntries.DistsFit(kind.dist);
    }
  }

  lemma TableMove(input: seq<bool>, last: bool, pos: nat, out: seq<nat>, nlen: nat, ndist: nat, ncode: nat)
    requires 257 <= nlen <= 286 && 1 <= ndist <= 30 && 4 <= ncode <= 19
    requires At(input, pos, ToBits(nlen - 257, 5) + ToBits(ndist - 1, 5) + ToBits(ncode - 4, 4))
    ensures Move(input, Config(Table(last), pos, out)) == Moved(Config(LenLens(last, nlen, ndist, ncode, []), pos + 14, out))
  {
    Pow2Values();
    hide ToBits, Pow2;
    var a, b, c := ToBits(nlen - 257, 5), ToBits(ndist - 1, 5), ToBits(ncode - 4, 4);
    AtParts(input, pos, a + b, c);
    AtParts(input, pos, a, b);
    ReadBack(input, pos, nlen - 257, 5);
    ReadBack(input, pos + 5, ndist - 1, 5);
    ReadBack(input, pos + 10, ncode - 4, 4);
    assert input[pos..][5..10] == input[pos + 5..][..5];
    assert input[pos..][10..14] == input[pos + 10..][..4];
    assert out + [] == out;
  }

  /** The code-length code is never rejected. */
  lemma BlAccepted(bl: seq<nat>)
    requires |bl| <= BL_CODES && Kraft(bl) == UNIT
    ensures Outcome(CODES, Padded(bl), 7) == 0 && Kraft(Padded(bl)) == UNIT
  {
    PaddedStarts(bl, MAXBITS + 1);
  }

  lemma LenLensDone(input: seq<bool>, last: bool, nlen: nat, ndist: nat, ncode: nat, bl: seq<nat>, pos: nat, out: seq<nat>)
    requires |bl| <= BL_CODES && Kraft(bl) == UNIT && ncode <= BL_CODES == |BL_ORDER| && pos <= |input|
    requires forall r :: ncode <= r < BL_CODES ==> LenOrZero(bl, BL_ORDER[r]) == 0
    ensures Move(input, Config(LenLens(last, nlen, ndist, ncode, Sent(bl, ncode)), pos, out))
         == Moved(Config(CodeLens(last, nlen, ndist, Padded(bl), []), pos, out))
  {
    BlAccepted(bl);
    UnorderSent(bl, ncode);
    hide Outcome, Padded, Kraft, BL_ORDER;
    assert out + [] == out;
  }

  lemma CodeLensDone(input: seq<bool>, last: bool, bl: seq<nat>, lit: seq<nat>, dist: seq<nat>, pos: nat, out: seq<nat>)
    requires |lit| >= 257 && lit[256] != 0 && pos <= |input|
    requires Outcome(LENS, lit, 9) == 0 && Outcome(DISTS, dist, 6) == 0
    ensures Move(input, Config(CodeLens(last, |lit|, |dist|, bl, lit + dist), pos, out))
         == Moved(Config(LenSym(last, Codes(lit, dist)), pos, out))
  {
    hide Outcome;
    assert (lit + dist)[..|lit|] == lit && (lit + dist)[|lit|..] == dist;
    assert out + [] == out;
  }

  lemma HeaderSplit(input: seq<bool>, pos: nat, lit: seq<nat>, dist: seq<nat>, bl: seq<nat>, ncode: nat)
    requires |lit| >= 257 && |dist| >= 1 && 4 <= ncode <= BL_CODES && At(input, pos, HeaderBits(lit, dist, bl, ncode))
    ensures At(input, pos, ToBits(|lit| - 257, 5) + ToBits(|dist| - 1, 5) + ToBits(ncode - 4, 4))
    ensures At(input, pos + 14, ClLens(bl, ncode))
    ensures At(input, pos + 14 + 3 * ncode, ClBits(bl, Encode(lit) + Encode(dist)))
    ensures |HeaderBits(lit, dist, bl, ncode)| == 14 + 3 * ncode + |ClBits(bl, Encode(lit) + Encode(dist))|
    ensures pos + |HeaderBits(lit, dist, bl, ncode)| <= |input|
  {
    hide ToBits, ClBits, ClLens, Encode;
    var a, b := ToBits(|lit| - 257, 5) + ToBits(|dist| - 1, 5) + ToBits(ncode - 4, 4), ClLens(bl, ncode);
    ClBitsConcat(bl, Encode(lit), Encode(dist));
    var t := ClBits(bl, Encode(lit) + Encode(dist));
    Glue(a + b, ClBits(bl, Encode(lit)), ClBits(bl, Encode(dist)));
    assert HeaderBits(lit, dist, bl, ncode) == a + b + t;
    AtParts(input, pos, a + b, t);
    AtParts(input, pos, a, b);
    assert |a| == 14;
  }

  lemma HeaderTokens(kind: BlockKind, toks: seq<Token>)
    requires DynamicOk(kind, toks) && Accepted(kind)
    ensures kind.DynamicKind? && 257 <= |kind.lit| <= 286 && 1 <= |kind.dist| <= 30 && 4 <= kind.blcodes <= 19
    ensures BL_CODES == 19 && Outcome(LENS, kind.lit, 9) == 0 && Outcome(DISTS, kind.dist, 6) == 0
    ensures kind.lit[256] != 0 && Expand([], Encode(kind.lit) + Encode(kind.dist)) == Lengths(kind.lit + kind.dist)
    ensures var t := Encode(kind.lit) + Encode(kind.dist);
      forall i :: 0 <= i < |t| ==> t[i].Fits() && Used(kind.bl, t[i].Symbol())
    ensures |kind.bl| <= BL_CODES == |BL_ORDER| && Kraft(kind.bl) == UNIT && forall n :: 0 <= n < |kind.bl| ==> kind.bl[n] <= 7
    ensures forall r :: kind.blcodes <= r < BL_CODES ==> LenOrZero(kind.bl, BL_ORDER[r]) == 0
  {
    hide LitFreqs, DistFreqs, Kraft, Encode, Outcome, Expand, ClToken.Fits, BL_ORDER;
    SameOrder();
    BlockData.EndCounted(toks);
    assert Used(kind.lit, END_BLOCK);
    RoundTrip([], kind.lit);
    RoundTrip([], kind.dist);
    BothTrees(kind.lit, kind.dist);
  }

  /** Reading the code lengths: from the counts to the codes. */
  lemma LengthsLead(input: seq<bool>, last: bool, lit: seq<nat>, dist: seq<nat>, bl: seq<nat>, t: seq<ClToken>, pos: nat, out: seq<nat>)
    requires |lit| >= 257 && lit[256] != 0 && |bl| <= BL_CODES && Kraft(bl) == UNIT
    requires Outcome(LENS, lit, 9) == 0 && Outcome(DISTS, dist, 6) == 0
    requires forall i :: 0 <= i < |t| ==> t[i].Fits() && Used(bl, t[i].Symbol())
    requires Expand([], t) == Lengths(lit + dist) && At(input, pos, ClBits(bl, t))
    ensures Leads(input, Config(CodeLens(last, |lit|, |dist|, Padded(bl), []), pos, out),
                  Config(LenSym(last, Codes(lit, dist)), pos + |ClBits(bl, t)|, out))
  {
    hide Kraft, Outcome, Move, Leads, Padded, Expand, ClBits;
    AtInside(input, pos, ClBits(bl, t));
    hide At;
    var p := CodeLens(last, |lit|, |dist|, Padded(bl), []);
    var d := Config(p.(lens := lit + dist), pos + |ClBits(bl, t)|, out);
    BlAccepted(bl);
    ClTokensLead(input, p, pos, out, bl, t, lit + dist);
    CodeLensDone(input, last, Padded(bl), lit, dist, d.pos, out);
    LeadsMove(input, Config(p, pos, out), d, Config(LenSym(last, Codes(lit, dist)), d.pos, out));
  }

  /** Reading the counts and the code-length code. */
  lemma CountsLead(input: seq<bool>, last: bool, nlen: nat, ndist: nat, ncode: nat, bl: seq<nat>, pos: nat, out: seq<nat>)
    requires 257 <= nlen <= 286 && 1 <= ndist <= 30 && 4 <= ncode <= 19
    requires At(input, pos, ToBits(nlen - 257, 5) + ToBits(ndist - 1, 5) + ToBits(ncode - 4, 4))
    requires At(input, pos + 14, ClLens(bl, ncode)) && forall n :: 0 <= n < |bl| ==> bl[n] <= 7
    requires |bl| <= BL_CODES == |BL_ORDER| && Kraft(bl) == UNIT
    requires forall r :: ncode <= r < BL_CODES ==> LenOrZero(bl, BL_ORDER[r]) == 0
    ensures Leads(input, Config(Table(last), pos, out), Config(CodeLens(last, nlen, ndist, Padded(bl), []), pos + 14 + 3 * ncode, out))
  {
    AtInside(input, pos + 14, ClLens(bl, ncode));
    hide Kraft, Outcome, Move, Leads, Padded, BL_ORDER, ToBits, ClLens, Sent, At;
    var c0 := Config(Table(last), pos, out);
    var c1 := Config(LenLens(last, nlen, ndist, ncode, []), pos + 14, out);
    var c2 := Config(LenLens(last, nlen, ndist, ncode, Sent(bl, ncode)), pos + 14 + 3 * ncode, out);
    TableMove(input, last, pos, out, nlen, ndist, ncode);
    LenLensLeads(input, last, nlen, ndist, ncode, bl, c1.pos, out, ncode);
    LenLensDone(input, last, nlen, ndist, ncode, bl, c2.pos, out);
    LeadsSelf(input, c0);
    LeadsMove(input, c0, c0, c1);
    LeadsOn(input, c0, c1, c2);
    LeadsMove(input, c0, c2, Config(CodeLens(last, nlen, ndist, Padded(bl), []), c2.pos, out));
  }

  /** The header of a dynamic block leads to its two codes. */
  lemma HeaderLeads(input: seq<bool>, last: bool, kind: BlockKind, toks: seq<Token>, pos: nat, out: seq<nat>)
    requires DynamicOk(kind, toks) && Accepted(kind)
    requires At(input, pos, HeaderBits(kind.lit, kind.dist, kind.bl, kind.blcodes))
    ensures Leads(input, Config(Table(last), pos, out),
                  Config(LenSym(last, Codes(kind.lit, kind.dist)), pos + |HeaderBits(kind.lit, kind.dist, kind.bl, kind.blcodes)|, out))
  {
    hide *;
    HeaderTokens(kind, toks);
    var lit, dist, bl, ncode := kind.lit, kind.dist, kind.bl, kind.blcodes;
    HeaderSplit(input, pos, lit, dist, bl, ncode);
    var t := Encode(lit) + Encode(dist);
    var d := Config(CodeLens(last, |lit|, |dist|, Padded(bl), []), pos + 14 + 3 * ncode, out);
    var n := |HeaderBits(lit, dist, bl, ncode)|;
    CountsLead(input, last, |lit|, |dist|, ncode, bl, pos, out);
    LengthsLead(input, last, lit, dist, bl, t, d.pos, out);
    LeadsOn(input, Config(Table(last), pos, out), d, Config(LenSym(last, Codes(lit, dist)), pos + n, out));
  }

  lemma AtInside(input: seq<bool>, pos: nat, bits: seq<bool>)
    requires At(input, pos, bits)
    ensures pos + |bits| <= |input|
  {
  }

  // ---- whole blocks ----

  lemma TypeMove(input: seq<bool>, kind: nat, last: bool, pos: nat, out: seq<nat>)
    requires kind <= 2 && At(input, pos, TypeBits(kind, last))
    ensures Move(input, Config(Block(false), pos, out))
         == Moved(Config(if kind == 0 then Stored(last) else if kind == 1 then LenSym(last, FixedCodes()) else Table(last), pos + 3, out))
  {
    hide *;
    TypeRead(input, kind, last, pos);
    BlockGo(input, pos, out);
  }

  lemma BlockGo(input: seq<bool>, pos: nat, out: seq<nat>)
    requires pos + 3 <= |input|
    ensures var kind := Lsb(input[pos..][1..3]);
      Move(input, Config(Block(false), pos, out)) ==
        Moved(Config(if kind == 0 then Stored(input[pos]) else if kind == 1 then LenSym(input[pos], FixedCodes())
                     else if kind == 2 then Table(input[pos]) else Failed, pos + 3, out))
  {
    hide FixedCodes, Lsb;
    assert out + [] == out;
  }

  lemma TypeRead(input: seq<bool>, kind: nat, last: bool, pos: nat)
    requires kind <= 2 && At(input, pos, TypeBits(kind, last))
    ensures pos + 3 <= |input| && input[pos] == last && Lsb(input[pos..][1..3]) == kind
  {
    hide ToBits, Lsb, Low, Pow2;
    TypeParts(kind, last);
    assert input[pos..][1..3] == TypeBits(kind, last)[1..3];
    LsbToBits(kind, 2);
    TwoBitValue(kind);
  }

  lemma TypeParts(kind: nat, last: bool)
    requires kind <= 2
    ensures TypeBits(kind, last)[0] == last && TypeBits(kind, last)[1..3] == ToBits(kind, 2)
  {
    assert TypeBits(kind, last) == [last] + ToBits(kind, 2);
  }

  lemma TwoBitValue(kind: nat)
    requires kind <= 2
    ensures Low(kind, 2) == kind
  {
    Pow2Values();
    LowSmall(kind, 2);
  }

  /** The data of a compressed block leads to the next block. */
  lemma CodedLeads(input: seq<bool>, last: bool, codes: Codes, toks: seq<Token>, pos: nat, out: seq<nat>)
    requires Kraft(codes.lit) <= UNIT && Kraft(codes.dist) <= UNIT && AllValid(toks)
    requires Covers(LitFreqs(toks), codes.lit) && Covers(DistFreqs(toks), codes.dist) && Replay(out, toks).Replayed?
    requires At(input, pos, DataBits(codes.lit, codes.dist, toks) + SymBits(codes.lit, END_BLOCK))
    ensures Leads(input, Config(LenSym(last, codes), pos, out),
                  Config(Block(last), pos + |DataBits(codes.lit, codes.dist, toks) + SymBits(codes.lit, END_BLOCK)|, Replay(out, toks).out))
  {
    hide *;
    EndUsed(toks, codes.lit);
    var a, b := DataBits(codes.lit, codes.dist, toks), SymBits(codes.lit, END_BLOCK);
    AtParts(input, pos, a, b);
    var c := Config(LenSym(last, codes), pos, out);
    var d := Config(LenSym(last, codes), pos + |a|, Replay(out, toks).out);
    AtInside(input, pos, a);
    DataLeads(input, c, toks);
    EndLeads(input, d);
    LeadsOn(input, c, d, Config(Block(last), d.pos + |b|, d.out));
  }

  lemma EndUsed(toks: seq<Token>, lit: seq<nat>)
    requires AllValid(toks) && Covers(LitFreqs(toks), lit)
    ensures END_BLOCK == 256 && Used(lit, END_BLOCK) && SymBits(lit, END_BLOCK) == Code(lit, END_BLOCK)
  {
    BlockData.EndCounted(toks);
    hide LitFreqs, Code;
  }

  lemma {:induction false} BytesLead(input: seq<bool>, last: bool, data: seq<nat>, k: nat, pos: nat, out: seq<nat>)
    requires k <= |data| && (forall i :: 0 <= i < |data| ==> data[i] < 256) && At(input, pos, ByteBits(data[..k]))
    ensures Leads(input, Config(Copy(last, |data|), pos, out), Config(Copy(last, |data| - k), pos + 8 * k, out + data[..k]))
  {
    hide *;
    var c := Config(Copy(last, |data|), pos, out);
    if k == 0 {
      assert out + data[..0] == out;
      LeadsSelf(input, c);
    } else {
      BytesSplit(input, data, k, pos);
      BytesLead(input, last, data, k - 1, pos, out);
      var d := Config(Copy(last, |data| - k + 1), pos + 8 * (k - 1), out + data[..k - 1]);
      var e := Config(Copy(last, |data| - k), pos + 8 * k, out + data[..k]);
      assert out + data[..k] == d.out + [data[k - 1]];
      ByteMove(input, last, |data| - k + 1, d.pos, d.out, data[k - 1]);
      LeadsMove(input, c, d, e);
    }
  }

  lemma BytesSplit(input: seq<bool>, data: seq<nat>, k: nat, pos: nat)
    requires 0 < k <= |data| && At(input, pos, ByteBits(data[..k]))
    ensures At(input, pos, ByteBits(data[..k - 1])) && At(input, pos + 8 * (k - 1), ToBits(data[k - 1], 8))
  {
    hide ToBits, At;
    assert data[..k][..k - 1] == data[..k - 1];
    AtParts(input, pos, ByteBits(data[..k - 1]), ToBits(data[k - 1], 8));
  }

  /** One byte of a stored block. */
  lemma ByteMove(input: seq<bool>, last: bool, left: nat, pos: nat, out: seq<nat>, b: nat)
    requires left > 0 && b < 256 && At(input, pos, ToBits(b, 8))
    ensures Move(input, Config(Copy(last, left), pos, out)) == Moved(Config(Copy(last, left - 1), pos + 8, out + [b]))
  {
    hide *;
    EightBits();
    ReadBack(input, pos, b, 8);
    AtInside(input, pos, ToBits(b, 8));
    CopyGo(input, last, left, pos, out);
  }

  lemma EightBits()
    ensures Pow2(8) == 256
  {
    Pow2Values();
  }

  lemma CopyGo(input: seq<bool>, last: bool, left: nat, pos: nat, out: seq<nat>)
    requires left > 0 && pos + 8 <= |input|
    ensures Move(input, Config(Copy(last, left), pos, out)) == Moved(Config(Copy(last, left - 1), pos + 8, out + [Lsb(input[pos..][..8])]))
  {
    hide Lsb;
  }

  lemma AlignLeads(input: seq<bool>, last: bool, pos: nat, out: seq<nat>)
    requires pos + Pad(pos) <= |input|
    ensures Leads(input, Config(Stored(last), pos, out), Config(Stored(last), pos + Pad(pos), out))
  {
    var c, d := Config(Stored(last), pos, out), Config(Stored(last), pos + Pad(pos), out);
    LeadsSelf(input, c);
    if Pad(pos) != 0 {
      assert out + [] == out;
      assert Move(input, c) == Moved(d);
      LeadsMove(input, c, c, d);
    }
  }

  lemma StoredMove(input: seq<bool>, last: bool, n: nat, pos: nat, out: seq<nat>)
    requires n <= 65535 && pos % 8 == 0 && At(input, pos, ToBits(n, 16) + ToBits(65535 - n, 16))
    ensures Move(input, Config(Stored(last), pos, out)) == Moved(Config(Copy(last, n), pos + 32, out))
  {
    hide ToBits, Pow2, Lsb;
    AtParts(input, pos, ToBits(n, 16), ToBits(65535 - n, 16));
    Pow2Values();
    ReadBack(input, pos, n, 16);
    ReadBack(input, pos + 16, 65535 - n, 16);
    assert input[pos..][16..32] == input[pos + 16..][..16];
    assert out + [] == out;
  }

  lemma StoredSplit(input: seq<bool>, data: seq<nat>, last: bool, pos: nat)
    requires |data| <= 65535 && At(input, pos, StoredBits(data, last, pos))
    ensures var q := pos + 3 + Pad(pos + 3);
      && At(input, pos, TypeBits(0, last)) && q % 8 == 0 && At(input, q, ToBits(|data|, 16) + ToBits(65535 - |data|, 16))
      && At(input, q + 32, ByteBits(data)) && |StoredBits(data, last, pos)| == q + 32 + 8 * |data| - pos
      && q + 32 + 8 * |data| <= |input|
  {
    hide ToBits, TypeBits, ByteBits, At;
    var t, p, a, b, d := TypeBits(0, last), Padding(pos + 3), ToBits(|data|, 16), ToBits(65535 - |data|, 16), ByteBits(data);
    Glue(t + p, a, b);
    AtParts(input, pos, t + p + (a + b), d);
    AtParts(input, pos, t + p, a + b);
    AtParts(input, pos, t, p);
    AtInside(input, pos + |t + p| + 32, d);
  }

  /** A stored block leads to its bytes. */
  lemma StoredLeads(input: seq<bool>, data: seq<nat>, last: bool, pos: nat, out: seq<nat>)
    requires |data| <= 65535 && (forall i :: 0 <= i < |data| ==> data[i] < 256) && At(input, pos, StoredBits(data, last, pos))
    ensures Leads(input, Config(Block(false), pos, out), Config(Block(last), pos + |StoredBits(data, last, pos)|, out + data))
  {
    hide *;
    StoredSplit(input, data, last, pos);
    var q := pos + 3 + Pad(pos + 3);
    var c0, c1, c2 := Config(Block(false), pos, out), Config(Stored(last), pos + 3, out), Config(Stored(last), q, out);
    var c3, c4 := Config(Copy(last, |data|), q + 32, out), Config(Copy(last, 0), q + 32 + 8 * |data|, out + data);
    TypeMove(input, 0, last, pos, out);
    AlignLeads(input, last, pos + 3, out);
    StoredMove(input, last, |data|, q, out);
    assert data[..|data|] == data;
    BytesLead(input, last, data, |data|, q + 32, out);
    CopyDone(input, last, c4.pos, out + data);
    LeadsSelf(input, c0);
    LeadsMove(input, c0, c0, c1);
    LeadsOn(input, c0, c1, c2);
    LeadsMove(input, c0, c2, c3);
    LeadsOn(input, c0, c3, c4);
    LeadsMove(input, c0, c4, Config(Block(last), c4.pos, out + data));
  }

  lemma CopyDone(input: seq<bool>, last: bool, pos: nat, out: seq<nat>)
    requires pos <= |input|
    ensures Move(input, Config(Copy(last, 0), pos, out)) == Moved(Config(Block(last), pos, out))
  {
    assert out + [] == out;
  }

  /** A block sent with the fixed trees leads to the replay of its tokens. */
  lemma FixedLeads(input: seq<bool>, toks: seq<Token>, last: bool, pos: nat, out: seq<nat>)
    requires AllValid(toks) && Replay(out, toks).Replayed? && At(input, pos, TypeBits(1, last) + FixedBits(toks))
    ensures Leads(input, Config(Block(false), pos, out),
                  Config(Block(last), pos + 3 + |FixedBits(toks)|, Replay(out, toks).out))
  {
    hide *;
    FixedCover(toks);
    AtParts(input, pos, TypeBits(1, last), FixedBits(toks));
    TypeMove(input, 1, last, pos, out);
    var c, d := Config(Block(false), pos, out), Config(LenSym(last, FixedCodes()), pos + 3, out);
    CodedLeads(input, last, FixedCodes(), toks, pos + 3, out);
    LeadsSelf(input, c);
    LeadsMove(input, c, c, d);
    LeadsOn(input, c, d, Config(Block(last), pos + 3 + |FixedBits(toks)|, Replay(out, toks).out));
  }

  lemma FixedCover(toks: seq<Token>)
    requires AllValid(toks)
    ensures var f := FixedCodes();
      && Kraft(f.lit) <= UNIT && Kraft(f.dist) <= UNIT && Covers(LitFreqs(toks), f.lit) && Covers(DistFreqs(toks), f.dist)
      && FixedBits(toks) == DataBits(f.lit, f.dist, toks) + SymBits(f.lit, END_BLOCK)
  {
    hide LitFreqs, DistFreqs, Kraft, Repeat, DataBits, SymBits;
    StaticTrees.FixedComplete();
  }

  /** A block sent with its own trees leads to the replay of its tokens. */
  lemma DynamicLeads(input: seq<bool>, kind: BlockKind, toks: seq<Token>, last: bool, pos: nat, out: seq<nat>)
    requires DynamicOk(kind, toks) && Accepted(kind) && Replay(out, toks).Replayed?
    requires At(input, pos, TypeBits(2, last) + DynamicBits(kind, toks))
    ensures Leads(input, Config(Block(false), pos, out),
                  Config(Block(last), pos + 3 + |DynamicBits(kind, toks)|, Replay(out, toks).out))
  {
    hide *;
    DynamicCover(kind, toks);
    var codes := Codes(kind.lit, kind.dist);
    var h, data := HeaderBits(kind.lit, kind.dist, kind.bl, kind.blcodes), DataBits(kind.lit, kind.dist, toks);
    var e := SymBits(kind.lit, END_BLOCK);
    Glue(h, data, e);
    AtParts(input, pos, TypeBits(2, last), DynamicBits(kind, toks));
    AtParts(input, pos + 3, h, data + e);
    TypeMove(input, 2, last, pos, out);
    var c, d := Config(Block(false), pos, out), Config(Table(last), pos + 3, out);
    var f := Config(LenSym(last, codes), pos + 3 + |h|, out);
    HeaderLeads(input, last, kind, toks, pos + 3, out);
    CodedLeads(input, last, codes, toks, f.pos, out);
    LeadsSelf(input, c);
    LeadsMove(input, c, c, d);
    LeadsOn(input, c, d, f);
    LeadsOn(input, c, f, Config(Block(last), pos + 3 + |DynamicBits(kind, toks)|, Replay(out, toks).out));
  }

  lemma DynamicCover(kind: BlockKind, toks: seq<Token>)
    requires DynamicOk(kind, toks)
    ensures kind.DynamicKind? && AllValid(toks) && |kind.lit| >= 257 && |kind.dist| >= 1 && 4 <= kind.blcodes <= BL_CODES
    ensures END_BLOCK == 256
    ensures Kraft(kind.lit) <= UNIT && Kraft(kind.dist) <= UNIT
    ensures Covers(LitFreqs(toks), kind.lit) && Covers(DistFreqs(toks), kind.dist)
    ensures DynamicBits(kind, toks) == HeaderBits(kind.lit, kind.dist, kind.bl, kind.blcodes)
                                       + DataBits(kind.lit, kind.dist, toks) + SymBits(kind.lit, END_BLOCK)
  {
    hide LitFreqs, DistFreqs, Kraft, DataBits, SymBits, HeaderBits, Encode, BL_ORDER, Covers;
  }

  /** What a block stands for after earlier output. */
  function BlockOutput(kind: BlockKind, toks: seq<Token>, buf: Buffer, out: seq<nat>): seq<nat>
    requires kind.StoredKind? ==> buf.Buffer?
    requires !kind.StoredKind? ==> Replay(out, toks).Replayed?
  {
    if kind.StoredKind? then out + buf.data else Replay(out, toks).out
  }

  /** Everything FlushBlock can send decodes to what the block stands for, and
      decoding then stands at the next block. */
  lemma BlockRoundTrip(input: seq<bool>, kind: BlockKind, toks: seq<Token>, buf: Buffer, last: bool, pos: nat, out: seq<nat>)
    requires AllValid(toks) && (kind.DynamicKind? ==> DynamicOk(kind, toks))
    requires kind.StoredKind? ==> buf.Buffer? && |buf.data| <= 65535 && forall i :: 0 <= i < |buf.data| ==> buf.data[i] < 256
    requires !kind.StoredKind? ==> Replay(out, toks).Replayed?
    requires kind.DynamicKind? ==> |kind.lit| >= 257 && |kind.dist| >= 1 && 4 <= kind.blcodes <= BL_CODES
    requires At(input, pos, KindBits(kind, toks, buf, last, pos))
    ensures Leads(input, Config(Block(false), pos, out),
                  Config(Block(last), pos + |KindBits(kind, toks, buf, last, pos)|, BlockOutput(kind, toks, buf, out)))
  {
    hide DynamicOk, Accepted, At, Leads, Replay, StoredBits, TypeBits, FixedBits, DynamicBits;
    AlwaysAccepted(kind, toks);
    match kind {
      case StoredKind => StoredLeads(input, buf.data, last, pos, out);
      case FixedKind => FixedLeads(input, toks, last, pos, out);
      case DynamicKind(_, _, _, _) => DynamicLeads(input, kind, toks, last, pos, out);
    }
  }
}
