/** The bits of a compressed block's data (section 3.2.5 of RFC 1951) and their
    exact number, by token and by symbol frequency. */
module BlockBits {
  import opened Bits
  import opened Canonical
  import opened HuffBits
  import opened Sums
  import opened Tokens
  import opened BitLengths
  import opened BitOutput
  import opened CodeLengths

  const EXTRA_BLBITS: seq<nat> := [0, 0, 0, 0, 0, 0, 0, 0, 0, 0, 0, 0, 0, 0, 0, 0, 2, 3, 7]

  /** The code lengths of the fixed literal/length code. */
  function FixedLit(): (l: seq<nat>)
    ensures |l| == 288
  {
    Repeat(8, 144) + Repeat(9, 112) + Repeat(7, 24) + Repeat(8, 8)
  }

  function FixedDist(): (l: seq<nat>)
    ensures |l| == 32
  {
    Repeat(5, 32)
  }

  function LDesc(): StaticDesc {
    StaticDesc(FixedLit()[..L_CODES], EXTRA_LBITS, LITERALS + 1, L_CODES, MAXBITS)
  }

  function DDesc(): StaticDesc {
    StaticDesc(FixedDist()[..D_CODES], EXTRA_DBITS, 0, D_CODES, MAXBITS)
  }

  function BlDesc(): StaticDesc {
    StaticDesc([], EXTRA_BLBITS, 0, BL_CODES, 7)
  }

  lemma DescsValid()
    ensures LDesc().Valid() && DDesc().Valid() && BlDesc().Valid()
  {
    Pow2Values();
    assert Pow2(7) == 128;
  }

  function LitSym(t: Token): nat
    requires t.Match? ==> MIN_MATCH <= t.len <= MAX_MATCH
  {
    match t
    case Lit(b) => b
    case Match(len, _) => LITERALS + 1 + LenCode(len - MIN_MATCH)
  }

  /** The bits of a symbol's code; none for a symbol without a code. */
  function SymBits(lens: seq<nat>, n: nat): seq<bool> {
    if Used(lens, n) then Code(lens, n) else []
  }

  function LenExtra(len: nat): seq<bool>
    requires MIN_MATCH <= len <= MAX_MATCH
  {
    var c := LenCode(len - MIN_MATCH);
    if EXTRA_LBITS[c] == 0 then [] else ToBits(len - MIN_MATCH - LenBase(len), EXTRA_LBITS[c])
  }

  function LenBase(len: nat): (b: nat)
    requires MIN_MATCH <= len <= MAX_MATCH
    ensures b <= len - MIN_MATCH
  {
    var c := LenCode(len - MIN_MATCH);
    if c == 28 then len - MIN_MATCH else Base(EXTRA_LBITS, c)
  }

  function DistExtra(d: nat): seq<bool>
    requires 1 <= d <= 32768
  {
    var c := DistCode(d - 1);
    ToBits(d - 1 - Base(EXTRA_DBITS, c), EXTRA_DBITS[c])
  }

  function TokenBits(lit: seq<nat>, dist: seq<nat>, t: Token): seq<bool>
    requires t.Valid()
  {
    match t
    case Lit(b) => SymBits(lit, b)
    case Match(len, d) => SymBits(lit, LitSym(t)) + LenExtra(len) + SymBits(dist, DistCode(d - 1)) + DistExtra(d)
  }

  ghost predicate AllValid(toks: seq<Token>) {
    forall i :: 0 <= i < |toks| ==> toks[i].Valid()
  }

  function DataBits(lit: seq<nat>, dist: seq<nat>, toks: seq<Token>): seq<bool>
    requires AllValid(toks)
  {
    if toks == [] then []
    else DataBits(lit, dist, toks[..|toks| - 1]) + TokenBits(lit, dist, toks[|toks| - 1])
  }

  // ---- frequencies and costs ----

  function NoFreqs(n: nat): (f: seq<nat>)
    ensures |f| == n
  {
    seq(n, i => 0)
  }

  /** Literal/length frequencies of a block: its tokens and the end of block. */
  function LitFreqs(toks: seq<Token>): (f: seq<nat>)
    requires AllValid(toks)
    ensures |f| == L_CODES
  {
    if toks == [] then NoFreqs(L_CODES)[END_BLOCK := 1]
    else
      var f, n := LitFreqs(toks[..|toks| - 1]), LitSym(toks[|toks| - 1]);
      f[n := f[n] + 1]
  }

  function DistFreqs(toks: seq<Token>): (f: seq<nat>)
    requires AllValid(toks)
    ensures |f| == D_CODES
  {
    if toks == [] then NoFreqs(D_CODES)
    else
      var f, t := DistFreqs(toks[..|toks| - 1]), toks[|toks| - 1];
      if t.Lit? then f else f[DistCode(t.dist - 1) := f[DistCode(t.dist - 1)] + 1]
  }

  /** The symbols in use have codes. */
  ghost predicate Covers(freq: seq<nat>, lens: seq<nat>) {
    forall n: nat :: n < |freq| && freq[n] != 0 ==> Used(lens, n)
  }

  lemma FreqsGrow(toks: seq<Token>)
    requires AllValid(toks) && toks != []
    ensures forall n :: 0 <= n < L_CODES ==> LitFreqs(toks[..|toks| - 1])[n] <= LitFreqs(toks)[n]
    ensures forall n :: 0 <= n < D_CODES ==> DistFreqs(toks[..|toks| - 1])[n] <= DistFreqs(toks)[n]
    ensures LitFreqs(toks)[LitSym(toks[|toks| - 1])] > 0
    ensures toks[|toks| - 1].Match? ==> DistFreqs(toks)[DistCode(toks[|toks| - 1].dist - 1)] > 0
  {
  }

  /** One more occurrence of a symbol costs its code length and its extra bits. */
  lemma CostStep(freq: seq<nat>, n: nat, lens: seq<nat>, desc: StaticDesc, k: nat)
    requires n < |freq| && n < k <= |lens| && k <= |freq| && k <= desc.elems <= |desc.extra| + desc.base
    ensures SumTo(k, Cost(freq[n := freq[n] + 1], lens, desc)) == SumTo(k, Cost(freq, lens, desc)) + lens[n] + desc.Xbits(n)
  {
    var f := freq[n := freq[n] + 1];
    var a, b := Cost(freq, lens, desc), Cost(f, lens, desc);
    SumChange(k, a, b, n);
    Distribute(freq[n], 1, lens[n] + desc.Xbits(n));
  }

  lemma CostOfNone(freq: seq<nat>, lens: seq<nat>, desc: StaticDesc, k: nat)
    requires forall n :: 0 <= n < |freq| && n < k ==> freq[n] == 0
    ensures SumTo(k, Cost(freq, lens, desc)) == 0
  {
    SumZero(k, Cost(freq, lens, desc));
  }

  /** The bits of one token, counted by its symbols. */
  lemma TokenCost(lit: seq<nat>, dist: seq<nat>, t: Token)
    requires t.Valid() && Used(lit, LitSym(t)) && (t.Match? ==> Used(dist, DistCode(t.dist - 1)))
    ensures LitSym(t) < L_CODES
    ensures |TokenBits(lit, dist, t)| == lit[LitSym(t)] + LDesc().Xbits(LitSym(t))
                                         + if t.Match? then dist[DistCode(t.dist - 1)] + DDesc().Xbits(DistCode(t.dist - 1)) else 0
  {
    Sizes();
    hide EXTRA_LBITS, EXTRA_DBITS, Code, ToBits, Base, LenCode, DistCode, FixedLit, FixedDist;
  }

  /** The number of bits of a block's data is the cost of its symbol frequencies. */
  lemma {:induction false} DataCost(lit: seq<nat>, dist: seq<nat>, toks: seq<Token>, kl: nat, kd: nat)
    requires AllValid(toks) && Covers(LitFreqs(toks), lit) && Covers(DistFreqs(toks), dist)
    requires kl <= |lit| && kl <= L_CODES && kd <= |dist| && kd <= D_CODES
    requires forall n :: kl <= n < L_CODES ==> LitFreqs(toks)[n] == 0
    requires forall n :: kd <= n < D_CODES ==> DistFreqs(toks)[n] == 0
    ensures |DataBits(lit, dist, toks)| + |SymBits(lit, END_BLOCK)|
         == SumTo(kl, Cost(LitFreqs(toks), lit, LDesc())) + SumTo(kd, Cost(DistFreqs(toks), dist, DDesc()))
  {
    Sizes();
    hide EXTRA_LBITS, EXTRA_DBITS, Code, ToBits, Base, LenCode, DistCode, FixedLit, FixedDist, TokenBits, Cost, SumTo;
    if toks == [] {
      DataCostNone(lit, dist, kl, kd);
    } else {
      var init, t := toks[..|toks| - 1], toks[|toks| - 1];
      FreqsGrow(toks);
      hide LitFreqs, DistFreqs, LitSym;
      CoversLess(LitFreqs(init), LitFreqs(toks), lit);
      CoversLess(DistFreqs(init), DistFreqs(toks), dist);
      DataCost(lit, dist, init, kl, kd);
      TokenCost(lit, dist, t);
      FreqsNext(toks);
      CostStep(LitFreqs(init), LitSym(t), lit, LDesc(), kl);
      if t.Match? {
        CostStep(DistFreqs(init), DistCode(t.dist - 1), dist, DDesc(), kd);
      }
    }
  }

  lemma CoversLess(f: seq<nat>, g: seq<nat>, lens: seq<nat>)
    requires |f| == |g| && Covers(g, lens) && forall n :: 0 <= n < |f| ==> f[n] <= g[n]
    ensures Covers(f, lens)
  {
  }

  lemma FreqsNext(toks: seq<Token>)
    requires AllValid(toks) && toks != []
    ensures var init, t := toks[..|toks| - 1], toks[|toks| - 1];
      && LitSym(t) < L_CODES && LitFreqs(toks) == LitFreqs(init)[LitSym(t) := LitFreqs(init)[LitSym(t)] + 1]
      && DistFreqs(toks) == if t.Lit? then DistFreqs(init)
           else DistFreqs(init)[DistCode(t.dist - 1) := DistFreqs(init)[DistCode(t.dist - 1)] + 1]
  {
    hide LenCode, DistCode;
  }

  /** An empty block is its end-of-block code. */
  lemma DataCostNone(lit: seq<nat>, dist: seq<nat>, kl: nat, kd: nat)
    requires Covers(LitFreqs([]), lit) && kl <= |lit| && kl <= L_CODES && kd <= |dist| && kd <= D_CODES
    requires forall n :: kl <= n < L_CODES ==> LitFreqs([])[n] == 0
    ensures |SymBits(lit, END_BLOCK)| == SumTo(kl, Cost(LitFreqs([]), lit, LDesc())) + SumTo(kd, Cost(DistFreqs([]), dist, DDesc()))
  {
    Sizes();
    hide EXTRA_LBITS, EXTRA_DBITS, FixedLit, FixedDist, Code, Cost, SumTo, Pow2;
    var z := NoFreqs(L_CODES);
    assert LitFreqs([]) == z[END_BLOCK := z[END_BLOCK] + 1];
    assert LitFreqs([])[END_BLOCK] != 0;
    CostOfNone(z, lit, LDesc(), kl);
    CostStep(z, END_BLOCK, lit, LDesc(), kl);
    CostOfNone(NoFreqs(D_CODES), dist, DDesc(), kd);
  }
}
