/** Length and distance codes (section 3.2.5 of RFC 1951): the tables that
    tr_static_init fills, and the symbols and extra bits of a token. */
module Tokens {
  import opened Bits
  import opened Canonical
  import opened HuffBits
  import opened BitOutput
  import DecodingTables

  const LITERALS := 256
  const END_BLOCK := 256
  const LENGTH_CODES := 29
  const D_CODES := 30
  const MIN_MATCH := 3
  const MAX_MATCH := 258

  const EXTRA_LBITS: seq<nat> := [0, 0, 0, 0, 0, 0, 0, 0, 1, 1, 1, 1, 2, 2, 2, 2, 3, 3, 3, 3, 4, 4, 4, 4, 5, 5, 5, 5, 0]
  const EXTRA_DBITS: seq<nat> := [0, 0, 0, 0, 1, 1, 2, 2, 3, 3, 4, 4, 5, 5, 6, 6, 7, 7, 8, 8, 9, 9, 10, 10,
                                  11, 11, 12, 12, 13, 13]

  /** A literal byte, or a match of len bytes starting dist bytes back. */
  datatype Token = Lit(b: nat) | Match(len: nat, dist: nat) {
    ghost predicate Valid() {
      match this
      case Lit(b) => b < 256
      case Match(len, dist) => MIN_MATCH <= len <= MAX_MATCH && 1 <= dist <= 32768
    }
  }

  /** Append len bytes, each copied from dist bytes back; a copy may overlap itself. */
  function CopyBack(out: seq<nat>, len: nat, dist: nat): (r: seq<nat>)
    requires 1 <= dist <= |out|
    ensures |r| == |out| + len && out <= r
    decreases len
  {
    if len == 0 then out else CopyBack(out + [out[|out| - dist]], len - 1, dist)
  }

  /** A token can follow this output: it does not reach back before the beginning. */
  predicate Follows(out: seq<nat>, t: Token) {
    t.Match? ==> 1 <= t.dist <= |out|
  }

  function ReplayOne(out: seq<nat>, t: Token): (r: seq<nat>)
    requires Follows(out, t)
    ensures out <= r
  {
    match t
    case Lit(b) => out + [b]
    case Match(len, dist) => CopyBack(out, len, dist)
  }

  datatype Replayed = Replayed(out: seq<nat>) | TooFar

  /** The output that a list of tokens stands for, after what is already there. */
  function Replay(out: seq<nat>, toks: seq<Token>): Replayed {
    if toks == [] then Replayed(out)
    else
      var r := Replay(out, toks[..|toks| - 1]);
      if r.Replayed? && Follows(r.out, toks[|toks| - 1]) then Replayed(ReplayOne(r.out, toks[|toks| - 1])) else TooFar
  }

  lemma ReplaySnoc(out: seq<nat>, toks: seq<Token>, t: Token)
    ensures Replay(out, toks + [t]) ==
      if Replay(out, toks).Replayed? && Follows(Replay(out, toks).out, t) then Replayed(ReplayOne(Replay(out, toks).out, t)) else TooFar
  {
    assert (toks + [t])[..|toks|] == toks;
  }

  lemma {:induction false} ReplayConcat(out: seq<nat>, a: seq<Token>, b: seq<Token>)
    ensures Replay(out, a + b) == if Replay(out, a).Replayed? then Replay(Replay(out, a).out, b) else TooFar
  {
    if b == [] {
      assert a + b == a;
    } else {
      hide Follows, ReplayOne;
      ReplayConcat(out, a, b[..|b| - 1]);
      assert (a + b)[..|a + b| - 1] == a + b[..|b| - 1];
    }
  }

  /** First value of a code when codes 0..c-1 own 2^extra values each. */
  function Base(extra: seq<nat>, c: nat): nat
    requires c <= |extra|
  {
    if c == 0 then 0 else Base(extra, c - 1) + Pow2(extra[c - 1])
  }

  /** The last code among 0..c whose values start at or below v. */
  function CodeFrom(extra: seq<nat>, v: nat, c: nat): (r: nat)
    requires c < |extra|
    ensures r <= c && Base(extra, r) <= v
    ensures r < c ==> v < Base(extra, r + 1)
  {
    if c == 0 || Base(extra, c) <= v then c else CodeFrom(extra, v, c - 1)
  }

  /** Code of a match length, given as length - 3; 258 has a code of its own. */
  function LenCode(lc: nat): (c: nat)
    requires lc < 256
    ensures c < LENGTH_CODES
  {
    if lc == 255 then 28 else CodeFrom(EXTRA_LBITS, lc, 27)
  }

  /** Code of a match distance, given as distance - 1. */
  function DistCode(d: nat): (c: nat)
    requires d < 32768
    ensures c < D_CODES
  {
    CodeFrom(EXTRA_DBITS, d, 29)
  }

  lemma {:induction false} BaseMono(extra: seq<nat>, a: nat, b: nat)
    requires a <= b <= |extra|
    ensures Base(extra, a) <= Base(extra, b)
    ensures a < b ==> Base(extra, a) + Pow2(extra[a]) <= Base(extra, b)
    decreases b
  {
    if a + 1 < b { BaseMono(extra, a, b - 1); }
  }

  /** A value belongs to exactly one code. */
  lemma CodeIs(extra: seq<nat>, v: nat, max: nat, c: nat)
    requires c <= max < |extra| && Base(extra, c) <= v < Base(extra, c + 1)
    ensures CodeFrom(extra, v, max) == c
  {
    var r := CodeFrom(extra, v, max);
    if r < c {
      BaseMono(extra, r + 1, c);
    } else if c < r {
      BaseMono(extra, c + 1, r);
    }
  }

  /** Base c is the previous one plus the values of its code. */
  predicate StepAt(base: seq<nat>, extra: seq<nat>, ext: seq<nat>, c: nat) {
    1 <= c < |base| && c < |extra| && c < |ext| && ext[c] == extra[c] + 16 && base[c] == base[c - 1] + Pow2(extra[c - 1])
  }

  predicate FourSteps(base: seq<nat>, extra: seq<nat>, ext: seq<nat>, c: nat) {
    StepAt(base, extra, ext, c) && StepAt(base, extra, ext, c + 1) && StepAt(base, extra, ext, c + 2) && StepAt(base, extra, ext, c + 3)
  }

  lemma {:induction false} StepsBase(base: seq<nat>, extra: seq<nat>, ext: seq<nat>, first: nat, n: nat, i: nat)
    requires |base| >= 1 && |ext| >= 1 && |extra| >= n && n >= 1 && base[0] == first && ext[0] == extra[0] + 16 && i < n
    requires forall c :: 1 <= c < n ==> StepAt(base, extra, ext, c)
    ensures i < |base| && i < |ext| && base[i] == Base(extra, i) + first && ext[i] == extra[i] + 16
  {
    if i > 0 {
      StepsBase(base, extra, ext, first, n, i - 1);
      assert StepAt(base, extra, ext, i);
    }
  }

  lemma LengthSteps1()
    ensures FourSteps(DecodingTables.LBASE, EXTRA_LBITS, DecodingTables.LEXT, 1)
  {
  }

  lemma LengthSteps5()
    ensures FourSteps(DecodingTables.LBASE, EXTRA_LBITS, DecodingTables.LEXT, 5)
  {
  }

  lemma LengthSteps9()
    ensures FourSteps(DecodingTables.LBASE, EXTRA_LBITS, DecodingTables.LEXT, 9)
  {
  }

  lemma LengthSteps13()
    ensures FourSteps(DecodingTables.LBASE, EXTRA_LBITS, DecodingTables.LEXT, 13)
  {
  }

  lemma LengthStepsHigh()
    ensures var b, e, x := DecodingTables.LBASE, EXTRA_LBITS, DecodingTables.LEXT;
      FourSteps(b, e, x, 17) && FourSteps(b, e, x, 21) && FourSteps(b, e, x, 24)
  {
  }

  /** The decoder's base and extra bits of a length code are the encoder's. */
  lemma LengthBase(c: nat)
    requires c < 28
    ensures DecodingTables.LBASE[c] == Base(EXTRA_LBITS, c) + 3 && DecodingTables.LEXT[c] == EXTRA_LBITS[c] + 16
  {
    hide StepAt;
    LengthSteps1();
    LengthSteps5();
    LengthSteps9();
    LengthSteps13();
    LengthStepsHigh();
    StepsBase(DecodingTables.LBASE, EXTRA_LBITS, DecodingTables.LEXT, 3, 28, c);
  }

  lemma DistStepsLow()
    ensures var b, e, x := DecodingTables.DBASE, EXTRA_DBITS, DecodingTables.DEXT;
      FourSteps(b, e, x, 1) && FourSteps(b, e, x, 5)
  {
  }

  lemma DistStepsMiddle()
    ensures var b, e, x := DecodingTables.DBASE, EXTRA_DBITS, DecodingTables.DEXT;
      FourSteps(b, e, x, 9) && FourSteps(b, e, x, 13)
  {
  }

  lemma DistStepsHigh()
    ensures var b, e, x := DecodingTables.DBASE, EXTRA_DBITS, DecodingTables.DEXT;
      FourSteps(b, e, x, 17) && FourSteps(b, e, x, 21) && FourSteps(b, e, x, 25) && FourSteps(b, e, x, 26)
  {
    Pow2Values();
  }

  /** The decoder's base and extra bits of a distance code are the encoder's. */
  lemma DistBase(c: nat)
    requires c < D_CODES
    ensures DecodingTables.DBASE[c] == Base(EXTRA_DBITS, c) + 1 && DecodingTables.DEXT[c] == EXTRA_DBITS[c] + 16
  {
    hide StepAt;
    DistStepsLow();
    DistStepsMiddle();
    DistStepsHigh();
    StepsBase(DecodingTables.DBASE, EXTRA_DBITS, DecodingTables.DEXT, 1, 30, c);
  }

  // ---- tr_static_init ----

  lemma BaseEnds()
    ensures Base(EXTRA_LBITS, 28) == 256 && Base(EXTRA_DBITS, 16) == 256 && Base(EXTRA_DBITS, 30) == 32768
  {
    hide *;
    LastEntries();
    LengthBase(27);
    DistBase(16);
    DistBase(29);
    BaseNext(EXTRA_LBITS, 27);
    BaseNext(EXTRA_DBITS, 29);
  }

  lemma LastEntries()
    ensures |EXTRA_LBITS| == 29 && |EXTRA_DBITS| == 30 == D_CODES
    ensures |DecodingTables.LBASE| > 27 && DecodingTables.LBASE[27] == 227 && Pow2(EXTRA_LBITS[27]) == 32
    ensures |DecodingTables.DBASE| > 29 && DecodingTables.DBASE[16] == 257 && DecodingTables.DBASE[29] == 24577
    ensures Pow2(EXTRA_DBITS[29]) == 8192
  {
    Pow2Values();
  }

  lemma BaseZero(extra: seq<nat>)
    ensures Base(extra, 0) == 0
  {
  }

  /** Mapping from length - 3 to length code. */
  method InitLengths(baseLength: array<nat>, lengthCode: array<nat>)
    requires baseLength != lengthCode && baseLength.Length == LENGTH_CODES && lengthCode.Length == 256
    modifies baseLength, lengthCode
    ensures forall c :: 0 <= c < 28 ==> baseLength[c] == Base(EXTRA_LBITS, c)
    ensures forall lc :: 0 <= lc < 256 ==> lengthCode[lc] == LenCode(lc)
  {
    Sizes();
    hide Pow2, CodeFrom, EXTRA_LBITS, Base;
    BaseEnds();
    BaseZero(EXTRA_LBITS);
    var length := 0;
    for code := 0 to LENGTH_CODES - 1
      invariant length == Base(EXTRA_LBITS, code)
      invariant forall c :: 0 <= c < code ==> baseLength[c] == Base(EXTRA_LBITS, c)
      invariant length <= 256
      invariant forall l :: 0 <= l < length ==> lengthCode[l] == CodeFrom(EXTRA_LBITS, l, 27)
    {
      baseLength[code] := length;
      BaseNext(EXTRA_LBITS, code);
      BaseMono(EXTRA_LBITS, code + 1, 28);
      for n := 0 to Pow2(EXTRA_LBITS[code])
        invariant length == Base(EXTRA_LBITS, code) + n && length <= 256
        invariant forall c :: 0 <= c <= code ==> baseLength[c] == Base(EXTRA_LBITS, c)
        invariant forall l :: 0 <= l < length ==> lengthCode[l] == CodeFrom(EXTRA_LBITS, l, 27)
      {
        CodeIs(EXTRA_LBITS, length, 27, code);
        lengthCode[length] := code;
        length := length + 1;
      }
    }
    lengthCode[length - 1] := 28;
  }

  /** From code 16 on, distances are coded in units of 128. */
  lemma {:induction false} BaseUnits(c: nat) returns (q: nat)
    requires 16 <= c <= D_CODES
    ensures Base(EXTRA_DBITS, c) == 128 * q && q <= 256
  {
    Sizes();
    hide *;
    BaseEnds();
    BaseMono(EXTRA_DBITS, c, 30);
    if c == 16 {
      q := 2;
    } else {
      q := BaseUnits(c - 1);
      FarExtra(c - 1);
      Pow2Add(7, EXTRA_DBITS[c - 1] - 7);
      Pow2Values();
      BaseNext(EXTRA_DBITS, c - 1);
      q := q + Pow2(EXTRA_DBITS[c - 1] - 7);
    }
  }

  lemma Sizes()
    ensures |EXTRA_LBITS| == LENGTH_CODES == 29 && |EXTRA_DBITS| == D_CODES == 30
  {
  }

  lemma BaseNext(extra: seq<nat>, c: nat)
    requires c < |extra|
    ensures Base(extra, c + 1) == Base(extra, c) + Pow2(extra[c])
  {
  }

  lemma FarExtra(c: nat)
    requires 16 <= c < D_CODES
    ensures 7 <= EXTRA_DBITS[c] <= 13
  {
  }

  /** All distances of one unit have the same code. */
  lemma SameUnit(d: nat, j: nat)
    requires 2 <= j && 128 * j <= d < 128 * (j + 1) <= 32768
    ensures DistCode(d) == DistCode(128 * j) >= 16
  {
    Sizes();
    hide *;
    var c := DistCode(128 * j);
    BaseEnds();
    CodeTop(128 * j);
    if c < 16 { BaseMono(EXTRA_DBITS, c + 1, 16); }
    var q := BaseUnits(c + 1);
    DistCodeIs(d, c);
  }

  lemma CodeTop(v: nat)
    requires v < 32768
    ensures Base(EXTRA_DBITS, DistCode(v)) <= v < Base(EXTRA_DBITS, DistCode(v) + 1)
  {
    BaseEnds();
  }

  /** Mapping from distance - 1 to distance code: small distances, then units of 128. */
  method InitDists(baseDist: array<nat>, distCode: array<nat>)
    requires baseDist != distCode && baseDist.Length == D_CODES && distCode.Length == 512
    modifies baseDist, distCode
    ensures forall c :: 0 <= c < D_CODES ==> baseDist[c] == Base(EXTRA_DBITS, c)
    ensures forall d :: 0 <= d < 32768 ==> DCode(distCode[..], d) == DistCode(d)
  {
    Sizes();
    hide Pow2, CodeFrom, DistCode, EXTRA_DBITS, Base;
    BaseEnds();
    BaseZero(EXTRA_DBITS);
    var dist := 0;
    for code := 0 to 16
      invariant dist == Base(EXTRA_DBITS, code) <= 256
      invariant forall c :: 0 <= c < code ==> baseDist[c] == Base(EXTRA_DBITS, c)
      invariant forall d :: 0 <= d < dist ==> distCode[d] == DistCode(d)
    {
      baseDist[code] := dist;
      BaseNext(EXTRA_DBITS, code);
      BaseMono(EXTRA_DBITS, code + 1, 16);
      for n := 0 to Pow2(EXTRA_DBITS[code])
        invariant dist == Base(EXTRA_DBITS, code) + n <= 256
        invariant forall c :: 0 <= c <= code ==> baseDist[c] == Base(EXTRA_DBITS, c)
        invariant forall d :: 0 <= d < dist ==> distCode[d] == DistCode(d)
      {
        DistCodeIs(dist, code);
        distCode[dist] := code;
        dist := dist + 1;
      }
    }
    dist := InitFarDists(baseDist, distCode, dist / 128);
    forall d | 0 <= d < 32768
      ensures DCode(distCode[..], d) == DistCode(d)
    {
      if d >= 256 { SameUnit(d, d / 128); }
    }
  }

  lemma DistCodeIs(d: nat, code: nat)
    requires code < D_CODES && Base(EXTRA_DBITS, code) <= d < Base(EXTRA_DBITS, code + 1) && d < 32768
    ensures DistCode(d) == code
  {
    CodeIs(EXTRA_DBITS, d, 29, code);
  }

  /** The codes 16 to 29, with all distances divided by 128. */
  method InitFarDists(baseDist: array<nat>, distCode: array<nat>, dist0: nat) returns (dist: nat)
    requires baseDist != distCode && baseDist.Length == D_CODES && distCode.Length == 512 && dist0 == 2
    modifies baseDist, distCode
    ensures forall c :: 0 <= c < 16 ==> baseDist[c] == old(baseDist[c])
    ensures forall c :: 16 <= c < D_CODES ==> baseDist[c] == Base(EXTRA_DBITS, c)
    ensures forall d :: 0 <= d < 256 ==> distCode[d] == old(distCode[d])
    ensures forall j :: 2 <= j < 256 ==> distCode[256 + j] == DistCode(128 * j)
  {
    Sizes();
    hide Pow2, CodeFrom, DistCode, EXTRA_DBITS, Base;
    BaseEnds();
    dist := dist0;
    for code := 16 to D_CODES
      invariant 128 * dist == Base(EXTRA_DBITS, code) && dist <= 256
      invariant forall c :: 0 <= c < 16 ==> baseDist[c] == old(baseDist[c])
      invariant forall c :: 16 <= c < code ==> baseDist[c] == Base(EXTRA_DBITS, c)
      invariant forall d :: 0 <= d < 256 ==> distCode[d] == old(distCode[d])
      invariant forall j :: 2 <= j < dist ==> distCode[256 + j] == DistCode(128 * j)
    {
      baseDist[code] := dist * 128;
      ghost var q := BaseUnits(code + 1);
      BaseNext(EXTRA_DBITS, code);
      FarExtra(code);
      Pow2Add(7, EXTRA_DBITS[code] - 7);
      assert Pow2(7) == 128 by { Pow2Values(); }
      ghost var first := dist;
      for n := 0 to Pow2(EXTRA_DBITS[code] - 7)
        invariant dist == first + n && dist <= 256
        invariant forall c :: 0 <= c < 16 ==> baseDist[c] == old(baseDist[c])
        invariant forall c :: 16 <= c <= code ==> baseDist[c] == Base(EXTRA_DBITS, c)
        invariant forall d :: 0 <= d < 256 ==> distCode[d] == old(distCode[d])
        invariant forall j :: 2 <= j < dist ==> distCode[256 + j] == DistCode(128 * j)
      {
        DistCodeIs(128 * dist, code);
        distCode[256 + dist] := code;
        dist := dist + 1;
      }
    }
  }

  /** d_code: the distance code by table. */
  function DCode(distCode: seq<nat>, d: nat): nat
    requires |distCode| == 512 && d < 32768
  {
    if d < 256 then distCode[d] else distCode[256 + d / 128]
  }
}
