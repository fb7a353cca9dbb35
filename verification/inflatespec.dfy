/** Decompression of a raw deflate stream (RFC 1951) as a deterministic machine on
    bits without buffers, calls or windows: what inflate must compute however its
    input and output are cut into pieces. */
module InflateSpec {
  import opened Bits
  import opened Canonical
  import opened HuffBits
  import opened DecodingTables
  import opened SymbolDecoding
  import opened CodeLengths
  import opened BitOutput
  import Tokens
  import StaticTrees

  /** The code lengths of a block's two codes. */
  datatype Codes = Codes(lit: seq<nat>, dist: seq<nat>)

  datatype Point =
    | Block(last: bool)
    | Stored(last: bool)
    | Copy(last: bool, left: nat)
    | Table(last: bool)
    | LenLens(last: bool, nlen: nat, ndist: nat, ncode: nat, got: seq<nat>)
    | CodeLens(last: bool, nlen: nat, ndist: nat, bl: seq<nat>, lens: seq<nat>)
    | LenSym(last: bool, codes: Codes)
    | LitOut(last: bool, codes: Codes, b: nat)
    | LenExt(last: bool, codes: Codes, len: nat, extra: nat)
    | DistSym(last: bool, codes: Codes, len: nat)
    | DistExt(last: bool, codes: Codes, len: nat, dist: nat, extra: nat)
    | MatchOut(last: bool, codes: Codes, len: nat, dist: nat)
    | Done
    | Failed

  /** Where decoding stands: the point, the bits consumed and the bytes produced. */
  datatype Config = Config(p: Point, pos: nat, out: seq<nat>)

  /** A step, or why there is none: more input is needed, or decoding is over. */
  datatype Next = Go(p: Point, used: nat, emit: seq<nat>) | Wait | Stop

  const ORDER: seq<nat> := [16, 17, 18, 0, 8, 7, 9, 6, 10, 5, 11, 4, 12, 3, 13, 2, 14, 1, 15]

  /** Bits up to the next byte boundary. */
  function Pad(pos: nat): (n: nat)
    ensures n < 8 && (pos + n) % 8 == 0 && (n == 0 <==> pos % 8 == 0)
  {
    (8 - pos % 8) % 8
  }

  /** The position of code-length symbol i in the order of transmission. */
  function Rank(i: nat): (r: nat)
    requires i < BL_CODES
    ensures r < BL_CODES == |ORDER| && ORDER[r] == i
  {
    if i >= 16 then i - 16 else if i == 0 then 3 else if i == 8 then 4 else if i < 8 then 19 - 2 * i else 2 * i - 12
  }

  /** The code-length code lengths by symbol; those not transmitted are zero. */
  function Unorder(got: seq<nat>): (bl: seq<nat>)
    ensures |bl| == BL_CODES
  {
    seq(BL_CODES, i requires 0 <= i < BL_CODES => if Rank(i) < |got| then got[Rank(i)] else 0)
  }

  /** The fixed codes of section 3.2.6. */
  function FixedCodes(): Codes {
    Codes(Repeat(8, 144) + Repeat(9, 112) + Repeat(7, 24) + Repeat(8, 8), Repeat(5, 32))
  }

  function BlockStep(pos: nat, w: seq<bool>, last: bool): Next {
    if last then (if |w| < Pad(pos) then Wait else Go(Done, Pad(pos), []))
    else if |w| < 3 then Wait
    else
      var kind := Lsb(w[1..3]);
      Go(if kind == 0 then Stored(w[0]) else if kind == 1 then LenSym(w[0], FixedCodes())
         else if kind == 2 then Table(w[0]) else Failed, 3, [])
  }

  function StoredStep(pos: nat, w: seq<bool>, last: bool): Next {
    if Pad(pos) != 0 then (if |w| < Pad(pos) then Wait else Go(Stored(last), Pad(pos), []))
    else if |w| < 32 then Wait
    else Go(if Lsb(w[..16]) == 65535 - Lsb(w[16..32]) then Copy(last, Lsb(w[..16])) else Failed, 32, [])
  }

  function CopyStep(w: seq<bool>, last: bool, left: nat): Next {
    if left == 0 then Go(Block(last), 0, [])
    else if |w| < 8 then Wait
    else Go(Copy(last, left - 1), 8, [Lsb(w[..8])])
  }

  function TableStep(w: seq<bool>, last: bool): Next {
    if |w| < 14 then Wait
    else
      var nlen, ndist, ncode := Lsb(w[..5]) + 257, Lsb(w[5..10]) + 1, Lsb(w[10..14]) + 4;
      Go(if nlen > 286 || ndist > 30 then Failed else LenLens(last, nlen, ndist, ncode, []), 14, [])
  }

  ghost function LenLensStep(w: seq<bool>, p: Point): Next
    requires p.LenLens?
  {
    if |p.got| < p.ncode then
      if |w| < 3 then Wait else Go(p.(got := p.got + [Lsb(w[..3])]), 3, [])
    else
      var bl := Unorder(p.got);
      Go(if Outcome(CODES, bl, 7) == 0 then CodeLens(p.last, p.nlen, p.ndist, bl, []) else Failed, 0, [])
  }

  /** The code lengths of a dynamic block are all there: check them. */
  ghost function CodesReady(p: Point): Point
    requires p.CodeLens? && p.nlen <= |p.lens|
  {
    if |p.lens| <= 256 || p.lens[256] == 0 then Failed
    else if Outcome(LENS, p.lens[..p.nlen], 9) != 0 || Outcome(DISTS, p.lens[p.nlen..], 6) != 0 then Failed
    else LenSym(p.last, Codes(p.lens[..p.nlen], p.lens[p.nlen..]))
  }

  /** A repeat symbol with its extra bits: value 16, 17 or 18. */
  function RepeatStep(w: seq<bool>, p: Point, sym: nat, len: nat): Next
    requires p.CodeLens?
  {
    var extra := if sym == 16 then 2 else if sym == 17 then 3 else 7;
    if |w| < len + extra then Wait
    else if sym == 16 && p.lens == [] then Go(Failed, len + extra, [])
    else
      var copy := (if sym == 18 then 11 else 3) + Lsb(w[len..len + extra]);
      var x := if sym == 16 then p.lens[|p.lens| - 1] else 0;
      Go(if |p.lens| + copy > p.nlen + p.ndist then Failed else p.(lens := p.lens + Repeat(x, copy)), len + extra, [])
  }

  ghost function CodeLensStep(w: seq<bool>, p: Point): Next
    requires p.CodeLens?
  {
    if |p.lens| >= p.nlen + p.ndist then Go(CodesReady(p), 0, [])
    else
      match DecodeStep(p.bl, w)
      case More => Wait
      // a set of no code lengths at all reads as zeros
      case Bad => Go(p.(lens := p.lens + [0]), 1, [])
      case Sym(n) => if n < 16 then Go(p.(lens := p.lens + [n]), p.bl[n], []) else RepeatStep(w, p, n, p.bl[n])
  }

  ghost function LenSymStep(w: seq<bool>, last: bool, codes: Codes): Next {
    match DecodeStep(codes.lit, w)
    case More => Wait
    case Bad => Go(Failed, 1, [])
    case Sym(n) =>
      Go(if n < 256 then LitOut(last, codes, n)
         else if n == 256 then Block(last)
         else if n < 286 then LenExt(last, codes, LBASE[n - 257], LEXT[n - 257] - 16)
         else Failed, codes.lit[n], [])
  }

  ghost function DistSymStep(w: seq<bool>, p: Point): Next
    requires p.DistSym?
  {
    match DecodeStep(p.codes.dist, w)
    case More => Wait
    case Bad => Go(Failed, 1, [])
    case Sym(n) =>
      Go(if n < 30 then DistExt(p.last, p.codes, p.len, DBASE[n], DEXT[n] - 16) else Failed, p.codes.dist[n], [])
  }

  function MatchStep(p: Point, out: seq<nat>): Next
    requires p.MatchOut?
  {
    if p.dist > |out| || p.dist == 0 || p.len == 0 then Go(Failed, 0, [])
    else Go(if p.len == 1 then LenSym(p.last, p.codes) else p.(len := p.len - 1), 0, [out[|out| - p.dist]])
  }

  /** The next step at a configuration, given the bits from there on. */
  ghost function Step(c: Config, w: seq<bool>): Next {
    match c.p
    case Block(last) => BlockStep(c.pos, w, last)
    case Stored(last) => StoredStep(c.pos, w, last)
    case Copy(last, left) => CopyStep(w, last, left)
    case Table(last) => TableStep(w, last)
    case LenLens(_, _, _, _, _) => LenLensStep(w, c.p)
    case CodeLens(_, _, _, _, _) => CodeLensStep(w, c.p)
    case LenSym(last, codes) => LenSymStep(w, last, codes)
    case LitOut(last, codes, b) => Go(LenSym(last, codes), 0, [b])
    case LenExt(last, codes, len, extra) =>
      if |w| < extra then Wait else Go(DistSym(last, codes, len + Lsb(w[..extra])), extra, [])
    case DistSym(_, _, _) => DistSymStep(w, c.p)
    case DistExt(last, codes, len, dist, extra) =>
      if |w| < extra then Wait else Go(MatchOut(last, codes, len, dist + Lsb(w[..extra])), extra, [])
    case MatchOut(_, _, _, _) => MatchStep(c.p, c.out)
    case Done => Stop
    case Failed => Stop
  }

  datatype Moved = Moved(c: Config) | Stuck

  /** One step on the whole input. */
  ghost function Move(input: seq<bool>, c: Config): Moved {
    if c.pos > |input| then Stuck
    else
      match Step(c, input[c.pos..])
      case Go(p, used, emit) => Moved(Config(p, c.pos + used, c.out + emit))
      case Wait => Stuck
      case Stop => Stuck
  }

  /** n steps. */
  ghost function Iter(input: seq<bool>, c: Config, n: nat): Moved {
    if n == 0 then Moved(c)
    else
      match Iter(input, c, n - 1)
      case Stuck => Stuck
      case Moved(d) => Move(input, d)
  }

  ghost predicate Leads(input: seq<bool>, c: Config, d: Config) {
    exists n: nat :: Iter(input, c, n) == Moved(d)
  }

  const START := Config(Block(false), 0, [])

  // ---- determinism and independence of the input that is not there yet ----

  /** Codes are usable: not over-subscribed, and incomplete only as inflate_table allows. */
  ghost predicate CodeOk(lens: seq<nat>) {
    ValidLens(lens) && Kraft(lens) <= UNIT && (Kraft(lens) == UNIT || MaxLen(lens) <= 1)
  }

  ghost predicate CodesOk(codes: Codes) {
    CodeOk(codes.lit) && |codes.lit| <= 288 && CodeOk(codes.dist) && |codes.dist| <= 32
  }

  ghost predicate AtMost(s: seq<nat>, max: nat) {
    forall i :: 0 <= i < |s| ==> s[i] <= max
  }

  /** What holds at every point a stream can lead to. */
  ghost predicate PointOk(p: Point) {
    match p
    case LenLens(_, nlen, ndist, ncode, got) =>
      257 <= nlen <= 286 && 1 <= ndist <= 30 && ncode <= BL_CODES && |got| <= ncode && AtMost(got, 7)
    case CodeLens(_, nlen, ndist, bl, lens) =>
      && 257 <= nlen <= 286 && 1 <= ndist <= 30 && |bl| == BL_CODES && AtMost(bl, 7) && CodeOk(bl)
      && |lens| <= nlen + ndist && ValidLens(lens)
    case LenSym(_, codes) => CodesOk(codes)
    case LitOut(_, codes, b) => CodesOk(codes) && b < 256
    case LenExt(_, codes, len, extra) => CodesOk(codes) && extra <= 5 && 3 <= len && len + Pow2(extra) - 1 <= 258
    case DistSym(_, codes, len) => CodesOk(codes) && 3 <= len <= 258
    case DistExt(_, codes, len, dist, extra) =>
      CodesOk(codes) && 3 <= len <= 258 && extra <= 13 && 1 <= dist && dist + Pow2(extra) - 1 <= 32768
    case MatchOut(_, codes, len, dist) => CodesOk(codes) && 1 <= len <= 258 && 1 <= dist <= 32768
    case _ => true
  }

  lemma BadStable(lens: seq<nat>, bits: seq<bool>, more: seq<bool>)
    requires CodeOk(lens) && DecodeStep(lens, bits) == Bad
    ensures DecodeStep(lens, bits + more) == Bad && |bits| >= 1
  {
    if n: nat :| Starts(lens, bits + more, n) {
      LoneLength(lens, n);
      assert Code(lens, n)[..1] == Code(lens, n);
      assert (bits + more)[..1] == bits[..1];
      assert Starts(lens, bits, n);
    }
  }

  lemma LoneLength(lens: seq<nat>, n: nat)
    requires Used(lens, n) && MaxLen(lens) <= 1
    ensures lens[n] == 1
  {
    CountWithin(lens, n);
    TopLengthIs(lens, MAXBITS, lens[n]);
  }

  /** Decoding a symbol looks no further than its own code. */
  lemma StepTrim(lens: seq<nat>, w: seq<bool>, k: nat)
    requires CodeOk(lens) && k <= |w|
    ensures DecodeStep(lens, w).Sym? && lens[DecodeStep(lens, w).n] <= k ==> DecodeStep(lens, w[..k]) == DecodeStep(lens, w)
    ensures DecodeStep(lens, w) == Bad && k >= 1 ==> DecodeStep(lens, w[..k]) == Bad
  {
    assert w == w[..k] + w[k..];
    if DecodeStep(lens, w).Sym? {
      var n := DecodeStep(lens, w).n;
      if lens[n] <= k {
        assert Code(lens, n) <= w[..k];
        StepSym(lens, w[..k], n);
      }
    } else if DecodeStep(lens, w) == Bad && k >= 1 {
      if n: nat :| Starts(lens, w[..k], n) {
        assert Code(lens, n) <= w;
        assert Starts(lens, w, n);
      }
    }
  }

  /** A decision on a symbol holds for every input that starts with the bits it used. */
  lemma StepLocal(lens: seq<nat>, w: seq<bool>, v: seq<bool>)
    requires CodeOk(lens)
    ensures DecodeStep(lens, w).Sym? ==>
      var n := DecodeStep(lens, w).n; n < |lens| && 1 <= lens[n] <= |w| && (w[..lens[n]] <= v ==> DecodeStep(lens, v) == Sym(n))
    ensures DecodeStep(lens, w) == Bad ==> |w| >= 1 && (w[..1] <= v ==> DecodeStep(lens, v) == Bad)
  {
    var r := DecodeStep(lens, w);
    if r.Sym? {
      StepStable(lens, w, []);
      if w[..lens[r.n]] <= v {
        assert Code(lens, r.n) <= v;
        StepSym(lens, v, r.n);
      }
    } else if r.Bad? && w[..1] <= v {
      StepTrim(lens, w, 1);
      BadStable(lens, w[..1], v[1..]);
      assert w[..1] + v[1..] == v;
    }
  }

  /** inflate_table accepts only usable codes. */
  lemma AcceptedOk(t: CodeType, lens: seq<nat>, bits: nat)
    requires ValidLens(lens) && Outcome(t, lens, bits) == 0
    ensures CodeOk(lens) && (t == CODES && MaxLen(lens) >= 1 ==> Kraft(lens) == UNIT)
  {
    if MaxLen(lens) >= 2 { MaxLenUsed(lens); }
    if MaxLen(lens) == 1 && t == CODES { MaxLenUsed(lens); }
  }

  lemma LenEntryOk(n: nat)
    requires 257 <= n < 286
    ensures 16 <= LEXT[n - 257] <= 21 && 3 <= LBASE[n - 257] && LBASE[n - 257] + Pow2(LEXT[n - 257] - 16) - 1 <= 258
  {
    hide *;
    var c := n - 257;
    Tokens.Sizes();
    TableSizes();
    if c == 28 {
      LastLength();
    } else {
      Tokens.LengthBase(c);
      LenExtraSmall(c);
      Tokens.BaseEnds();
      Tokens.BaseNext(Tokens.EXTRA_LBITS, c);
      Tokens.BaseMono(Tokens.EXTRA_LBITS, c + 1, 28);
      SumOverThree(Tokens.Base(Tokens.EXTRA_LBITS, c), Pow2(Tokens.EXTRA_LBITS[c]), Tokens.Base(Tokens.EXTRA_LBITS, c + 1));
    }
  }

  lemma TableSizes()
    ensures |LEXT| >= 29 && |LBASE| >= 29 && |DEXT| >= 30 && |DBASE| >= 30
  {
  }

  lemma LastLength()
    ensures LEXT[28] == 16 && LBASE[28] == 258 && Pow2(0) == 1
  {
  }

  lemma SumOverThree(a: nat, p: nat, b: nat)
    requires b == a + p && b <= 256
    ensures a + 3 + p - 1 <= 258
  {
  }

  lemma LenExtraSmall(c: nat)
    requires c < 29
    ensures Tokens.EXTRA_LBITS[c] <= 5
  {
  }

  lemma DistEntryOk(n: nat)
    requires n < 30
    ensures 16 <= DEXT[n] <= 29 && 1 <= DBASE[n] && DBASE[n] + Pow2(DEXT[n] - 16) - 1 <= 32768
  {
    hide *;
    Tokens.Sizes();
    BaseSizes();
    Tokens.DistBase(n);
    DistExtraSmall(n);
    Tokens.BaseEnds();
    Tokens.BaseNext(Tokens.EXTRA_DBITS, n);
    Tokens.BaseMono(Tokens.EXTRA_DBITS, n + 1, 30);
  }

  lemma DistExtraSmall(c: nat)
    requires c < 30
    ensures Tokens.EXTRA_DBITS[c] <= 13
  {
  }

  /** A step uses only bits that are there, leads to a sound point, and would be
      the same on any input that starts with those bits. */
  ghost predicate StepSound(c: Config, w: seq<bool>, v: seq<bool>) {
    Step(c, w).Go? ==>
      && PointOk(Step(c, w).p) && Step(c, w).used <= |w|
      && (w[..Step(c, w).used] <= v ==> Step(c, v) == Step(c, w))
  }

  lemma PrefixSlice(w: seq<bool>, v: seq<bool>, u: nat, i: nat, j: nat)
    requires u <= |w| && w[..u] <= v && i <= j <= u
    ensures u <= |v| && w[i..j] == v[i..j]
  {
    assert w[..u][i..j] == w[i..j];
    assert v[..u] == w[..u];
  }

  lemma CodeLensSound(c: Config, w: seq<bool>, v: seq<bool>)
    requires c.p.CodeLens? && PointOk(c.p)
    ensures StepSound(c, w, v)
  {
    var p := c.p;
    hide CodeOk, Outcome, Kraft, StartOf;
    if |p.lens| >= p.nlen + p.ndist {
      if Outcome(LENS, p.lens[..p.nlen], 9) == 0 && Outcome(DISTS, p.lens[p.nlen..], 6) == 0 {
        AcceptedOk(LENS, p.lens[..p.nlen], 9);
        AcceptedOk(DISTS, p.lens[p.nlen..], 6);
      }
    } else {
      StepLocal(p.bl, w, v);
      if DecodeStep(p.bl, w).Sym? {
        var n := DecodeStep(p.bl, w).n;
        if n >= 16 { RepeatSound(p, w, v, n, p.bl[n]); }
      }
    }
  }

  lemma RepeatSound(p: Point, w: seq<bool>, v: seq<bool>, sym: nat, len: nat)
    requires p.CodeLens? && PointOk(p)
    ensures var r := RepeatStep(w, p, sym, len);
      r.Go? ==> PointOk(r.p) && r.used <= |w| && (w[..r.used] <= v ==> RepeatStep(v, p, sym, len) == r)
  {
    hide CodeOk;
    var extra := if sym == 16 then 2 else if sym == 17 then 3 else 7;
    var r := RepeatStep(w, p, sym, len);
    if r.Go? && w[..r.used] <= v {
      PrefixSlice(w, v, r.used, len, len + extra);
    }
  }

  lemma LenLensSound(c: Config, w: seq<bool>, v: seq<bool>)
    requires c.p.LenLens? && PointOk(c.p)
    ensures StepSound(c, w, v)
  {
    var p := c.p;
    hide CodeOk, Outcome;
    if |p.got| < p.ncode {
      if |w| >= 3 {
        LsbBound(w[..3]);
        Pow2Values();
        if w[..3] <= v { PrefixSlice(w, v, 3, 0, 3); }
      }
    } else {
      var bl := Unorder(p.got);
      if Outcome(CODES, bl, 7) == 0 { AcceptedOk(CODES, bl, 7); }
    }
  }

  lemma SymSound(c: Config, w: seq<bool>, v: seq<bool>)
    requires (c.p.LenSym? || c.p.DistSym?) && PointOk(c.p)
    ensures StepSound(c, w, v)
  {
    hide *;
    if c.p.LenSym? { LenSymSound(c, w, v); } else { DistSymSound(c, w, v); }
  }

  lemma LenSymSound(c: Config, w: seq<bool>, v: seq<bool>)
    requires c.p.LenSym? && PointOk(c.p)
    ensures StepSound(c, w, v)
  {
    hide CodeOk, LBASE, LEXT, Pow2, DecodeStep;
    BaseSizes();
    StepLocal(c.p.codes.lit, w, v);
    var r := DecodeStep(c.p.codes.lit, w);
    if r.Sym? && 257 <= r.n < 286 { LenEntryOk(r.n); }
  }

  lemma DistSymSound(c: Config, w: seq<bool>, v: seq<bool>)
    requires c.p.DistSym? && PointOk(c.p)
    ensures StepSound(c, w, v)
  {
    hide CodeOk, DBASE, DEXT, Pow2, DecodeStep;
    BaseSizes();
    StepLocal(c.p.codes.dist, w, v);
    var r := DecodeStep(c.p.codes.dist, w);
    if r.Sym? && r.n < 30 { DistEntryOk(r.n); }
  }

  lemma BaseSizes()
    ensures |LBASE| == |LEXT| == 31 && |DBASE| == |DEXT| == 32
  {
  }

  lemma ExtSound(c: Config, w: seq<bool>, v: seq<bool>)
    requires (c.p.LenExt? || c.p.DistExt?) && PointOk(c.p)
    ensures StepSound(c, w, v)
  {
    hide CodesOk, Pow2;
    var e := c.p.extra;
    if |w| >= e {
      LsbBound(w[..e]);
      if w[..e] <= v { PrefixSlice(w, v, e, 0, e); }
    }
  }

  lemma FixedOk()
    ensures CodesOk(FixedCodes())
  {
    StaticTrees.FixedComplete();
  }

  lemma BlockSound(c: Config, w: seq<bool>, v: seq<bool>)
    requires (c.p.Block? || c.p.Table?) && PointOk(c.p)
    ensures StepSound(c, w, v)
  {
    FixedOk();
    Pow2Values();
    hide CodesOk, FixedCodes, Pow2;
    if c.p.Block? && !c.p.last && |w| >= 3 {
      LsbBound(w[1..3]);
      if w[..3] <= v {
        PrefixSlice(w, v, 3, 1, 3);
        PrefixSlice(w, v, 3, 0, 1);
        assert w[0..1][0] == v[0..1][0];
      }
    }
    if c.p.Table? && |w| >= 14 {
      LsbBound(w[10..14]);
      if w[..14] <= v {
        PrefixSlice(w, v, 14, 0, 5);
        PrefixSlice(w, v, 14, 5, 10);
        PrefixSlice(w, v, 14, 10, 14);
      }
    }
  }

  lemma CopySound(c: Config, w: seq<bool>, v: seq<bool>)
    requires (c.p.Stored? || c.p.Copy?) && PointOk(c.p)
    ensures StepSound(c, w, v)
  {
    if c.p.Stored? && Pad(c.pos) == 0 && |w| >= 32 && w[..32] <= v {
      PrefixSlice(w, v, 32, 0, 16);
      PrefixSlice(w, v, 32, 16, 32);
    }
    if c.p.Copy? && |w| >= 8 && w[..8] <= v {
      PrefixSlice(w, v, 8, 0, 8);
    }
  }

  lemma Sound(c: Config, w: seq<bool>, v: seq<bool>)
    requires PointOk(c.p)
    ensures StepSound(c, w, v)
  {
    match c.p {
      case Block(_) => BlockSound(c, w, v);
      case Table(_) => BlockSound(c, w, v);
      case Stored(_) => CopySound(c, w, v);
      case Copy(_, _) => CopySound(c, w, v);
      case LenLens(_, _, _, _, _) => LenLensSound(c, w, v);
      case CodeLens(_, _, _, _, _) => CodeLensSound(c, w, v);
      case LenSym(_, _) => SymSound(c, w, v);
      case DistSym(_, _, _) => SymSound(c, w, v);
      case LenExt(_, _, _, _) => ExtSound(c, w, v);
      case DistExt(_, _, _, _, _) => ExtSound(c, w, v);
      case LitOut(_, _, _) => hide CodesOk;
      case MatchOut(_, _, _, _) => hide CodesOk;
      case Done =>
      case Failed =>
    }
  }

  /** A move stays possible, and stays the same, however the input goes on after the bits it used. */
  lemma MoveLocal(input: seq<bool>, other: seq<bool>, c: Config)
    requires PointOk(c.p) && Move(input, c).Moved?
    ensures var d := Move(input, c).c;
      && PointOk(d.p) && c.pos <= d.pos <= |input|
      && (input[..d.pos] <= other ==> Move(other, c) == Move(input, c))
  {
    var w := input[c.pos..];
    var d := Move(input, c).c;
    if input[..d.pos] <= other {
      var v := other[c.pos..];
      Sound(c, w, v);
      forall i | 0 <= i < d.pos - c.pos && i < |w|
        ensures i < |v| && w[i] == v[i]
      {
        assert input[..d.pos][c.pos + i] == other[c.pos + i];
      }
      hide Step;
      assert w[..d.pos - c.pos] <= v;
    } else {
      Sound(c, w, []);
    }
  }

  lemma IterNext(input: seq<bool>, c: Config, n: nat)
    ensures Iter(input, c, 0) == Moved(c)
    ensures n > 0 ==> Iter(input, c, n) == if Iter(input, c, n - 1).Moved? then Move(input, Iter(input, c, n - 1).c) else Stuck
  {
    hide Move;
  }

  lemma {:induction false} IterLocal(input: seq<bool>, other: seq<bool>, c: Config, n: nat)
    requires PointOk(c.p) && Iter(input, c, n).Moved? && c.pos <= |input|
    ensures var d := Iter(input, c, n).c;
      && PointOk(d.p) && c.pos <= d.pos <= |input| && c.out <= d.out
      && (input[..d.pos] <= other ==> Iter(other, c, n) == Iter(input, c, n))
  {
    hide *;
    IterNext(input, c, n);
    IterNext(other, c, n);
    if n > 0 {
      IterLocal(input, other, c, n - 1);
      var e := Iter(input, c, n - 1).c;
      MoveLocal(input, other, e);
      MoveOut(input, e);
      var d := Iter(input, c, n).c;
      if input[..d.pos] <= other {
        assert input[..d.pos][..e.pos] == input[..e.pos];
      }
    }
  }

  lemma MoveOut(input: seq<bool>, c: Config)
    requires Move(input, c).Moved?
    ensures c.out <= Move(input, c).c.out
  {
    hide Step;
  }

  lemma {:induction false} IterAdd(input: seq<bool>, c: Config, m: nat, n: nat)
    requires Iter(input, c, m).Moved?
    ensures Iter(input, c, m + n) == Iter(input, Iter(input, c, m).c, n)
  {
    hide *;
    IterNext(input, c, m + n);
    IterNext(input, Iter(input, c, m).c, n);
    if n > 0 {
      IterAdd(input, c, m, n - 1);
    }
  }

  lemma LeadsSelf(input: seq<bool>, c: Config)
    ensures Leads(input, c, c)
  {
    assert Iter(input, c, 0) == Moved(c);
  }

  lemma LeadsMove(input: seq<bool>, c: Config, d: Config, e: Config)
    requires Leads(input, c, d) && Move(input, d) == Moved(e)
    ensures Leads(input, c, e)
  {
    hide Move;
    var n: nat :| Iter(input, c, n) == Moved(d);
    assert Iter(input, c, n + 1) == Moved(e);
  }

  lemma LeadsOn(input: seq<bool>, c: Config, d: Config, e: Config)
    requires Leads(input, c, d) && Leads(input, d, e)
    ensures Leads(input, c, e)
  {
    var m: nat :| Iter(input, c, m) == Moved(d);
    var n: nat :| Iter(input, d, n) == Moved(e);
    IterAdd(input, c, m, n);
  }

  /** Where a stream leads only depends on the bits consumed on the way. */
  lemma LeadsLocal(input: seq<bool>, other: seq<bool>, c: Config, d: Config)
    requires PointOk(c.p) && Leads(input, c, d) && c.pos <= |input|
    ensures PointOk(d.p) && c.pos <= d.pos <= |input| && c.out <= d.out
    ensures input[..d.pos] <= other ==> Leads(other, c, d)
  {
    var n: nat :| Iter(input, c, n) == Moved(d);
    IterLocal(input, other, c, n);
  }

  /** More input does not change where the stream has led. */
  lemma LeadsMore(input: seq<bool>, more: seq<bool>, c: Config, d: Config)
    requires PointOk(c.p) && Leads(input, c, d) && c.pos <= |input|
    ensures Leads(input + more, c, d)
  {
    LeadsLocal(input, input + more, c, d);
  }

  lemma {:induction false} StuckStays(input: seq<bool>, c: Config, m: nat, n: nat)
    requires m <= n && Iter(input, c, m) == Stuck
    ensures Iter(input, c, n) == Stuck
    decreases n
  {
    hide Move;
    if m < n { StuckStays(input, c, m, n - 1); }
  }

  /** Decoding is deterministic: two ends of the same stream are the same. */
  lemma OneEnd(input: seq<bool>, c: Config, d: Config, e: Config)
    requires Leads(input, c, d) && Leads(input, c, e) && Move(input, d) == Stuck && Move(input, e) == Stuck
    ensures d == e
  {
    hide Move;
    var m: nat :| Iter(input, c, m) == Moved(d);
    var n: nat :| Iter(input, c, n) == Moved(e);
    if m < n {
      assert Iter(input, c, m + 1) == Stuck;
      StuckStays(input, c, m + 1, n);
    } else if n < m {
      assert Iter(input, c, n + 1) == Stuck;
      StuckStays(input, c, n + 1, m);
    }
  }

  /** An end lies on every path: what a stream has led to leads to its end. */
  lemma EndAhead(input: seq<bool>, c: Config, d: Config, e: Config)
    requires Leads(input, c, d) && Leads(input, c, e) && Move(input, e) == Stuck
    ensures Leads(input, d, e)
  {
    hide Move;
    var m: nat :| Iter(input, c, m) == Moved(d);
    var n: nat :| Iter(input, c, n) == Moved(e);
    if n < m {
      assert Iter(input, c, n + 1) == Stuck;
      StuckStays(input, c, n + 1, m);
    }
    IterAdd(input, c, m, n - m);
  }
}
