/** What the compressor has sent so far, as the decoder will read it. */
module Deflating {
  import opened Bits
  import opened HuffBits
  import opened BitOutput
  import opened Tokens
  import opened BlockBits
  import opened BlockTrees
  import opened Matching
  import opened InflateSpec
  import RoundTrips

  /** After the input before from, these tokens yield the input up to to. */
  ghost predicate Parsed(data: seq<nat>, from: int, toks: seq<Token>, to: int) {
    0 <= from <= to <= |data| && Replay(data[..from], toks) == Replayed(data[..to])
  }

  lemma ParsedNone(data: seq<nat>, at: nat)
    requires at <= |data|
    ensures Parsed(data, at, [], at)
  {
  }

  lemma ParsedNext(data: seq<nat>, from: int, toks: seq<Token>, at: int, t: Token, to: int)
    requires Parsed(data, from, toks, at) && Matching.Covers(data, at, t, to)
    ensures Parsed(data, from, toks + [t], to)
  {
    hide Replay, ReplayOne;
    ReplaySnoc(data[..from], toks, t);
  }

  lemma ParsedMore(data: seq<nat>, more: seq<nat>, from: int, toks: seq<Token>, to: int)
    requires Parsed(data, from, toks, to) && data <= more
    ensures Parsed(more, from, toks, to)
  {
    hide Replay;
    assert more[..from] == data[..from] && more[..to] == data[..to];
  }

  /** Decoding the bits sent so far ends at a block boundary, having produced data. */
  ghost predicate Decodes(sent: seq<bool>, last: bool, data: seq<nat>) {
    Leads(sent, START, Config(Block(last), |sent|, data))
  }

  lemma DecodesNothing()
    ensures Decodes([], false, [])
  {
    LeadsSelf([], START);
  }

  lemma AtEnd(sent: seq<bool>, bits: seq<bool>)
    ensures RoundTrips.At(sent + bits, |sent|, bits)
  {
    assert (sent + bits)[|sent|..] == bits;
  }

  /** One more block decodes to what it stands for. */
  lemma DecodesBlock(sent: seq<bool>, data: seq<nat>, kind: BlockKind, toks: seq<Token>, buf: Buffer, last: bool)
    requires Decodes(sent, false, data)
    requires AllValid(toks) && (kind.DynamicKind? ==> DynamicOk(kind, toks))
    requires kind.StoredKind? ==> buf.Buffer? && |buf.data| <= 65535 && forall i :: 0 <= i < |buf.data| ==> buf.data[i] < 256
    requires !kind.StoredKind? ==> Replay(data, toks).Replayed?
    requires kind.DynamicKind? ==> |kind.lit| >= 257 && |kind.dist| >= 1 && 4 <= kind.blcodes <= CodeLengths.BL_CODES
    ensures Decodes(sent + KindBits(kind, toks, buf, last, |sent|), last, RoundTrips.BlockOutput(kind, toks, buf, data))
  {
    hide AllValid, DynamicOk, KindBits, Replay, RoundTrips.At, RoundTrips.BlockOutput, Leads;
    var bits := KindBits(kind, toks, buf, last, |sent|);
    var c := Config(Block(false), |sent|, data);
    var d := Config(Block(last), |sent| + |bits|, RoundTrips.BlockOutput(kind, toks, buf, data));
    LeadsMore(sent, bits, START, c);
    AtEnd(sent, bits);
    RoundTrips.BlockRoundTrip(sent + bits, kind, toks, buf, last, |sent|, data);
    LeadsOn(sent + bits, START, c, d);
  }

  /** A block whose tokens yield the next part of the input, or that stores it. */
  lemma DecodesNext(sent: seq<bool>, data: seq<nat>, from: int, to: int, kind: BlockKind, toks: seq<Token>, buf: Buffer, last: bool)
    requires 0 <= from <= to <= |data| && (!kind.StoredKind? ==> Parsed(data, from, toks, to)) && Decodes(sent, false, data[..from])
    requires AllValid(toks) && (kind.DynamicKind? ==> DynamicOk(kind, toks))
    requires kind.StoredKind? ==> buf.Buffer?
    requires buf.Buffer? ==> |buf.data| <= 65535 && buf.data == data[from..to] && Matching.Bytes(buf.data)
    ensures Decodes(sent + KindBits(kind, toks, buf, last, |sent|), last, data[..to])
  {
    hide AllValid, Replay, Decodes, KindBits;
    DynamicSizes(kind, toks);
    hide DynamicOk;
    if kind.StoredKind? { assert data[..to] == data[..from] + data[from..to]; }
    DecodesBlock(sent, data[..from], kind, toks, buf, last);
  }

  lemma DynamicSizes(kind: BlockKind, toks: seq<Token>)
    requires kind.DynamicKind? ==> DynamicOk(kind, toks)
    ensures kind.DynamicKind? ==> |kind.lit| >= 257 && |kind.dist| >= 1 && 4 <= kind.blcodes <= CodeLengths.BL_CODES
  {
  }

  /** After the last block the stream is padded to a byte, and decoding is over. */
  lemma DecodesEnd(sent: seq<bool>, data: seq<nat>)
    requires Decodes(sent, true, data)
    ensures Leads(sent + Padding(|sent|), START, Config(Done, |sent| + |Padding(|sent|)|, data))
  {
    var pad := Padding(|sent|);
    var c := Config(Block(true), |sent|, data);
    LeadsMore(sent, pad, START, c);
    assert (sent + pad)[|sent|..] == pad;
    assert data + [] == data;
    assert |pad| == Pad(|sent|);
    LeadsMove(sent + pad, START, c, Config(Done, |sent| + |pad|, data));
  }

  // ---- decoding from a point in the middle ----

  /** c, when whole bytes and their output come before. */
  function Behind(pre: seq<bool>, out: seq<nat>, c: Config): Config {
    Config(c.p, |pre| + c.pos, out + c.out)
  }

  /** A step does not depend on what comes before, unless it fails for reaching back too far. */
  lemma MoveBehind(pre: seq<bool>, out: seq<nat>, input: seq<bool>, c: Config, d: Config)
    requires |pre| % 8 == 0 && Move(input, c) == Moved(d) && d.p != Failed
    ensures Move(pre + input, Behind(pre, out, c)) == Moved(Behind(pre, out, d))
  {
    assert (pre + input)[|pre| + c.pos..] == input[c.pos..];
    PadBehind(|pre|, c.pos);
    StepBehind(pre, out, c, input[c.pos..]);
    hide Step;
    var go := Step(c, input[c.pos..]);
    assert out + (c.out + go.emit) == (out + c.out) + go.emit;
  }

  lemma PadBehind(n: nat, pos: nat)
    requires n % 8 == 0
    ensures Pad(n + pos) == Pad(pos)
  {
  }

  lemma StepBehind(pre: seq<bool>, out: seq<nat>, c: Config, w: seq<bool>)
    requires |pre| % 8 == 0 && (Step(c, w).Go? ==> Step(c, w).p != Failed)
    ensures Step(c, w).Go? ==> Step(Behind(pre, out, c), w) == Step(c, w)
  {
    PadBehind(|pre|, c.pos);
    hide LenLensStep, CodeLensStep, LenSymStep, DistSymStep, TableStep, CopyStep, Pad, Lsb, FixedCodes;
    if c.p.MatchOut? { BackBehind(out, c.out, c.p.dist); }
  }

  lemma BackBehind(out: seq<nat>, more: seq<nat>, dist: nat)
    ensures 1 <= dist <= |more| ==> dist <= |out + more| && (out + more)[|out + more| - dist] == more[|more| - dist]
  {
  }

  lemma {:induction false} IterBehind(pre: seq<bool>, out: seq<nat>, input: seq<bool>, c: Config, d: Config, n: nat)
    requires |pre| % 8 == 0 && Iter(input, c, n) == Moved(d) && d.p != Failed
    ensures Iter(pre + input, Behind(pre, out, c), n) == Moved(Behind(pre, out, d))
    decreases n
  {
    hide Move;
    if n > 0 {
      var e := Iter(input, c, n - 1).c;
      FailedStops(input, e);
      IterBehind(pre, out, input, c, e, n - 1);
      MoveBehind(pre, out, input, e, d);
    }
  }

  lemma FailedStops(input: seq<bool>, c: Config)
    ensures c.p == Failed ==> Move(input, c) == Stuck
  {
  }

  /** What decodes from a point between two bytes and two blocks decodes there in the whole stream. */
  lemma Resumed(pre: seq<bool>, early: seq<nat>, since: seq<bool>, d: Config)
    requires |pre| % 8 == 0 && Decodes(pre, false, early) && Leads(since, START, d) && d.p != Failed
    ensures Leads(pre + since, START, Behind(pre, early, d))
  {
    var n: nat :| Iter(since, START, n) == Moved(d);
    IterBehind(pre, early, since, START, d, n);
    hide Iter;
    var c := Config(Block(false), |pre|, early);
    assert Behind(pre, early, START) == c by { assert early + [] == early; }
    LeadsMore(pre, since, START, c);
    LeadsBy(pre + since, c, Behind(pre, early, d), n);
    LeadsOn(pre + since, START, c, Behind(pre, early, d));
  }

  lemma LeadsBy(input: seq<bool>, c: Config, d: Config, n: nat)
    requires Iter(input, c, n) == Moved(d)
    ensures Leads(input, c, d)
  {
    hide Iter;
  }

  /** The bits of a block depend on its position only up to whole bytes. */
  lemma KindShift(kind: BlockKind, toks: seq<Token>, buf: Buffer, last: bool, pos: nat, mark: nat)
    requires AllValid(toks) && (kind.StoredKind? ==> buf.Buffer? && |buf.data| <= 65535) && mark <= pos && mark % 8 == 0
    requires kind.DynamicKind? ==> |kind.lit| >= 257 && |kind.dist| >= 1 && 4 <= kind.blcodes <= CodeLengths.BL_CODES
    ensures KindBits(kind, toks, buf, last, pos) == KindBits(kind, toks, buf, last, pos - mark)
    ensures Padding(pos) == Padding(pos - mark) && Padding(pos + 3) == Padding(pos - mark + 3)
  {
    hide TypeBits, FixedBits, DynamicBits, ToBits, ByteBits, Padding;
    PaddingShift(pos, mark);
    PaddingShift(pos + 3, mark);
  }

  lemma PaddingShift(pos: nat, mark: nat)
    requires mark <= pos && mark % 8 == 0
    ensures Padding(pos) == Padding(pos - mark)
  {
    hide Zeros;
    assert pos % 8 == (pos - mark) % 8;
  }
}
