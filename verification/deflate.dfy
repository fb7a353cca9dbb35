/** The compressor: the match finder feeds tokens to the tree coder, block after
    block and call after call, and everything sent decodes to the input. */
module Deflate {
  import opened Bits
  import opened HuffBits
  import opened BitOutput
  import opened Tokens
  import opened BlockBits
  import opened StaticTrees
  import opened BlockTrees
  import opened Matching
  import opened MatchFinder
  import opened InflateSpec
  import opened Deflating
  import CodeLengths
  import RoundTrips

  datatype Flush = NO_FLUSH | PARTIAL_FLUSH | SYNC_FLUSH | FULL_FLUSH | FINISH | BLOCK_FLUSH

  datatype BlockState = NEED_MORE | BLOCK_DONE | FINISH_STARTED | FINISH_DONE

  datatype Status = OK | STREAM_END | STREAM_ERROR | BUF_ERROR

  datatype Function = STORED | FAST | SLOW | RUNS | HUFF

  datatype Strategy = DEFAULT_STRATEGY | FILTERED | HUFFMAN_ONLY | RLE | FIXED

  /** The number that zlib.h gives to a flush value. */
  function FlushNumber(flush: Flush): nat {
    match flush
    case NO_FLUSH => 0
    case PARTIAL_FLUSH => 1
    case SYNC_FLUSH => 2
    case FULL_FLUSH => 3
    case FINISH => 4
    case BLOCK_FLUSH => 5
  }

  /** RANK: how much a flush value asks for. */
  function FlushRank(flush: Flush): int {
    2 * FlushNumber(flush) - (if FlushNumber(flush) > 4 then 9 else 0)
  }

  /** Nothing, less than a partial flush, a partial, a synchronizing and a full flush, and
      the end ask for more and more, and all for more than a call that ran out of room. */
  lemma FlushOrder()
    ensures -2 < FlushRank(NO_FLUSH) < FlushRank(BLOCK_FLUSH) < FlushRank(PARTIAL_FLUSH) < FlushRank(SYNC_FLUSH)
    ensures FlushRank(SYNC_FLUSH) < FlushRank(FULL_FLUSH) < FlushRank(FINISH)
  {
  }

  class Deflater {
    const m: Matcher
    const coder: TreeCoder
    const level: nat
    const strategy: Strategy
    var availOut: nat
    var delivered: nat
    var lastRank: int
    var ended: bool

    /** The input before the last full flush, and how many bits were sent for it; the
        matcher keeps only the input since then. */
    ghost var earlier: seq<nat>
    ghost var mark: nat

    constructor (level: nat, wBits: nat, memLevel: nat, strategy: Strategy, t: StaticTables)
      requires level <= 9 && 8 <= wBits <= 15 && 1 <= memLevel <= 9 && t.Right()
      ensures Valid() && !ended && Consumed() == [] && m.input == [] && this.level == level && this.strategy == strategy
      ensures fresh(m) && fresh(m.window) && fresh(m.head) && fresh(m.prev) && fresh(coder.Repr())
    {
      hide Pow2, CONFIGURATION, StaticTables.Right, BlockData.TokensOf, FlushRank;
      hide TreeCoder.Valid, TreeCoder.Toks, BitWriter.Sent, Valid;
      hide Matcher.WindowOk, Matcher.Pending, Matcher.Rolling, Matcher.SlowOk, Matcher.Pos, Matcher.BlockPos;
      BufferSizes(memLevel);
      Chained(level);
      this.level, this.strategy := level, strategy;
      var coder0 := new TreeCoder(Pow2(memLevel + 6), level, strategy == FIXED, t);
      var m0 := new Matcher(wBits, memLevel, CONFIGURATION[level], strategy == FILTERED);
      m, coder := m0, coder0;
      availOut, delivered, lastRank := 0, 0, FlushRank(NO_FLUSH);
      ended, earlier, mark := false, [], 0;
      new;
      StartsValid();
    }

    /** Nothing has been read or sent. */
    lemma StartsValid()
      requires level <= 9 && !ended && delivered == 0 && earlier == [] && mark == 0
      requires coder.Valid() && coder.Toks() == [] && coder.w.Sent() == [] && coder.lastLit == 0
      requires coder.level == level && coder.litBufsize >= 128
      requires m.WindowOk() && m.Pending() && m.Rolling() && m.SlowOk() && !m.matchAvailable && m.lookahead == 0
      requires m.matchLength == m.prevLength == MIN_MATCH - 1 && m.ins == {} && m.insert == 0 && m.input == [] && m.data == []
      requires m.Pos() == 0 && m.BlockPos() == 0 && (level > 0 ==> m.tune.chain >= 4)
      requires m.window !in coder.Repr() && m.prev !in coder.Repr() && m.head !in coder.Repr()
      ensures Valid()
    {
      hide TreeCoder.Valid, BlockData.TokensOf, Parsed, Decodes, Matcher.WindowOk, Matcher.Pending, Matcher.Rolling, Matcher.SlowOk;
      m.Room();
      assert m.data[..m.BlockPos()] == [];
      DecodesNothing();
      ParsedNone([], 0);
    }

    // ---- invariants ----

    ghost predicate Apart()
      reads coder
    {
      m.window !in coder.Repr() && m.prev !in coder.Repr() && m.head !in coder.Repr() && m.Shape() && coder.level == level && coder.litBufsize >= 128
    }

    /** All the input that has been compressed. */
    ghost function Consumed(): seq<nat>
      reads `earlier, m`data
    {
      earlier + m.data
    }

    /** The bits sent decode to the input of the blocks sent. */
    ghost predicate Sound()
      reads `earlier, `mark, m`data, m`base, m`blockStart, coder.w
    {
      0 <= m.BlockPos() <= |m.data| && SentAs(false, m.data[..m.BlockPos()])
    }

    /** The tokens of the current block yield the input since then, up to at. */
    ghost predicate Tallied(at: int)
      reads m`data, m`base, m`blockStart, coder, coder.dBuf, coder.lBuf
    {
      coder.lastLit <= coder.dBuf.Length && coder.lastLit <= coder.lBuf.Length && Parsed(m.data, m.BlockPos(), coder.Toks(), at)
    }

    ghost predicate CoderOk()
      reads `delivered, coder, coder.h, coder.w, coder.dBuf, coder.lBuf, coder.lfc, coder.dfc, coder.bfc
    {
      coder.Valid() && 8 * delivered <= |coder.w.Sent()|
    }

    /** Save a token and tally it; true when the block must be flushed. */
    method Emit(t: Token, ghost from: int, ghost to: int) returns (flush: bool)
      requires Apart() && CoderOk() && coder.lastLit + 1 < coder.litBufsize
      requires Tallied(from) && Matching.Covers(m.data, from, t, to)
      modifies coder, coder.dBuf, coder.lBuf, coder.lfc, coder.dfc
      ensures CoderOk() && coder.lastLit == old(coder.lastLit) + 1 && flush == (coder.lastLit == coder.litBufsize - 1)
      ensures Tallied(to) && coder.Toks() == old(coder.Toks()) + [t]
    {
      hide StaticTables.Right, LitFreqs, DistFreqs, Parsed, BlockData.TokensOf;
      ParsedNext(m.data, m.BlockPos(), coder.Toks(), from, t, to);
      match t {
        case Lit(b) => flush := coder.TallyLit(b);
        case Match(len, dist) => flush := coder.TallyDist(dist, len - MIN_MATCH);
      }
    }

    /** Flush as much pending output as possible. */
    method FlushPending()
      requires CoderOk()
      modifies `availOut, `delivered, coder.w
      ensures CoderOk() && coder.w.Sent() == old(coder.w.Sent())
      ensures delivered - old(delivered) == old(availOut) - availOut >= 0
      ensures delivered <= |coder.w.pending| && (availOut == 0 || delivered == |coder.w.pending|) && coder.w.biValid <= 7
    {
      hide StaticTables.Right, LitFreqs, DistFreqs;
      coder.w.BiFlush();
      assert |coder.w.Sent()| == 8 * |coder.w.pending| + coder.w.biValid;
      var len := |coder.w.pending| - delivered;
      if len > availOut { len := availOut; }
      delivered := delivered + len;
      availOut := availOut - len;
    }

    /** The whole stream has been sent and decodes to the input up to the end of its
        last block. */
    ghost predicate Complete()
      reads `earlier, `mark, m`data, m`base, m`blockStart, coder.w
    {
      0 <= m.BlockPos() <= |m.data| && SentAs(true, m.data[..m.BlockPos()]) && coder.w.biValid <= 7
    }

    /** The raw bytes of the current block, unless the window has lost them. */
    method BlockBuffer() returns (buf: Buffer)
      requires m.WindowOk() && m.blockStart <= m.strstart && 0 <= m.BlockPos()
      requires m.blockStart >= 0 ==> m.strstart - m.blockStart <= 65535
      ensures buf.Buffer? <==> m.blockStart >= 0
      ensures buf.Buffer? ==> |buf.data| == m.strstart - m.blockStart && buf.data == m.data[m.BlockPos()..m.Pos()] && Matching.Bytes(buf.data)
    {
      if m.blockStart >= 0 {
        HoldsSlice(m.window[..], m.data, m.base, m.strstart + m.lookahead, m.blockStart, m.strstart);
        buf := Buffer(m.window[m.blockStart..m.strstart]);
        assert forall i :: 0 <= i < |buf.data| ==> buf.data[i] == m.data[m.BlockPos() + i];
      } else {
        buf := NoBuffer;
      }
    }

    /** What has been sent since the last full flush decodes by itself to these bytes: to a block
        boundary, or to the end; and what was sent before it to the earlier input. */
    ghost predicate SentAs(last: bool, bytes: seq<nat>)
      reads `earlier, `mark, coder.w
    {
      StandsFor(coder.w.Sent(), mark, earlier, last, bytes)
    }

    /** Send the current block, which stands for the input between from and to. */
    method SendBlock(buf: Buffer, storedLen: nat, last: bool, ghost data: seq<nat>, ghost from: nat, ghost to: nat)
      requires from <= to <= |data| && CoderOk() && coder.level == level && SentAs(false, data[..from])
      requires buf.Buffer? ==> |buf.data| == storedLen <= 65535 && buf.data == data[from..to] && Matching.Bytes(buf.data)
      requires Parsed(data, from, coder.Toks(), to) || (level == 0 && buf.Buffer?)
      modifies coder.Repr()
      ensures CoderOk() && coder.lastLit == 0 && coder.Toks() == [] && SentAs(last, data[..to])
    {
      hide StaticTables.Right, LitFreqs, DistFreqs, DynamicOk, Choice, KindBits, Decodes, Parsed, Replay,
           Leads, AllValid, Padding, StandsFor, BitWriter.Sent;
      ghost var sent, toks := coder.w.Sent(), coder.Toks();
      ghost var kind, dyn := coder.FlushBlock(buf, storedLen, last);
      DynamicSizes(kind, toks);
      if last { PaddedLength(|sent + KindBits(kind, toks, buf, last, |sent|)|); }
      FlushedSince(sent, coder.w.Sent(), mark, earlier, data, from, to, kind, toks, buf, last);
    }

    /** _tr_align and _tr_stored_block without data: an empty block. */
    method SendEmpty(kind: BlockKind, ghost data: seq<nat>)
      requires CoderOk() && coder.lastLit == 0 && SentAs(false, data) && (kind == FixedKind || kind == StoredKind)
      modifies coder.w
      ensures CoderOk() && SentAs(false, data) && (kind == StoredKind ==> |coder.w.Sent()| % 8 == 0)
      ensures coder.w.Sent() == old(coder.w.Sent()) + EmptyBlock(kind, |old(coder.w.Sent())|)
    {
      hide StaticTables.Right, LitFreqs, DistFreqs, KindBits, Decodes, Leads, Padding, FixedBits, StoredBits, TypeBits, StandsFor, BitWriter.Sent;
      ghost var sent := coder.w.Sent();
      ghost var toks := coder.Toks();
      if kind == FixedKind {
        coder.SendFixed(toks, false);
      } else {
        coder.StoredBlock([], false);
      }
      EmptyBits(kind, toks, |sent|);
      EmptySince(sent, mark, earlier, data, kind, toks);
    }

    /** Send the current block, whose tokens yield the input up to strstart. */
    method SendCurrent(last: bool)
      requires Apart() && CoderOk() && Sound() && m.WindowOk()
      requires Tallied(m.Pos()) || (level == 0 && 0 <= m.blockStart <= m.strstart)
      requires m.blockStart >= 0 ==> m.strstart - m.blockStart <= 65535
      modifies coder.Repr()
      ensures CoderOk() && coder.lastLit == 0 && coder.Toks() == [] && m.Pos() <= |m.data| && SentAs(last, m.data[..m.Pos()])
      ensures m.window[..] == old(m.window[..])
    {
      hide TreeCoder.Valid, CoderOk, SentAs, Parsed, Holds, Matching.Bytes, BlockData.TokensOf;
      ghost var from, to := m.BlockPos(), m.Pos();
      m.Room();
      if Tallied(m.Pos()) { InOrder(m.data, from, coder.Toks(), to); }
      var buf := BlockBuffer();
      SendBlock(buf, m.strstart - m.blockStart, last, m.data, from, to);
    }

    /** Send the current block, and start the next at strstart. */
    method EndBlock(last: bool)
      requires Apart() && CoderOk() && Sound() && m.WindowOk() && !ended
      requires Tallied(m.Pos()) || (level == 0 && 0 <= m.blockStart <= m.strstart)
      requires m.blockStart >= 0 ==> m.strstart - m.blockStart <= 65535
      modifies `ended, m`blockStart, coder.Repr()
      ensures Apart() && CoderOk() && coder.lastLit == 0 && m.blockStart == m.strstart && Tallied(m.Pos())
      ensures ended == last && m.Pos() <= |m.data| && SentAs(last, m.data[..m.Pos()])
    {
      hide TreeCoder.Valid, CoderOk, Sound, SentAs, Matcher.WindowOk, Parsed, BlockData.TokensOf, StandsFor, BitWriter.Sent;
      SendCurrent(last);
      ended := last;
      m.blockStart := m.strstart;
      ParsedNone(m.data, m.Pos());
    }

    /** Flush the current block, and start the next at strstart. */
    method FlushBlockOnly(last: bool)
      requires Apart() && CoderOk() && Sound() && m.WindowOk() && !ended
      requires Tallied(m.Pos()) || (level == 0 && 0 <= m.blockStart <= m.strstart)
      requires m.blockStart >= 0 ==> m.strstart - m.blockStart <= 65535
      modifies `ended, `availOut, `delivered, m`blockStart, coder.Repr()
      ensures Apart() && CoderOk() && coder.lastLit == 0 && m.blockStart == m.strstart && Tallied(m.Pos())
      ensures if last then ended && Complete() else !ended && Sound()
      ensures availOut == 0 || delivered == |coder.w.pending|
    {
      hide TreeCoder.Valid, CoderOk, Sound, Complete, Matcher.WindowOk, Parsed, BlockData.TokensOf, StandsFor, BitWriter.Sent, Matcher.Shape;
      EndBlock(last);
      FlushPending();
      SoundIs(last);
    }

    lemma SoundIs(last: bool)
      requires m.blockStart == m.strstart && m.Pos() <= |m.data| && SentAs(last, m.data[..m.Pos()])
      ensures last && coder.w.biValid <= 7 ==> Complete()
      ensures !last ==> Sound()
    {
    }

    // ---- the four ways to look for matches ----

    function Algorithm(): Function {
      if strategy == HUFFMAN_ONLY then HUFF
      else if strategy == RLE then RUNS
      else if level == 0 then STORED
      else if level <= 3 then FAST
      else SLOW
    }

    /** Between turns: everything emitted, up to the byte held back, is tallied or sent. */
    ghost predicate Core()
      reads `ended, `delivered, `earlier, `mark, coder, coder.Repr(), m`strstart, m`lookahead, m`insert, m`data, m`base, m`ins, m`input, m`blockStart, m`matchAvailable
      reads m.window, m.head, m.prev
    {
      && Apart() && CoderOk() && Sound() && !ended && coder.lastLit + 1 < coder.litBufsize
      && m.WindowOk() && m.Pending() && Tallied(m.EmittedTo())
    }

    ghost predicate FastOk()
      reads m, m.window, m.head, m.prev
    {
      m.Valid() && m.matchLength < MIN_MATCH && m.prevLength == MIN_MATCH - 1 && !m.matchAvailable
    }

    ghost predicate SlowOk()
      reads m, m.window, m.head, m.prev
    {
      m.Valid() && m.SlowOk()
    }

    /** How a call can end. */
    ghost predicate Returned(st: BlockState, flush: Flush)
      reads `ended, `delivered, `earlier, `mark, `availOut, m`data, m`base, m`strstart, m`lookahead, m`blockStart, m`input, m`matchAvailable
      reads coder, coder.Repr()
    {
      match st
      case NEED_MORE => availOut == 0 || (flush == NO_FLUSH && m.input == [])
      case BLOCK_DONE => flush !in {NO_FLUSH, FINISH} && m.input == [] && AtBoundary()
      case FINISH_STARTED => flush == FINISH && availOut == 0 && AllSent() && m.input == []
      case FINISH_DONE => flush == FINISH && availOut > 0 && AllSent() && m.input == [] && delivered == |coder.w.pending|
    }

    /** The stream is finished and decodes to the whole input. */
    ghost predicate AllSent()
      reads `ended, `delivered, `earlier, `mark, m`data, m`base, m`blockStart, m`lookahead, coder, coder.Repr()
    {
      ended && Complete() && m.BlockPos() == |m.data| && m.lookahead == 0 && Apart() && CoderOk()
    }

    /** fill_window, seen from the compressor. */
    method Fill()
      requires Core() && m.lookahead < MIN_LOOKAHEAD
      modifies m`matchStart, m`strstart, m`blockStart, m`base, m`lookahead, m`input, m`data, m`insH, m`insert, m`ins, m`highWater
      modifies m.window, m.head, m.prev
      ensures Core() && (old(m.Rolling()) ==> m.Rolling()) && (old(m.SlowOk()) ==> m.SlowOk())
      ensures m.strstart <= 2 * m.wSize - MIN_LOOKAHEAD && (m.lookahead >= MIN_LOOKAHEAD || m.input == [])
      ensures m.Pos() == old(m.Pos()) && m.BlockPos() == old(m.BlockPos())
      ensures m.data + m.input == old(m.data + m.input) && |m.input| + m.lookahead == |old(m.input)| + old(m.lookahead)
    {
      hide StaticTables.Right, LitFreqs, DistFreqs, Decodes, Parsed, Holds, Matching.Bytes, HashChains.Chains, MatchAt;
      ghost var data0, from, to := m.data, m.BlockPos(), m.EmittedTo();
      m.FillWindow();
      ParsedMore(data0, m.data, from, coder.Toks(), to);
      assert m.data[..from] == data0[..from];
    }

    /** Tally a token that ends at strstart, and flush the block when it is full. */
    method EmitBlock(t: Token, ghost from: int) returns (stop: bool)
      requires Apart() && CoderOk() && Sound() && !ended && coder.lastLit + 1 < coder.litBufsize
      requires m.WindowOk() && m.strstart <= 65535 && Tallied(from) && Matching.Covers(m.data, from, t, m.Pos())
      modifies `ended, `availOut, `delivered, m`blockStart, coder.Repr()
      ensures Apart() && CoderOk() && Sound() && !ended && coder.lastLit + 1 < coder.litBufsize
      ensures Tallied(m.Pos()) && (stop ==> availOut == 0)
    {
      hide StaticTables.Right, LitFreqs, DistFreqs, Decodes, Parsed, Holds, Matching.Bytes, Matching.Covers, BlockData.TokensOf;
      var bflush := Emit(t, from, m.Pos());
      stop := false;
      if bflush {
        FlushBlockOnly(false);
        stop := availOut == 0;
      }
    }

    /** After the last turn: flush what is left of the block. */
    method Finish(flush: Flush) returns (st: BlockState)
      requires Apart() && CoderOk() && Sound() && !ended && coder.lastLit < coder.litBufsize
      requires m.WindowOk() && (m.blockStart >= 0 ==> m.strstart - m.blockStart <= 65535) && Tallied(m.Pos())
      requires m.lookahead == 0 && m.input == [] && flush != NO_FLUSH && (Algorithm() == SLOW ==> !m.matchAvailable)
      modifies `ended, `availOut, `delivered, m`blockStart, coder.Repr()
      ensures flush == FINISH ==> st in {FINISH_STARTED, FINISH_DONE}
      ensures Returned(st, flush)
      ensures st in {NEED_MORE, BLOCK_DONE} ==>
        Apart() && CoderOk() && Sound() && !ended && coder.lastLit + 1 < coder.litBufsize && Tallied(m.Pos())
        && coder.lastLit == 0 && m.blockStart == m.strstart
    {
      hide StaticTables.Right, LitFreqs, DistFreqs, Decodes, Parsed, Holds, Matching.Bytes, BlockData.TokensOf, Leads;
      m.Room();
      if flush == FINISH {
        FlushBlockOnly(true);
        return if availOut == 0 then FINISH_STARTED else FINISH_DONE;
      }
      if coder.lastLit > 0 {
        FlushBlockOnly(false);
        if availOut == 0 { return NEED_MORE; }
      } else {
        NoTokens(m.data, m.BlockPos(), coder.Toks(), m.Pos());
      }
      st := BLOCK_DONE;
    }

    lemma NeedsMore(flush: Flush)
      requires availOut == 0 || (flush == NO_FLUSH && m.input == [])
      ensures Returned(NEED_MORE, flush)
    {
    }

    /** Enough lookahead leaves room behind it. */
    lemma RoomAhead(n: nat)
      requires Core() && m.lookahead >= n
      ensures m.strstart + n <= 2 * m.wSize <= 65536
    {
      hide TreeCoder.Valid, CoderOk, Sound, Tallied;
      m.Room();
    }

    /** Fill, for deflate_fast. */
    method FillFast()
      requires Core() && FastOk() && m.lookahead < MIN_LOOKAHEAD
      modifies m`matchStart, m`strstart, m`blockStart, m`base, m`lookahead, m`input, m`data, m`insH, m`insert, m`ins, m`highWater
      modifies m.window, m.head, m.prev
      ensures Core() && FastOk() && m.strstart <= 2 * m.wSize - MIN_LOOKAHEAD && (m.lookahead >= MIN_LOOKAHEAD || m.input == [])
      ensures m.data + m.input == old(m.data + m.input) && |m.input| + m.lookahead == |old(m.input)| + old(m.lookahead)
    {
      hide Apart, CoderOk, Sound, Tallied;
      hide Matcher.WindowOk, Matcher.Pending, Matcher.Rolling, Matcher.SlowOk;
      Fill();
    }

    /** One turn of deflate_fast. */
    method FastTurn() returns (stop: bool)
      requires Core() && FastOk() && m.lookahead > 0 && m.strstart <= 2 * m.wSize - MIN_LOOKAHEAD
      modifies `ended, `availOut, `delivered, m`insH, m`ins, m`strstart, m`lookahead, m`matchStart, m`matchLength, m`blockStart
      modifies m.head, m.prev, coder.Repr()
      ensures Core() && FastOk() && m.lookahead < old(m.lookahead) && (stop ==> availOut == 0)
      ensures m.data == old(m.data) && m.input == old(m.input)
    {
      hide LitFreqs, DistFreqs, Decodes, Parsed, Matching.Covers, BlockData.TokensOf, Leads, TreeCoder.Valid, CoderOk, Sound, Tallied;
      hide Matcher.WindowOk, Matcher.Pending, Matcher.Rolling;
      m.Room();
      ghost var from := m.Pos();
      var t := m.FastStep();
      stop := EmitBlock(t, from);
    }

    /** Flush what is left of the block at the end of the input. */
    method FastEnd(flush: Flush) returns (st: BlockState)
      requires Core() && FastOk() && m.lookahead == 0 && m.input == [] && flush != NO_FLUSH && m.strstart <= 65535
      modifies `ended, `availOut, `delivered, m`insert, m`blockStart, coder.Repr()
      ensures flush == FINISH ==> st in {FINISH_STARTED, FINISH_DONE}
      ensures Returned(st, flush) && (st in {NEED_MORE, BLOCK_DONE} ==> Core() && FastOk())
      ensures m.data == old(m.data) && m.input == old(m.input)
    {
      hide LitFreqs, DistFreqs, Decodes, Parsed, BlockData.TokensOf, Leads, TreeCoder.Valid, CoderOk, Sound, Tallied;
      hide Matcher.WindowOk, Matcher.Pending, Matcher.Rolling, AllSent;
      m.LeavePending();
      st := Finish(flush);
    }

    /** deflate_fast: no lazy evaluation of matches. */
    method DeflateFast(flush: Flush) returns (st: BlockState)
      requires Core() && FastOk()
      modifies `ended, `availOut, `delivered, m, m.window, m.head, m.prev, coder.Repr()
      ensures m.data + m.input == old(m.data + m.input) && Returned(st, flush)
      ensures |m.input| + m.lookahead <= |old(m.input)| + old(m.lookahead)
      ensures flush == FINISH && st == NEED_MORE ==> |m.input| + m.lookahead < |old(m.input)| + old(m.lookahead)
      ensures st in {NEED_MORE, BLOCK_DONE} ==> Core() && FastOk()
    {
      hide *;
      Separate();
      Lookaheads();
      while true
        invariant Core() && FastOk() && m.data + m.input == old(m.data + m.input)
        invariant |m.input| + m.lookahead <= |old(m.input)| + old(m.lookahead)
        decreases |m.input| + m.lookahead
      {
        RoomAhead(0);
        if m.lookahead < MIN_LOOKAHEAD {
          FillFast();
          NeedsMoreIf(flush);
          if m.lookahead < MIN_LOOKAHEAD && flush == NO_FLUSH { return NEED_MORE; }
          if m.lookahead == 0 { break; }
        } else {
          RoomAhead(MIN_LOOKAHEAD);
        }
        var stop := FastTurn();
        if stop {
          NeedsMore(flush);
          return NEED_MORE;
        }
      }
      RoomAhead(0);
      st := FastEnd(flush);
    }

    /** Without flushing, the call ends when the input does. */
    lemma NeedsMoreIf(flush: Flush)
      ensures m.input == [] && flush == NO_FLUSH ==> Returned(NEED_MORE, flush)
    {
    }

    lemma Lookaheads()
      ensures MIN_LOOKAHEAD == 262 && MAX_MATCH == 258
    {
    }

    /** In the middle of a turn of deflate_slow: the match at strstart has been looked for. */
    ghost predicate Turning()
      reads `ended, `delivered, `earlier, `mark, coder, coder.Repr(), m`strstart, m`lookahead, m`insert, m`insH, m`data, m`base, m`ins, m`input
      reads m`blockStart, m`matchStart, m`matchLength, m`prevMatch, m`prevLength, m`matchAvailable, m.window, m.head, m.prev
    {
      && Apart() && CoderOk() && Sound() && !ended && coder.lastLit + 1 < coder.litBufsize
      && m.SlowFound() && Tallied(m.EmittedTo()) && m.strstart <= 2 * m.wSize - MIN_LOOKAHEAD
    }

    /** The first half of a turn. */
    method SlowLook()
      requires Core() && SlowOk() && m.lookahead > 0 && m.strstart <= 2 * m.wSize - MIN_LOOKAHEAD
      modifies m`insH, m`ins, m`matchStart, m`matchLength, m`prevLength, m`prevMatch, m.head, m.prev
      ensures Turning()
    {
      hide LitFreqs, DistFreqs, Decodes, Parsed, BlockData.TokensOf, Leads, TreeCoder.Valid, CoderOk, Sound, Tallied;
      hide Matcher.WindowOk, Matcher.Pending, Matcher.Rolling, Matcher.SlowOk, Matcher.SlowFound;
      m.SlowFind();
    }

    /** Output the match kept from the previous position. */
    method SlowMatch() returns (stop: bool)
      requires Turning() && m.prevLength >= MIN_MATCH
      modifies `ended, `availOut, `delivered, m`insH, m`ins, m`strstart, m`lookahead, m`matchLength
      modifies m`prevLength, m`matchAvailable, m`blockStart, m.head, m.prev, coder.Repr()
      ensures Core() && SlowOk() && m.lookahead < old(m.lookahead) && (stop ==> availOut == 0)
      ensures m.data == old(m.data) && m.input == old(m.input)
    {
      hide LitFreqs, DistFreqs, Decodes, Parsed, Matching.Covers, BlockData.TokensOf, Leads, TreeCoder.Valid, CoderOk, Sound, Tallied;
      hide Matcher.WindowOk, Matcher.Pending, Matcher.Rolling, Matcher.SlowFound, Matcher.SlowOk;
      ghost var from := m.Pos() - 1;
      var t := m.TakeHeld();
      m.Room();
      stop := EmitBlock(t, from);
    }

    /** The previous byte is output as a literal, and this one is kept. */
    method SlowLiteral() returns (stop: bool)
      requires Turning() && m.matchAvailable && !(m.prevLength >= MIN_MATCH && m.matchLength <= m.prevLength)
      modifies `ended, `availOut, `delivered, m`strstart, m`lookahead, m`matchAvailable, m`blockStart, coder.Repr()
      ensures Core() && SlowOk() && m.lookahead < old(m.lookahead) && (stop ==> availOut == 0)
      ensures m.data == old(m.data) && m.input == old(m.input)
    {
      hide LitFreqs, DistFreqs, Decodes, Parsed, Matching.Covers, BlockData.TokensOf, Leads, TreeCoder.Valid, CoderOk, Sound, Tallied;
      hide Matcher.WindowOk, Matcher.Pending, Matcher.Rolling, Matcher.SlowFound, Matcher.SlowOk;
      m.FoundWindow();
      m.Room();
      var t := m.HeldLiteral();
      var flushed := EmitBlock(t, m.Pos() - 1);
      m.Advance();
      stop := availOut == 0;
    }

    /** There is no previous byte to output yet. */
    method SlowFirst()
      requires Turning() && !m.matchAvailable && !(m.prevLength >= MIN_MATCH && m.matchLength <= m.prevLength)
      modifies m`strstart, m`lookahead, m`matchAvailable
      ensures Core() && SlowOk() && m.lookahead < old(m.lookahead)
    {
      hide LitFreqs, DistFreqs, Decodes, Parsed, BlockData.TokensOf, Leads, TreeCoder.Valid, CoderOk, Sound, Tallied;
      hide Matcher.WindowOk, Matcher.Pending, Matcher.Rolling, Matcher.SlowFound, Matcher.SlowOk;
      m.Advance();
    }

    /** One turn of deflate_slow. */
    method SlowTurn() returns (stop: bool)
      requires Core() && SlowOk() && m.lookahead > 0 && m.strstart <= 2 * m.wSize - MIN_LOOKAHEAD
      modifies `ended, `availOut, `delivered, m`insH, m`ins, m`strstart, m`lookahead, m`matchStart, m`matchLength
      modifies m`prevLength, m`prevMatch, m`matchAvailable, m`blockStart, m.head, m.prev, coder.Repr()
      ensures Core() && SlowOk() && m.lookahead < old(m.lookahead) && (stop ==> availOut == 0)
      ensures m.data == old(m.data) && m.input == old(m.input)
    {
      hide *;
      SlowLook();
      if m.prevLength >= MIN_MATCH && m.matchLength <= m.prevLength {
        stop := SlowMatch();
      } else if m.matchAvailable {
        stop := SlowLiteral();
      } else {
        SlowFirst();
        stop := false;
      }
    }

    /** Fill, for deflate_slow. */
    method FillSlow()
      requires Core() && SlowOk() && m.lookahead < MIN_LOOKAHEAD
      modifies m`matchStart, m`strstart, m`blockStart, m`base, m`lookahead, m`input, m`data, m`insH, m`insert, m`ins, m`highWater
      modifies m.window, m.head, m.prev
      ensures Core() && SlowOk() && m.strstart <= 2 * m.wSize - MIN_LOOKAHEAD && (m.lookahead >= MIN_LOOKAHEAD || m.input == [])
      ensures m.data + m.input == old(m.data + m.input) && |m.input| + m.lookahead == |old(m.input)| + old(m.lookahead)
    {
      hide Apart, CoderOk, Sound, Tallied;
      hide Matcher.WindowOk, Matcher.Pending, Matcher.Rolling, Matcher.SlowOk;
      Fill();
    }

    /** deflate_slow: a match is adopted only if there is no longer one at the next position. */
    method DeflateSlow(flush: Flush) returns (st: BlockState)
      requires Core() && SlowOk()
      modifies `ended, `availOut, `delivered, m, m.window, m.head, m.prev, coder.Repr()
      ensures m.data + m.input == old(m.data + m.input) && Returned(st, flush)
      ensures |m.input| + m.lookahead <= |old(m.input)| + old(m.lookahead)
      ensures flush == FINISH && st == NEED_MORE ==> |m.input| + m.lookahead < |old(m.input)| + old(m.lookahead)
      ensures st in {NEED_MORE, BLOCK_DONE} ==> Core() && SlowOk()
    {
      hide *;
      Separate();
      Lookaheads();
      while true
        invariant Core() && SlowOk() && m.data + m.input == old(m.data + m.input)
        invariant |m.input| + m.lookahead <= |old(m.input)| + old(m.lookahead)
        decreases |m.input| + m.lookahead
      {
        RoomAhead(0);
        if m.lookahead < MIN_LOOKAHEAD {
          FillSlow();
          NeedsMoreIf(flush);
          if m.lookahead < MIN_LOOKAHEAD && flush == NO_FLUSH { return NEED_MORE; }
          if m.lookahead == 0 { break; }
        } else {
          RoomAhead(MIN_LOOKAHEAD);
        }
        var stop := SlowTurn();
        if stop {
          NeedsMore(flush);
          return NEED_MORE;
        }
      }
      RoomAhead(0);
      st := SlowEnd(flush);
    }

    /** Output the byte held back. */
    method SlowLast()
      requires Core() && SlowOk() && m.lookahead == 0 && m.matchAvailable
      modifies m`matchAvailable, coder.Repr()
      ensures Ending() && m.Valid() && m.SlowOk() && !m.matchAvailable
      ensures m.data == old(m.data) && m.input == old(m.input) && m.strstart == old(m.strstart) && m.lookahead == old(m.lookahead)
    {
      hide LitFreqs, DistFreqs, Decodes, Parsed, Matching.Covers, BlockData.TokensOf, Leads, TreeCoder.Valid, CoderOk, Sound, Tallied;
      hide Matcher.WindowOk, Matcher.Pending, Matcher.Rolling, Matcher.SlowOk;
      ghost var from := m.EmittedTo();
      var t := m.LastLiteral();
      var flushed := Emit(t, from, m.Pos());
    }

    /** At the end of the input nothing is held back. */
    ghost predicate Ending()
      reads `ended, `delivered, `earlier, `mark, coder, coder.Repr(), m`strstart, m`lookahead, m`data, m`base, m`input, m`blockStart, m.window
    {
      && Apart() && CoderOk() && Sound() && !ended && coder.lastLit < coder.litBufsize
      && m.WindowOk() && Tallied(m.Pos())
    }

    /** Output the byte held back, and flush what is left of the block. */
    method SlowEnd(flush: Flush) returns (st: BlockState)
      requires Core() && SlowOk() && m.lookahead == 0 && m.input == [] && flush != NO_FLUSH && m.strstart <= 65535
      modifies `ended, `availOut, `delivered, m`matchAvailable, m`insert, m`blockStart, coder.Repr()
      ensures flush == FINISH ==> st in {FINISH_STARTED, FINISH_DONE}
      ensures Returned(st, flush) && (st in {NEED_MORE, BLOCK_DONE} ==> Core() && SlowOk())
      ensures m.data == old(m.data) && m.input == old(m.input)
    {
      hide *;
      HeldBack();
      if m.matchAvailable { SlowLast(); }
      st := SlowClose(flush);
    }

    lemma HeldBack()
      requires Core() && SlowOk()
      ensures m.Valid() && m.SlowOk() && (!m.matchAvailable ==> Ending())
    {
      hide CoderOk, Sound, Tallied, Apart;
      hide Matcher.WindowOk, Matcher.Pending, Matcher.Rolling, Matcher.SlowOk;
    }

    /** Flush what is left of the block. */
    method SlowClose(flush: Flush) returns (st: BlockState)
      requires Ending() && m.Valid() && m.SlowOk() && !m.matchAvailable
      requires m.lookahead == 0 && m.input == [] && flush != NO_FLUSH && m.strstart <= 65535
      modifies `ended, `availOut, `delivered, m`insert, m`blockStart, coder.Repr()
      ensures flush == FINISH ==> st in {FINISH_STARTED, FINISH_DONE}
      ensures Returned(st, flush) && (st in {NEED_MORE, BLOCK_DONE} ==> Core() && SlowOk())
      ensures m.data == old(m.data) && m.input == old(m.input)
    {
      hide LitFreqs, DistFreqs, Decodes, Parsed, BlockData.TokensOf, Leads, TreeCoder.Valid, CoderOk, Sound, Tallied;
      hide Matcher.WindowOk, Matcher.Pending, Matcher.Rolling, Matcher.SlowOk, AllSent;
      m.LeavePending();
      st := Finish(flush);
    }

    /** deflate_rle and deflate_huff keep no dictionary. */
    ghost predicate PlainOk()
      reads m`matchAvailable
    {
      !m.matchAvailable
    }

    /** Fill, for deflate_rle and deflate_huff. */
    method FillPlain()
      requires Core() && PlainOk() && m.lookahead < MIN_LOOKAHEAD
      modifies m`matchStart, m`strstart, m`blockStart, m`base, m`lookahead, m`input, m`data, m`insH, m`insert, m`ins, m`highWater
      modifies m.window, m.head, m.prev
      ensures Core() && PlainOk() && (old(OneByteEach()) ==> OneByteEach())
      ensures m.strstart <= 2 * m.wSize - MIN_LOOKAHEAD && (m.lookahead >= MIN_LOOKAHEAD || m.input == [])
      ensures m.data + m.input == old(m.data + m.input) && |m.input| + m.lookahead == |old(m.input)| + old(m.lookahead)
    {
      hide Apart, CoderOk, Sound, Tallied;
      hide Matcher.WindowOk, Matcher.Pending, Matcher.Rolling, Matcher.SlowOk;
      Fill();
    }

    /** One turn of deflate_rle. */
    method RleTurn() returns (stop: bool)
      requires Core() && PlainOk() && m.lookahead > 0 && m.strstart + MAX_MATCH < 2 * m.wSize
      modifies `ended, `availOut, `delivered, m`strstart, m`lookahead, m`matchLength, m`blockStart, coder.Repr()
      ensures Core() && PlainOk() && m.lookahead < old(m.lookahead) && (stop ==> availOut == 0)
      ensures m.data == old(m.data) && m.input == old(m.input)
    {
      hide LitFreqs, DistFreqs, Decodes, Parsed, Matching.Covers, BlockData.TokensOf, Leads, TreeCoder.Valid, CoderOk, Sound, Tallied;
      hide Matcher.WindowOk, Matcher.Pending, Matcher.Rolling, Matcher.SlowOk;
      m.Room();
      ghost var from := m.Pos();
      var t := m.RleStep();
      m.Room();
      stop := EmitBlock(t, from);
    }

    /** Flush what is left of the block; without a dictionary no strings stay to be inserted. */
    method PlainEnd(flush: Flush) returns (st: BlockState)
      requires Core() && PlainOk() && m.lookahead == 0 && m.input == [] && flush != NO_FLUSH
      requires m.strstart <= 65535 || OneByteEach()
      modifies `ended, `availOut, `delivered, m`insert, m`blockStart, coder.Repr()
      ensures flush == FINISH ==> st in {FINISH_STARTED, FINISH_DONE}
      ensures Returned(st, flush) && (st in {NEED_MORE, BLOCK_DONE} ==> Core() && PlainOk() && OneByteEach())
      ensures m.data == old(m.data) && m.input == old(m.input)
    {
      hide LitFreqs, DistFreqs, Decodes, Parsed, BlockData.TokensOf, Leads, TreeCoder.Valid, CoderOk, Sound, Tallied;
      hide Matcher.WindowOk, Matcher.Pending, Matcher.Rolling, Matcher.SlowOk, AllSent;
      m.LeaveNone();
      BufferBound();
      st := Finish(flush);
    }

    lemma BufferBound()
      requires CoderOk()
      ensures coder.litBufsize <= 32768
    {
    }

    /** deflate_rle: only runs of bytes, as matches of distance one. */
    method DeflateRle(flush: Flush) returns (st: BlockState)
      requires Core() && PlainOk()
      modifies `ended, `availOut, `delivered, m, m.window, m.head, m.prev, coder.Repr()
      ensures m.data + m.input == old(m.data + m.input) && Returned(st, flush)
      ensures |m.input| + m.lookahead <= |old(m.input)| + old(m.lookahead)
      ensures flush == FINISH && st == NEED_MORE ==> |m.input| + m.lookahead < |old(m.input)| + old(m.lookahead)
      ensures st in {NEED_MORE, BLOCK_DONE} ==> Core() && PlainOk()
    {
      hide *;
      Separate();
      Lookaheads();
      while true
        invariant Core() && PlainOk() && m.data + m.input == old(m.data + m.input)
        invariant |m.input| + m.lookahead <= |old(m.input)| + old(m.lookahead)
        decreases |m.input| + m.lookahead
      {
        RoomAhead(0);
        if m.lookahead <= MAX_MATCH {
          FillPlain();
          NeedsMoreIf(flush);
          if m.lookahead <= MAX_MATCH && flush == NO_FLUSH { return NEED_MORE; }
          if m.lookahead == 0 { break; }
        } else {
          RoomAhead(MAX_MATCH + 1);
        }
        var stop := RleTurn();
        if stop {
          NeedsMore(flush);
          return NEED_MORE;
        }
      }
      RoomAhead(0);
      st := PlainEnd(flush);
    }

    /** One turn of deflate_huff. */
    method HuffTurn() returns (stop: bool)
      requires Core() && PlainOk() && OneByteEach() && m.lookahead > 0
      modifies `ended, `availOut, `delivered, m`strstart, m`lookahead, m`matchLength, m`blockStart, coder.Repr()
      ensures Core() && PlainOk() && OneByteEach() && m.lookahead < old(m.lookahead) && (stop ==> availOut == 0)
      ensures m.data == old(m.data) && m.input == old(m.input)
    {
      hide LitFreqs, DistFreqs, Decodes, Parsed, Matching.Covers, BlockData.TokensOf, Leads, TreeCoder.Valid, CoderOk, Sound, Tallied;
      hide Matcher.WindowOk, Matcher.Pending, Matcher.Rolling, Matcher.SlowOk;
      ghost var from := m.Pos();
      var t := m.HuffStep();
      stop := EmitByte(t, from);
    }

    /** deflate_huff: literals only. Each token is one byte, so a block cannot be too long. */
    method DeflateHuff(flush: Flush) returns (st: BlockState)
      requires Core() && PlainOk() && OneByteEach()
      modifies `ended, `availOut, `delivered, m, m.window, m.head, m.prev, coder.Repr()
      ensures m.data + m.input == old(m.data + m.input) && Returned(st, flush)
      ensures |m.input| + m.lookahead <= |old(m.input)| + old(m.lookahead)
      ensures flush == FINISH && st == NEED_MORE ==> |m.input| + m.lookahead < |old(m.input)| + old(m.lookahead)
      ensures st in {NEED_MORE, BLOCK_DONE} ==> Core() && PlainOk() && OneByteEach()
    {
      hide *;
      Separate();
      Lookaheads();
      while true
        invariant Core() && PlainOk() && OneByteEach() && m.data + m.input == old(m.data + m.input)
        invariant |m.input| + m.lookahead <= |old(m.input)| + old(m.lookahead)
        decreases |m.input| + m.lookahead
      {
        if m.lookahead == 0 {
          FillPlain();
          if m.lookahead == 0 {
            NeedsMoreIf(flush);
            if flush == NO_FLUSH { return NEED_MORE; }
            break;
          }
        }
        var stop := HuffTurn();
        if stop {
          NeedsMore(flush);
          return NEED_MORE;
        }
      }
      st := PlainEnd(flush);
    }

    ghost predicate OneByteEach()
      reads coder, m`strstart, m`blockStart
    {
      m.strstart - m.blockStart == coder.lastLit
    }

    /** EmitBlock for a literal of deflate_huff. */
    method EmitByte(t: Token, ghost from: int) returns (stop: bool)
      requires Apart() && CoderOk() && Sound() && !ended && coder.lastLit + 1 < coder.litBufsize
      requires m.WindowOk() && m.strstart - m.blockStart == coder.lastLit + 1 && Tallied(from) && Matching.Covers(m.data, from, t, m.Pos())
      modifies `ended, `availOut, `delivered, m`blockStart, coder.Repr()
      ensures Apart() && CoderOk() && Sound() && !ended && coder.lastLit + 1 < coder.litBufsize && OneByteEach()
      ensures Tallied(m.Pos()) && (stop ==> availOut == 0)
    {
      hide StaticTables.Right, LitFreqs, DistFreqs, Decodes, Parsed, Holds, Matching.Bytes, Matching.Covers, BlockData.TokensOf;
      var bflush := Emit(t, from, m.Pos());
      stop := false;
      if bflush {
        FlushBlockOnly(false);
        stop := availOut == 0;
      }
    }

    /** deflate_stored keeps the block itself in the window, so that it cannot be lost. */
    ghost predicate StoredOk()
      reads `ended, `delivered, `earlier, `mark, m, m.window, m.head, m.prev, coder, coder.Repr()
    {
      && Apart() && CoderOk() && Sound() && !ended && coder.lastLit == 0 && level == 0
      && m.WindowOk() && m.Pending() && m.ins == {} && m.insert == 0
      && 0 <= m.blockStart <= m.strstart && m.strstart - m.blockStart < m.MaxDist() && m.strstart - m.blockStart < MaxBlock()
    }

    /** The largest stored block: 16 bits of length, and room in the pending buffer
        of four bytes per token for it and its header. */
    function MaxBlock(): (n: nat)
      requires coder.litBufsize >= 128
      ensures 0 < n <= 65535
    {
      if 65535 > 4 * coder.litBufsize - 5 then 4 * coder.litBufsize - 5 else 65535
    }

    /** Fill for deflate_stored: the window never slides past the start of the block. */
    method FillStored()
      requires StoredOk() && m.lookahead < MIN_LOOKAHEAD
      modifies m`matchStart, m`strstart, m`blockStart, m`base, m`lookahead, m`input, m`data, m`insH, m`insert, m`ins, m`highWater
      modifies m.window, m.head, m.prev
      ensures StoredOk() && (m.lookahead >= MIN_LOOKAHEAD || m.input == [])
      ensures m.data + m.input == old(m.data + m.input) && |m.input| + m.lookahead == |old(m.input)| + old(m.lookahead)
    {
      hide StaticTables.Right, LitFreqs, DistFreqs, Decodes, Holds, Matching.Bytes, HashChains.Chains, TreeCoder.Valid;
      ghost var data0, from := m.data, m.BlockPos();
      m.FillWindow();
      assert m.data[..from] == data0[..from];
    }

    /** deflate_stored: copy without compression. */
    method DeflateStored(flush: Flush) returns (st: BlockState)
      requires StoredOk() && Algorithm() == STORED
      modifies `ended, `availOut, `delivered, m, m.window, m.head, m.prev, coder.Repr()
      ensures m.data + m.input == old(m.data + m.input) && Returned(st, flush)
      ensures |m.input| + m.lookahead <= |old(m.input)| + old(m.lookahead)
      ensures flush == FINISH && st == NEED_MORE ==> |m.input| + m.lookahead < |old(m.input)| + old(m.lookahead)
      ensures st in {NEED_MORE, BLOCK_DONE} ==> StoredOk()
    {
      hide *;
      Separate();
      Lookaheads();
      while true
        invariant StoredOk() && m.data + m.input == old(m.data + m.input)
        invariant |m.input| + m.lookahead <= |old(m.input)| + old(m.lookahead)
        decreases |m.input| + m.lookahead
      {
        if m.lookahead <= 1 {
          FillStored();
          NeedsMoreIf(flush);
          if m.lookahead == 0 && flush == NO_FLUSH { return NEED_MORE; }
          if m.lookahead == 0 { break; }
        }
        var stop := StoreTurn();
        if stop {
          NeedsMore(flush);
          return NEED_MORE;
        }
      }
      st := StoredEnd(flush);
    }

    /** StoredOk, before it is seen whether the start of the block is too far away. */
    ghost predicate Storing()
      reads `ended, `delivered, `earlier, `mark, m, m.window, m.head, m.prev, coder, coder.Repr()
    {
      && Apart() && CoderOk() && Sound() && !ended && coder.lastLit == 0 && level == 0
      && m.WindowOk() && m.Pending() && m.ins == {} && m.insert == 0
      && 0 <= m.blockStart <= m.strstart && m.strstart - m.blockStart < MaxBlock()
    }

    /** Take all the lookahead, and send a block if it is as long as it may be. */
    method StoreFull() returns (stop: bool)
      requires StoredOk() && m.lookahead > 0
      modifies `ended, `availOut, `delivered, m`strstart, m`lookahead, m`blockStart, coder.Repr()
      ensures Storing() && m.lookahead < old(m.lookahead) && (stop ==> availOut == 0 && m.blockStart == m.strstart)
      ensures m.data == old(m.data) && m.input == old(m.input)
    {
      hide LitFreqs, DistFreqs, SentAs, Parsed, BlockData.TokensOf, TreeCoder.Valid, CoderOk, Tallied;
      hide Holds, Matching.Bytes, Matcher.Pending, Complete;
      m.Room();
      m.Move(m.lookahead);
      var maxStart := m.blockStart + MaxBlock();
      stop := false;
      if m.strstart == 0 || m.strstart >= maxStart {
        m.StepBack(maxStart);
        FlushBlockOnly(false);
        stop := availOut == 0;
      }
    }

    /** Send a block if its start might leave the window. */
    method StoreFar() returns (stop: bool)
      requires Storing()
      modifies `ended, `availOut, `delivered, m`blockStart, coder.Repr()
      ensures StoredOk() && (stop ==> availOut == 0) && m.lookahead == old(m.lookahead)
      ensures m.data == old(m.data) && m.input == old(m.input)
    {
      hide LitFreqs, DistFreqs, SentAs, Parsed, BlockData.TokensOf, TreeCoder.Valid, CoderOk, Tallied;
      hide Holds, Matching.Bytes, Matcher.Pending, Complete;
      stop := false;
      if m.strstart - m.blockStart >= m.MaxDist() {
        FlushBlockOnly(false);
        stop := availOut == 0;
      }
    }

    /** Take all the lookahead, and send a block if it may not grow further. */
    method StoreTurn() returns (stop: bool)
      requires StoredOk() && m.lookahead > 0
      modifies `ended, `availOut, `delivered, m`strstart, m`lookahead, m`blockStart, coder.Repr()
      ensures StoredOk() && m.lookahead < old(m.lookahead) && (stop ==> availOut == 0)
      ensures m.data == old(m.data) && m.input == old(m.input)
    {
      hide *;
      stop := StoreFull();
      if stop {
        StoredNothing();
        return true;
      }
      stop := StoreFar();
    }

    lemma StoredNothing()
      requires Storing() && m.blockStart == m.strstart
      ensures StoredOk()
    {
      hide Sound, CoderOk, Matcher.Pending;
    }

    /** Send what is left. */
    method StoredEnd(flush: Flush) returns (st: BlockState)
      requires StoredOk() && Algorithm() == STORED && m.lookahead == 0 && m.input == [] && flush != NO_FLUSH
      modifies `ended, `availOut, `delivered, m`insert, m`blockStart, coder.Repr()
      ensures flush == FINISH ==> st in {FINISH_STARTED, FINISH_DONE}
      ensures Returned(st, flush) && (st in {NEED_MORE, BLOCK_DONE} ==> StoredOk())
      ensures m.data == old(m.data) && m.input == old(m.input)
    {
      hide LitFreqs, DistFreqs, SentAs, Parsed, BlockData.TokensOf, TreeCoder.Valid, CoderOk, Tallied;
      hide Holds, Matching.Bytes, Matcher.Pending, Complete;
      m.insert := 0;
      m.Room();
      if flush == FINISH {
        FlushBlockOnly(true);
        return if availOut == 0 then FINISH_STARTED else FINISH_DONE;
      }
      if m.strstart > m.blockStart {
        FlushBlockOnly(false);
        if availOut == 0 { return NEED_MORE; }
      }
      st := BLOCK_DONE;
    }

    // ---- a whole call ----

    /** The stream can go on. */
    ghost predicate Going()
      reads `ended, `delivered, `earlier, `mark, m, m.window, m.head, m.prev, coder, coder.Repr()
    {
      match Algorithm()
      case STORED => StoredOk()
      case FAST => Core() && FastOk()
      case SLOW => Core() && SlowOk()
      case RUNS => Core() && PlainOk()
      case HUFF => Core() && PlainOk() && OneByteEach()
    }

    ghost predicate Valid()
      reads `ended, `delivered, `earlier, `mark, m, m.window, m.head, m.prev, coder, coder.Repr()
    {
      level <= 9 && if ended then AllSent() else Going()
    }

    /** Compress until the input, the output space or the stream ends. */
    method Compress(flush: Flush) returns (st: BlockState)
      requires Going() && level <= 9
      modifies `ended, `availOut, `delivered, m, m.window, m.head, m.prev, coder.Repr()
      ensures m.data + m.input == old(m.data + m.input) && Returned(st, flush)
      ensures |m.input| + m.lookahead <= |old(m.input)| + old(m.lookahead)
      ensures flush == FINISH && st == NEED_MORE ==> |m.input| + m.lookahead < |old(m.input)| + old(m.lookahead)
      ensures if st in {NEED_MORE, BLOCK_DONE} then Going() && !ended else AllSent() && ended
    {
      hide Apart, CoderOk, Sound, Tallied, FastOk, SlowOk, OneByteEach, Complete, AtBoundary;
      hide Matcher.WindowOk, Matcher.Pending;
      match Algorithm() {
        case STORED => st := DeflateStored(flush);
        case FAST => st := DeflateFast(flush);
        case SLOW => st := DeflateSlow(flush);
        case RUNS => st := DeflateRle(flush);
        case HUFF => st := DeflateHuff(flush);
      }
    }

    /** Everything read so far has been sent. */
    ghost predicate AtBoundary()
      reads m`data, m`base, m`strstart, m`blockStart, m`lookahead, m`matchAvailable, coder
    {
      && m.blockStart == m.strstart && m.lookahead == 0 && m.BlockPos() == |m.data| && coder.lastLit == 0
      && (Algorithm() == SLOW ==> !m.matchAvailable)
    }

    /** Forget the history: the input so far becomes the earlier input. */
    method FullFlush()
      requires Going() && AtBoundary() && |coder.w.Sent()| % 8 == 0
      modifies m`strstart, m`blockStart, m`base, m`insert, m`ins, m`data, m.head, `earlier, `mark
      ensures Going() && AtBoundary() && m.ins == {} && m.data == [] && Consumed() == old(Consumed()) && mark == |coder.w.Sent()|
    {
      hide LitFreqs, DistFreqs, Parsed, BlockData.TokensOf, TreeCoder.Valid, CoderOk, StandsFor, BitWriter.Sent;
      hide Matcher.Pending, Matcher.WindowOk, HashChains.Chains, Holds, Matching.Bytes, MatchAt;
      Boundary();
      StandsNow();
      StandsAfresh(coder.w.Sent(), mark, earlier, m.data);
      m.Forget();
      earlier, mark := earlier + old(m.data), |coder.w.Sent()|;
      ParsedNone(m.data, 0);
    }

    lemma StandsNow()
      requires Sound() && AtBoundary()
      ensures StandsFor(coder.w.Sent(), mark, earlier, false, m.data) && coder.Toks() == []
    {
      hide StandsFor, TreeCoder.Valid;
      assert m.data[..m.BlockPos()] == m.data;
    }

    lemma BoundaryNow()
      requires Valid() && !ended
      ensures Sound()
    {
    }

    lemma Boundary()
      requires Going()
      ensures Apart() && m.WindowOk() && m.Pending() && CoderOk() && Sound() && !ended
    {
    }

    /** Mark the end of a block that was flushed on request: an empty block, and for a
        full flush, no history. */
    method Mark(flush: Flush)
      requires Going() && AtBoundary() && flush !in {NO_FLUSH, FINISH}
      modifies m`strstart, m`blockStart, m`base, m`insert, m`ins, m`data, m.head, coder.w, `earlier, `mark
      ensures Going() && AtBoundary() && (flush in {SYNC_FLUSH, FULL_FLUSH} ==> |coder.w.Sent()| % 8 == 0)
      ensures coder.w.Sent() == old(coder.w.Sent()) + (if flush == BLOCK_FLUSH then []
        else EmptyBlock(if flush == PARTIAL_FLUSH then FixedKind else StoredKind, |old(coder.w.Sent())|))
      ensures Consumed() == old(Consumed()) && if flush == FULL_FLUSH then m.data == [] && mark == |coder.w.Sent()|
        else m.data == old(m.data) && mark == old(mark) && earlier == old(earlier)
    {
      hide LitFreqs, DistFreqs, Parsed, BlockData.TokensOf, TreeCoder.Valid, CoderOk, SentAs, StandsFor, EmptyBlock, BitWriter.Sent;
      hide Matcher.WindowOk, Matcher.Pending, Matcher.Rolling, Matcher.SlowOk, Matcher.Valid, HashChains.Chains, Holds, Matching.Bytes;
      Boundary();
      if flush == PARTIAL_FLUSH {
        SendEmpty(FixedKind, m.data[..m.BlockPos()]);
      } else if flush != BLOCK_FLUSH {
        SendEmpty(StoredKind, m.data[..m.BlockPos()]);
        if flush == FULL_FLUSH {
          FullFlush();
        }
      }
    }

    /** The caller's next input and output space. */
    method Offer(next: seq<nat>, room: nat)
      requires Valid() && Matching.Bytes(next)
      modifies `availOut, m`input
      ensures Valid() && m.data == old(m.data) && m.input == old(m.input) + next && availOut == room
    {
      hide Apart, CoderOk, Sound, Tallied, Complete, OneByteEach, PlainOk;
      hide Matcher.Shape, Holds, Matcher.Pending, Matcher.Rolling, Matcher.SlowOk;
      m.input := m.input + next;
      availOut := room;
    }

    /** How far the stream is from its end: input left, the end of the stream itself, and
        bits to be delivered. */
    ghost function Distance(): (int, bool, int)
      reads `ended, `delivered, m`input, m`lookahead, coder.w
    {
      (|m.input| + m.lookahead, ended, |coder.w.Sent()| - 8 * delivered)
    }

    /** A call that cannot do anything: it has no room; the stream has ended and more input is
        offered; or nothing waits, there is no input, and no more is asked for than last time. */
    ghost predicate Useless(flush: Flush)
      reads `ended, `availOut, `delivered, `lastRank, m`input, coder.w
    {
      || availOut == 0
      || (ended && m.input != [] && |coder.w.pending| - delivered < availOut)
      || (delivered == |coder.w.pending| && m.input == [] && flush != FINISH && FlushRank(flush) <= lastRank)
    }

    /** The call of deflate, for a raw stream. */
    method Deflate(flush: Flush) returns (ret: Status)
      requires Valid()
      modifies `ended, `availOut, `delivered, `lastRank, `earlier, `mark, m, m.window, m.head, m.prev, coder.Repr()
      ensures Valid() && Consumed() + m.input == old(Consumed() + m.input)
      ensures ret == STREAM_ERROR <==> old(ended) && flush != FINISH
      ensures ret == BUF_ERROR <==> ret != STREAM_ERROR && old(Useless(flush))
      ensures flush != FINISH ==> ended == old(ended)
      ensures lastRank == if ret == STREAM_ERROR || old(availOut) == 0 then old(lastRank)
        else if ret == OK && availOut == 0 then -2 else FlushRank(flush)
      ensures ret in {STREAM_ERROR, BUF_ERROR} ==> Consumed() == old(Consumed()) && ended == old(ended)
      ensures ret == STREAM_END ==> flush == FINISH && ended && m.input == [] && delivered == |coder.w.pending|
      ensures ret == OK && availOut > 0 ==> flush != FINISH && !ended && m.input == []
      ensures ret == OK && availOut > 0 && flush != NO_FLUSH ==> AtBoundary() && delivered == |coder.w.pending|
      ensures ret == OK && availOut > 0 && flush in {SYNC_FLUSH, FULL_FLUSH} ==> |coder.w.Sent()| % 8 == 0 && coder.w.biValid <= 7
      ensures ret == OK && availOut > 0 ==> Marked(coder.w.Sent(), flush)
      ensures if ret == OK && availOut > 0 && flush == FULL_FLUSH then m.data == [] && mark == |coder.w.Sent()|
        else flush != FULL_FLUSH ==> mark == old(mark) && earlier == old(earlier)
      ensures flush == FINISH && old(availOut) > 0 && (old(ended) ==> old(m.input) == []) ==>
        ret in {OK, STREAM_END} && (ended ==> m.input == []) && (ret == OK ==> Closer(old(Distance()), Distance()))
    {
      hide *;
      Separate();
      DistanceIs();
      UselessIs(flush);
      if ended && flush != FINISH { return STREAM_ERROR; }
      if availOut == 0 { return BUF_ERROR; }
      var oldRank := lastRank;
      lastRank := FlushRank(flush);
      if |coder.w.pending| != delivered {
        FlushNow();
        SentCloser(old(Distance()));
        if availOut == 0 {
          lastRank := -2;
          return OK;
        }
      } else if m.input == [] && FlushRank(flush) <= oldRank && flush != FINISH {
        return BUF_ERROR;
      }
      if ended && m.input != [] {
        return BUF_ERROR;
      }
      ghost var middle := Distance();
      ret := DeflateBlocks(flush);
      CloserStill(old(Distance()), middle, Distance());
    }

    /** The part of a call that compresses: nothing is waiting to be delivered, and
        there is input, or something to flush, unless the stream has ended. */
    method DeflateBlocks(flush: Flush) returns (ret: Status)
      requires Valid() && availOut > 0 && delivered == |coder.w.pending| && (ended ==> flush == FINISH && m.input == [])
      modifies `ended, `availOut, `delivered, `lastRank, `earlier, `mark, m, m.window, m.head, m.prev, coder.Repr()
      ensures Valid() && Consumed() + m.input == old(Consumed() + m.input) && ret in {OK, STREAM_END}
      ensures flush != FINISH ==> !ended
      ensures lastRank == if ret == OK && availOut == 0 then -2 else old(lastRank)
      ensures ret == STREAM_END ==> flush == FINISH && ended && m.input == [] && delivered == |coder.w.pending|
      ensures ret == OK && availOut > 0 ==> flush != FINISH && !ended && m.input == []
      ensures ret == OK && availOut > 0 && flush != NO_FLUSH ==> AtBoundary() && delivered == |coder.w.pending|
      ensures ret == OK && availOut > 0 && flush in {SYNC_FLUSH, FULL_FLUSH} ==> |coder.w.Sent()| % 8 == 0 && coder.w.biValid <= 7
      ensures ret == OK && availOut > 0 ==> Marked(coder.w.Sent(), flush)
      ensures if ret == OK && availOut > 0 && flush == FULL_FLUSH then m.data == [] && mark == |coder.w.Sent()|
        else flush != FULL_FLUSH ==> mark == old(mark) && earlier == old(earlier)
      ensures flush == FINISH ==> (ended ==> m.input == []) && (ret == OK ==> Closer(old(Distance()), Distance()))
    {
      hide *;
      Separate();
      DistanceIs();
      ValidMeans();
      ConsumedIs();
      if m.input != [] || m.lookahead != 0 || (flush != NO_FLUSH && !ended) {
        var st := Compress(flush);
        ConsumedStill(old(earlier), old(m.data), old(m.input));
        ReturnedMeans(st, flush);
        ValidIs();
        InputCloser(old(Distance()));
        NoMark(coder.w.Sent());
        if st == NEED_MORE || st == FINISH_STARTED {
          if availOut == 0 { lastRank := -2; }
          return OK;
        }
        if st == BLOCK_DONE {
          ghost var before := coder.w.Sent();
          Mark(flush);
          MarkedNow(before, coder.w.Sent(), flush);
          ValidIs();
          FlushNow();
          if availOut == 0 {
            lastRank := -2;
            return OK;
          }
        }
      }
      NoMark(coder.w.Sent());
      ret := if flush != FINISH then OK else STREAM_END;
    }

    lemma ConsumedIs()
      ensures Consumed() == earlier + m.data
    {
    }

    lemma ConsumedStill(before: seq<nat>, data: seq<nat>, input: seq<nat>)
      requires earlier == before && m.data + m.input == data + input
      ensures Consumed() + m.input == before + data + input
    {
      assert before + data + input == before + (data + input);
      assert earlier + m.data + m.input == earlier + (m.data + m.input);
    }

    lemma UselessIs(flush: Flush)
      ensures Useless(flush) <==>
        || availOut == 0 || (ended && m.input != [] && |coder.w.pending| - delivered < availOut)
        || (delivered == |coder.w.pending| && m.input == [] && flush != FINISH && FlushRank(flush) <= lastRank)
    {
      hide FlushRank;
    }

    lemma DistanceIs()
      ensures Distance() == (|m.input| + m.lookahead, ended, |coder.w.Sent()| - 8 * delivered)
    {
    }

    lemma DistanceOk()
      requires Valid()
      ensures Distance().0 >= 0 && Distance().2 >= 0
    {
      hide Valid, BitWriter.Sent;
      CoderIsOk();
    }

    /** Delivering output brings the end closer, */
    lemma SentCloser(was: (int, bool, int))
      requires was.0 == |m.input| + m.lookahead && was.1 == ended
      ensures was.2 > |coder.w.Sent()| - 8 * delivered ==> Closer(was, Distance())
      ensures was.2 == |coder.w.Sent()| - 8 * delivered ==> was == Distance()
    {
      hide BitWriter.Sent;
    }

    /** and so does taking input, or ending the stream. */
    lemma InputCloser(was: (int, bool, int))
      ensures |m.input| + m.lookahead < was.0 ==> Closer(was, Distance())
      ensures |m.input| + m.lookahead <= was.0 && ended && !was.1 ==> Closer(was, Distance())
    {
      hide BitWriter.Sent;
    }

    lemma Separate()
      ensures this !in coder.Repr() && m !in coder.Repr() && coder.w in coder.Repr()
    {
    }

    lemma ValidMeans()
      requires Valid()
      ensures level <= 9 && (if ended then AllSent() && m.lookahead == 0 else Going())
    {
      hide Going, Complete, Apart, CoderOk;
    }

    lemma ValidIs()
      requires level <= 9 && if ended then AllSent() else Going()
      ensures Valid()
    {
      hide Going, AllSent;
    }

    lemma ReturnedMeans(st: BlockState, flush: Flush)
      requires Returned(st, flush)
      ensures m.input == [] || (st == NEED_MORE && availOut == 0)
      ensures st == NEED_MORE ==> availOut == 0 || flush == NO_FLUSH
      ensures st == BLOCK_DONE ==> flush !in {NO_FLUSH, FINISH} && AtBoundary()
      ensures st == FINISH_STARTED ==> flush == FINISH && availOut == 0
      ensures st == FINISH_DONE ==> flush == FINISH && delivered == |coder.w.pending|
    {
      hide AtBoundary, AllSent;
    }

    /** flush_pending, between blocks. */
    method FlushNow()
      requires Valid()
      modifies `availOut, `delivered, coder.w
      ensures Valid() && (AtBoundary() <==> old(AtBoundary())) && (old(Going()) ==> Going())
      ensures (availOut == 0 || delivered == |coder.w.pending|) && coder.w.biValid <= 7 && coder.w.Sent() == old(coder.w.Sent())
      ensures delivered - old(delivered) == old(availOut) - availOut >= 0
      ensures delivered <= |coder.w.pending| && (old(ended) ==> |coder.w.pending| == |old(coder.w.pending)|)
    {
      hide LitFreqs, DistFreqs, Parsed, BlockData.TokensOf, TreeCoder.Valid, Decodes, Leads, HashChains.Chains, Holds, MatchAt;
      CoderIsOk();
      FlushPending();
    }

    lemma CoderIsOk()
      requires Valid()
      ensures CoderOk()
    {
    }
  }

  /** The first mark bits sent decode to the earlier input, and the bits since by themselves
      to these bytes. */
  ghost predicate StandsFor(sent: seq<bool>, mark: nat, earlier: seq<nat>, last: bool, bytes: seq<nat>) {
    && mark <= |sent| && mark % 8 == 0 && Decodes(sent[..mark], false, earlier)
    && if last then |sent| % 8 == 0 && Leads(sent[mark..], START, Config(Done, |sent| - mark, bytes))
       else Decodes(sent[mark..], false, bytes)
  }

  /** Flushed, for the bits since the last full flush. */
  lemma FlushedSince(sent: seq<bool>, now: seq<bool>, mark: nat, earlier: seq<nat>, data: seq<nat>, from: int, to: int,
                     kind: BlockKind, toks: seq<Token>, buf: Buffer, last: bool)
    requires (!kind.StoredKind? ==> Parsed(data, from, toks, to)) && 0 <= from <= to <= |data|
    requires StandsFor(sent, mark, earlier, false, data[..from])
    requires AllValid(toks) && (kind.DynamicKind? ==> DynamicOk(kind, toks)) && (kind.StoredKind? ==> buf.Buffer?)
    requires buf.Buffer? ==> |buf.data| <= 65535 && buf.data == data[from..to] && Matching.Bytes(buf.data)
    requires kind.DynamicKind? ==> |kind.lit| >= 257 && |kind.dist| >= 1 && 4 <= kind.blcodes <= CodeLengths.BL_CODES
    requires var block := sent + KindBits(kind, toks, buf, last, |sent|); now == (if last then block + Padding(|block|) else block) && (last ==> |now| % 8 == 0)
    ensures StandsFor(now, mark, earlier, last, data[..to])
  {
    hide DynamicOk, KindBits, Decodes, Parsed, Leads, AllValid, Padding;
    var bits := KindBits(kind, toks, buf, last, |sent|);
    KindShift(kind, toks, buf, last, |sent|, mark);
    KindShift(FixedKind, toks, buf, last, |sent + bits|, mark);
    SinceGrows(sent, bits + if last then Padding(|sent + bits|) else [], mark);
    var since := sent[mark..];
    assert since + (bits + (if last then Padding(|sent + bits|) else [])) == if last then (since + bits) + Padding(|since + bits|) else since + bits;
    assert sent + (bits + (if last then Padding(|sent + bits|) else [])) == now;
    Flushed(since, now[mark..], data, from, to, kind, toks, buf, last);
  }

  lemma SinceGrows(sent: seq<bool>, bits: seq<bool>, mark: nat)
    requires mark <= |sent|
    ensures (sent + bits)[mark..] == sent[mark..] + bits && (sent + bits)[..mark] == sent[..mark]
  {
  }

  /** DecodesEmpty, for the bits since the last full flush. */
  lemma EmptySince(sent: seq<bool>, mark: nat, earlier: seq<nat>, data: seq<nat>, kind: BlockKind, toks: seq<Token>)
    requires StandsFor(sent, mark, earlier, false, data) && toks == [] && AllValid(toks) && (kind == FixedKind || kind == StoredKind)
    ensures StandsFor(sent + KindBits(kind, toks, Buffer([]), false, |sent|), mark, earlier, false, data)
  {
    hide Decodes, KindBits, Leads;
    KindShift(kind, toks, Buffer([]), false, |sent|, mark);
    SinceGrows(sent, KindBits(kind, toks, Buffer([]), false, |sent|), mark);
    DecodesEmpty(sent[mark..], data, kind, toks);
  }

  /** Everything sent, decoded as one stream. */
  lemma WholeStands(sent: seq<bool>, mark: nat, earlier: seq<nat>, last: bool, bytes: seq<nat>)
    requires StandsFor(sent, mark, earlier, last, bytes)
    ensures if last then Leads(sent, START, Config(Done, |sent|, earlier + bytes)) else Decodes(sent, false, earlier + bytes)
  {
    hide Leads, Iter;
    assert sent[..mark] + sent[mark..] == sent;
    Resumed(sent[..mark], earlier, sent[mark..], Config(if last then Done else Block(false), |sent| - mark, bytes));
  }

  /** After a full flush the next bits stand for themselves. */
  lemma StandsAfresh(sent: seq<bool>, mark: nat, earlier: seq<nat>, bytes: seq<nat>)
    requires StandsFor(sent, mark, earlier, false, bytes) && |sent| % 8 == 0
    ensures StandsFor(sent, |sent|, earlier + bytes, false, [])
  {
    hide Leads, Iter;
    WholeStands(sent, mark, earlier, false, bytes);
    assert sent[..|sent|] == sent && sent[|sent|..] == [];
    DecodesNothing();
  }

  /** A flushed block: what has been sent decodes to the input up to its end. */
  lemma Flushed(sent: seq<bool>, now: seq<bool>, data: seq<nat>, from: int, to: int, kind: BlockKind,
                toks: seq<Token>, buf: Buffer, last: bool)
    requires (!kind.StoredKind? ==> Parsed(data, from, toks, to)) && 0 <= from <= to <= |data|
    requires Decodes(sent, false, data[..from])
    requires AllValid(toks) && (kind.DynamicKind? ==> DynamicOk(kind, toks)) && (kind.StoredKind? ==> buf.Buffer?)
    requires buf.Buffer? ==> |buf.data| <= 65535 && buf.data == data[from..to] && Matching.Bytes(buf.data)
    requires kind.DynamicKind? ==> |kind.lit| >= 257 && |kind.dist| >= 1 && 4 <= kind.blcodes <= CodeLengths.BL_CODES
    requires var block := sent + KindBits(kind, toks, buf, last, |sent|); now == if last then block + Padding(|block|) else block
    ensures if last then Leads(now, START, Config(Done, |now|, data[..to])) else Decodes(now, false, data[..to])
  {
    hide DynamicOk, KindBits, Decodes, Parsed, Leads, AllValid, Padding;
    DecodesNext(sent, data, from, to, kind, toks, buf, last);
    if last { DecodesEnd(sent + KindBits(kind, toks, buf, last, |sent|), data[..to]); }
  }

  /** The second distance is smaller. */
  predicate Closer(a: (int, bool, int), b: (int, bool, int)) {
    b.0 < a.0 || (b.0 == a.0 && ((b.1 && !a.1) || (b.1 == a.1 && b.2 < a.2)))
  }

  lemma CloserStill(a: (int, bool, int), b: (int, bool, int), c: (int, bool, int))
    ensures (Closer(a, b) || a == b) && Closer(b, c) ==> Closer(a, c)
  {
  }

  /** The bits of an empty block: what marks the end of a flush. */
  function EmptyBlock(kind: BlockKind, pos: nat): seq<bool> {
    if kind == FixedKind then TypeBits(1, false) + FixedBits([]) else StoredBits([], false, pos)
  }

  /** A flush that has been completed ends with its empty block. */
  ghost predicate Marked(sent: seq<bool>, flush: Flush) {
    && (flush == PARTIAL_FLUSH ==> exists before: seq<bool> :: sent == before + EmptyBlock(FixedKind, |before|))
    && (flush in {SYNC_FLUSH, FULL_FLUSH} ==> exists before: seq<bool> :: sent == before + EmptyBlock(StoredKind, |before|))
  }

  lemma MarkedNow(before: seq<bool>, sent: seq<bool>, flush: Flush)
    requires flush !in {NO_FLUSH, FINISH}
    requires sent == before + (if flush == BLOCK_FLUSH then [] else EmptyBlock(if flush == PARTIAL_FLUSH then FixedKind else StoredKind, |before|))
    ensures Marked(sent, flush)
  {
    hide EmptyBlock;
  }

  lemma NoMark(sent: seq<bool>)
    ensures Marked(sent, NO_FLUSH)
  {
  }

  lemma EmptyBits(kind: BlockKind, toks: seq<Token>, pos: nat)
    requires toks == [] && (kind == FixedKind || kind == StoredKind)
    ensures AllValid(toks) && KindBits(kind, toks, Buffer([]), false, pos) ==
      if kind == FixedKind then TypeBits(1, false) + FixedBits(toks) else StoredBits([], false, pos)
  {
    hide FixedBits, StoredBits;
  }

  /** An empty block does not add to what is decoded. */
  lemma DecodesEmpty(sent: seq<bool>, data: seq<nat>, kind: BlockKind, toks: seq<Token>)
    requires Decodes(sent, false, data) && toks == [] && AllValid(toks) && (kind == FixedKind || kind == StoredKind)
    ensures Decodes(sent + KindBits(kind, toks, Buffer([]), false, |sent|), false, data)
  {
    hide Decodes, KindBits;
    assert data + [] == data;
    DecodesBlock(sent, data, kind, toks, Buffer([]), false);
  }

  lemma BufferSizes(memLevel: nat)
    requires 1 <= memLevel <= 9
    ensures 128 <= Pow2(memLevel + 6) <= 32768
  {
    Pow2Values();
    Pow2Mono(memLevel + 6, 15);
    Pow2Mono(7, memLevel + 6);
  }

  lemma Chained(level: nat)
    requires level <= 9
    ensures level < |CONFIGURATION| && (level > 0 ==> CONFIGURATION[level].chain >= 4)
  {
  }

  lemma NoTokens(data: seq<nat>, from: int, toks: seq<Token>, to: int)
    requires Parsed(data, from, toks, to) && toks == []
    ensures from == to
  {
    assert |data[..from]| == from && |data[..to]| == to;
  }

  lemma PaddedLength(n: nat)
    ensures (n + |Padding(n)|) % 8 == 0
  {
  }

  lemma InOrder(data: seq<nat>, from: int, toks: seq<Token>, to: int)
    requires Parsed(data, from, toks, to)
    ensures 0 <= from <= to <= |data|
  {
  }
}
