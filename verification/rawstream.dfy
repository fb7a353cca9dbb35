/** The two ends together: what the compressor finishes, the decompressor reads back. */
module RawStreams {
  import opened Bits
  import opened HuffBits
  import opened BitOutput
  import opened BlockTrees
  import opened Deflating
  import opened Deflate
  import opened InflateSpec
  import opened InflateStates
  import opened InflateHeaders
  import opened InflateMain
  import Matching

  /** A bit count that is whole bytes leaves nothing in the bit buffer. */
  lemma Aligned(w: BitWriter)
    requires |w.Sent()| % 8 == 0 && w.biValid <= 7
    ensures w.Sent() == ByteBits(w.pending)
  {
    assert |w.Sent()| == 8 * |w.pending| + w.biValid;
    assert ToBits(w.biBuf, 0) == [];
  }

  /** A finished stream is read back as the input,
      however the reading is cut into calls and whatever level, strategy, flushes and
      cuts made it. */
  lemma DeflateThenInflate(d: Deflater, s: State)
    requires d.Valid() && d.ended && Ended(s, d.coder.w.pending)
    ensures s.mode == DONE && s.past == d.Consumed()
  {
    hide Leads, ByteBits, Ended, StandsFor, TreeCoder.Valid, BitWriter.Sent;
    var w := d.coder.w;
    EndStands(d);
    Aligned(w);
    WholeStands(w.Sent(), d.mark, d.earlier, true, d.m.data);
    ReadsAs(s, w.pending, |w.Sent()|, d.Consumed());
  }

  /** At a boundary between bytes, everything that went in so far comes out. */
  lemma SyncPoint(d: Deflater, s: State)
    requires d.Valid() && !d.ended && d.AtBoundary() && |d.coder.w.Sent()| % 8 == 0 && d.coder.w.biValid <= 7
    requires Ended(s, d.coder.w.pending)
    ensures s.past == d.Consumed() && s.mode !in {DONE, BAD}
  {
    hide Leads, ByteBits, Ended, StandsFor, TreeCoder.Valid, BitWriter.Sent, Move, Deflater.Going, Deflater.Valid;
    var w := d.coder.w;
    GoingStands(d);
    Aligned(w);
    WholeStands(w.Sent(), d.mark, d.earlier, false, d.m.data);
    ReadsUpTo(s, w.pending, d.Consumed());
  }

  /** Bytes that decode to a block boundary at their end are read as that output, and more is awaited. */
  lemma ReadsUpTo(s: State, whole: seq<nat>, data: seq<nat>)
    requires Ended(s, whole) && Decodes(ByteBits(whole), false, data)
    ensures s.past == data && s.mode !in {DONE, BAD}
  {
    hide Leads, ByteBits, Ended, Move;
    EndIsReached(s, whole);
    BlockWaits(ByteBits(whole), data);
    OneEnd(ByteBits(whole), START, s.Now(), Config(Block(false), |ByteBits(whole)|, data));
  }

  /** Decoding can start afresh at the last full flush: the bytes since then, by themselves, are
      read as the input since then. */
  lemma FullFlushRestarts(d: Deflater, s: State)
    requires d.Valid() && (d.ended || (d.AtBoundary() && |d.coder.w.Sent()| % 8 == 0 && d.coder.w.biValid <= 7))
    requires d.mark % 8 == 0 && d.mark / 8 <= |d.coder.w.pending| && Ended(s, d.coder.w.pending[d.mark / 8..])
    ensures d.earlier <= d.Consumed() && s.past == d.Consumed()[|d.earlier|..] && (s.mode == DONE <==> d.ended) && s.mode != BAD
  {
    hide Leads, ByteBits, Ended, StandsFor, TreeCoder.Valid, BitWriter.Sent, Move, Deflater.Going, Deflater.Valid;
    var w, n := d.coder.w, d.mark / 8;
    if d.ended { EndStands(d); } else { GoingStands(d); }
    Aligned(w);
    BytesFrom(w.pending, n);
    SinceStands(w.Sent(), d.mark, d.earlier, d.ended, d.m.data);
    if d.ended {
      ReadsAs(s, w.pending[n..], |w.Sent()| - d.mark, d.m.data);
    } else {
      ReadsUpTo(s, w.pending[n..], d.m.data);
    }
  }

  /** The restart point is a byte that has been sent. */
  lemma MarkInside(d: Deflater)
    requires d.Valid() && (d.ended || (d.AtBoundary() && |d.coder.w.Sent()| % 8 == 0 && d.coder.w.biValid <= 7))
    ensures d.mark % 8 == 0 && d.mark / 8 <= |d.coder.w.pending|
  {
    hide Leads, ByteBits, TreeCoder.Valid, BitWriter.Sent, Deflater.Going, Deflater.Valid;
    if d.ended { EndStands(d); } else { GoingStands(d); }
    Aligned(d.coder.w);
  }

  lemma BytesFrom(bytes: seq<nat>, n: nat)
    requires n <= |bytes|
    ensures ByteBits(bytes)[8 * n..] == ByteBits(bytes[n..])
  {
    hide ByteBits;
    ByteBitsConcat(bytes[..n], bytes[n..]);
    assert bytes[..n] + bytes[n..] == bytes;
  }

  lemma SinceStands(sent: seq<bool>, mark: nat, earlier: seq<nat>, last: bool, bytes: seq<nat>)
    requires StandsFor(sent, mark, earlier, last, bytes)
    ensures mark <= |sent| && mark % 8 == 0
    ensures if last then Leads(sent[mark..], START, Config(Done, |sent| - mark, bytes)) else Decodes(sent[mark..], false, bytes)
  {
    hide Leads;
  }

  lemma EndStands(d: Deflater)
    requires d.Valid() && d.ended
    ensures StandsFor(d.coder.w.Sent(), d.mark, d.earlier, true, d.m.data) && |d.coder.w.Sent()| % 8 == 0 && d.coder.w.biValid <= 7
    ensures d.mark % 8 == 0 && d.mark <= |d.coder.w.Sent()|
  {
    hide Leads, Decodes, TreeCoder.Valid, BitWriter.Sent, Deflater.Going;
    assert d.m.data[..d.m.BlockPos()] == d.m.data;
  }

  lemma GoingStands(d: Deflater)
    requires d.Valid() && !d.ended && d.AtBoundary()
    ensures StandsFor(d.coder.w.Sent(), d.mark, d.earlier, false, d.m.data) && d.mark % 8 == 0 && d.mark <= |d.coder.w.Sent()|
  {
    hide Leads, Decodes, TreeCoder.Valid, BitWriter.Sent, Deflater.Going, Deflater.CoderOk;
    d.BoundaryNow();
    assert d.m.data[..d.m.BlockPos()] == d.m.data;
  }

  lemma BlockWaits(sent: seq<bool>, data: seq<nat>)
    ensures Move(sent, Config(Block(false), |sent|, data)) == Stuck
  {
  }

  /** How much of the source the first k calls have offered. */
  function OfferedBy(calls: seq<(nat, Flush, nat)>, k: nat, limit: nat): (n: nat)
    requires k <= |calls|
    ensures n <= limit
  {
    if k == 0 then 0
    else
      var n := OfferedBy(calls, k - 1, limit);
      if calls[k - 1].0 < limit - n then n + calls[k - 1].0 else limit
  }

  /** Compress a source in pieces: some bytes, a flush value and some room for output
      at each call, until the calls or the stream end. What has been compressed and what
      is still waiting make up exactly what was offered. */
  method DeflateAll(d: Deflater, source: seq<nat>, calls: seq<(nat, Flush, nat)>) returns (ret: Deflate.Status, made: nat)
    requires d.Valid() && d.Consumed() == [] && d.m.input == [] && !d.ended && Matching.Bytes(source)
    requires d !in d.coder.Repr()
    modifies d, d.m, d.m.window, d.m.head, d.m.prev, d.coder.Repr()
    ensures d.Valid() && made <= |calls| && (ret != Deflate.STREAM_END ==> made == |calls|)
    ensures d.Consumed() + d.m.input == source[..OfferedBy(calls, made, |source|)]
    ensures ret == Deflate.STREAM_END ==> d.ended && d.m.input == [] && d.delivered == |d.coder.w.pending|
  {
    hide Deflater.Valid, Deflater.Consumed;
    ret, made := Deflate.OK, 0;
    var next := 0;
    while made < |calls|
      invariant made <= |calls| && next == OfferedBy(calls, made, |source|)
      invariant d.Valid() && d.Consumed() + d.m.input == source[..next] && ret != Deflate.STREAM_END
    {
      var n := if calls[made].0 < |source| - next then calls[made].0 else |source| - next;
      Offered(d.Consumed(), d.m.input, source, next, n);
      d.Offer(source[next..next + n], calls[made].2);
      made, next := made + 1, next + n;
      ret := d.Deflate(calls[made - 1].1);
      if ret == Deflate.STREAM_END { return; }
    }
  }

  /** A flush that is asked for after the input, without more of it, is not refused; and if
      there is room, everything goes out. */
  method FlushLater(d: Deflater, next: seq<nat>, room: nat, flush: Flush, more: nat)
    returns (ret: Deflate.Status)
    requires d.Valid() && !d.ended && Matching.Bytes(next) && room > 0 && more > 0
    requires d !in d.coder.Repr() && flush in {PARTIAL_FLUSH, SYNC_FLUSH, FULL_FLUSH}
    modifies d, d.m, d.m.window, d.m.head, d.m.prev, d.coder.Repr()
    ensures d.Valid() && d.Consumed() + d.m.input == old(d.Consumed() + d.m.input) + next
    ensures ret == Deflate.OK && !d.ended
    ensures d.availOut > 0 ==>
      d.AtBoundary() && d.m.input == [] && d.delivered == |d.coder.w.pending| && Marked(d.coder.w.Sent(), flush)
  {
    hide Deflater.Valid, Deflater.AtBoundary, Deflater.Distance, Deflater.Useless, Deflater.Consumed, Marked, BitWriter.Sent, FlushRank;
    FlushOrder();
    assert d.Consumed() + (d.m.input + next) == (d.Consumed() + d.m.input) + next;
    d.Offer(next, room);
    d.UselessIs(NO_FLUSH);
    ret := d.Deflate(NO_FLUSH);
    d.Offer([], more);
    d.UselessIs(flush);
    ret := d.Deflate(flush);
  }

  /** Calls with FINISH and some room for output, repeated, reach the end of the stream. */
  method FinishAll(d: Deflater, rooms: nat -> nat)
    requires d.Valid() && (d.ended ==> d.m.input == []) && forall k :: rooms(k) > 0
    requires d !in d.coder.Repr()
    modifies d, d.m, d.m.window, d.m.head, d.m.prev, d.coder.Repr()
    ensures d.Valid() && d.ended && d.Consumed() == old(d.Consumed() + d.m.input) && d.m.input == []
    ensures d.delivered == |d.coder.w.pending|
  {
    hide Deflater.Valid, Deflater.Consumed, BitWriter.Sent;
    var k, ret := 0, Deflate.OK;
    while ret != Deflate.STREAM_END
      invariant d.Valid() && (d.ended ==> d.m.input == []) && d.Consumed() + d.m.input == old(d.Consumed() + d.m.input)
      invariant ret == Deflate.STREAM_END ==> d.ended && d.m.input == [] && d.delivered == |d.coder.w.pending|
      decreases ret != Deflate.STREAM_END, d.Distance().0, !d.Distance().1, d.Distance().2
    {
      d.Offer([], rooms(k));
      d.DistanceOk();
      ret := d.Deflate(FINISH);
      k := k + 1;
    }
  }

  lemma Offered(data: seq<nat>, input: seq<nat>, source: seq<nat>, next: nat, n: nat)
    requires next + n <= |source| && data + input == source[..next] && Matching.Bytes(source)
    ensures data + (input + source[next..next + n]) == source[..next + n] && Matching.Bytes(source[next..next + n])
  {
    assert source[..next + n] == source[..next] + source[next..next + n];
  }
}
