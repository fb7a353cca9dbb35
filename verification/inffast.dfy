/** inflate_fast: decoding without checking for input and room at every step.  It
    refines the one-step-at-a-time modes, and never takes more than six bytes or
    writes more than 258 in one turn. */
module FastInflate {
  import opened Bits
  import opened Canonical
  import opened DecodingTables
  import opened SymbolDecoding
  import opened CodeLengths
  import opened BitOutput
  import opened InflateSpec
  import opened SlidingWindow
  import opened InflateStates
  import opened InflateHeaders
  import opened InflateCodes
  import opened InflateData

  /** The bytes taken lead to this point, here. */
  ghost predicate Reached(s: State, p: Point)
    reads s`fed, s`pos, s`bits, s`hold, s`past, s`put, s`next
  {
    && s.Buffered() && Leads(s.Input(), START, Config(p, s.pos, s.Out()))
    && forall i :: 0 <= i < |s.next| ==> s.next[i] < 256
  }

  ghost predicate Coded(s: State)
    reads s`cd, s`lencode, s`lenbits, s`distcode, s`distbits
  {
    && |s.cd.lit| <= 288 && CodeOk(s.cd.lit) && TableFor(s.lencode, s.lenbits, LENS, s.cd.lit)
    && |s.cd.dist| <= 32 && CodeOk(s.cd.dist) && TableFor(s.distcode, s.distbits, DISTS, s.cd.dist)
  }

  lemma FoundShort(op: nat, val: nat, len: nat, t: CodeType, lens: seq<nat>, w: seq<bool>)
    requires CodeOk(lens) && DecodeStep(lens, w) != More && Agrees(Found(op, val, len), t, lens, w)
    ensures 1 <= len <= 15 && len <= |w|
  {
    hide DecodeStep, SymbolEntry, Kraft;
    LengthUsed(lens, w);
    AgreesLength(op, val, len, t, lens, w);
  }

  lemma LinkShift(link: Entry, hold: nat)
    ensures LinkIndex(link, hold) == link.val + Low(Shr(hold, link.bits), link.op)
  {
    LowSplit(hold, link.bits, link.op);
  }

  /** Look up a symbol when there are surely enough bits. */
  method FastSym(s: State, tab: seq<Entry>, root: nat, ghost t: CodeType, ghost lens: seq<nat>) returns (op: nat, val: nat, len: nat)
    requires s.Buffered() && s.bits >= 15 && |lens| <= MaxSymbols(t) && CodeOk(lens) && TableFor(tab, root, t, lens)
    ensures DecodeStep(lens, s.Input()[s.pos..]) != More && Agrees(Found(op, val, len), t, lens, s.Input()[s.pos..])
    ensures 1 <= len <= 15
  {
    hide TableFor, Agrees, ByteBits, Lsb, CodeOk, LinkIndex, DecodeStep, Low, Shr;
    ghost var w := s.Input()[s.pos..];
    Decided(lens, w);
    EntryFound(tab, root, t, lens, w);
    var here := tab[Low(s.hold, root)];
    if here.bits > s.bits { RootMore(tab, root, t, lens, w, s.hold); }
    if IsLink(here) {
      LinkFound(tab, root, t, lens, w, here);
      LinkShift(here, s.hold);
      var last := here;
      here := tab[here.val + Low(Shr(s.hold, here.bits), here.op)];
      op, val, len := here.op, here.val, last.bits + here.bits;
    } else {
      RootFound(tab, root, t, lens, w, s.hold);
      op, val, len := here.op, here.val, here.bits;
    }
    FoundShort(op, val, len, t, lens, w);
  }

  /** PUP(in): take a byte that is surely there. */
  method FastPull(s: State, ghost p: Point)
    requires Reached(s, p) && |s.next| > 0 && s.bits <= 24
    modifies s`next, s`hold, s`bits, s`fed
    ensures Reached(s, p) && s.next == old(s.next)[1..] && s.bits == old(s.bits) + 8 && Taken(old(s.next), old(s.fed), s.next, s.fed)
    ensures old(s.Input()) <= s.Input()
  {
    hide ByteBits, Lsb, Leads;
    ghost var in0 := s.Input();
    TakenNone(s.next, s.fed);
    TakenOne(s.next, s.fed, s.next, s.fed);
    var got := s.PullByte();
    StillThere(in0, s.Input(), Config(p, s.pos, s.Out()));
  }

  /** Two bytes when fewer than 15 bits are left. */
  method FastFill(s: State, ghost p: Point)
    requires Reached(s, p) && (s.bits < 15 ==> |s.next| >= 2)
    modifies s`next, s`hold, s`bits, s`fed
    ensures Reached(s, p) && Taken(old(s.next), old(s.fed), s.next, s.fed) && s.bits >= 15
    ensures |s.next| == |old(s.next)| - (if old(s.bits) < 15 then 2 else 0)
    ensures s.bits == old(s.bits) + (if old(s.bits) < 15 then 16 else 0)
    ensures old(s.Input()) <= s.Input() && (old(s.bits) >= 15 ==> s.fed == old(s.fed))
  {
    hide Reached, ByteBits, Taken;
    TakenNone(s.next, s.fed);
    if s.bits < 15 {
      FastPull(s, p);
      ghost var next1, fed1 := s.next, s.fed;
      FastPull(s, p);
      TakenOn(old(s.next), old(s.fed), next1, fed1, s.next, s.fed);
    }
  }

  /** Decode a literal/length symbol. */
  method FastLenSym(s: State) returns (op: nat, val: nat, len: nat)
    requires Reached(s, LenSym(s.last, s.cd)) && Coded(s) && (s.bits < 15 ==> |s.next| >= 2)
    modifies s`next, s`hold, s`bits, s`fed, s`pos
    ensures Reached(s, LenPoint(s.last, s.cd, op, val)) && Taken(old(s.next), old(s.fed), s.next, s.fed) && 1 <= len <= 15
    ensures |s.next| == |old(s.next)| - (if old(s.bits) < 15 then 2 else 0)
    ensures s.bits == old(s.bits) + (if old(s.bits) < 15 then 16 else 0) - len && s.pos == old(s.pos) + len
    ensures LenOp(op, val)
    ensures (old(s.bits) < 8 || Move(old(s.Input())[..8 * |old(s.fed)| - 8], old(Config(LenSym(s.last, s.cd), s.pos, s.Out()))) == Stuck)
            ==> old(s.bits) < len + 8
  {
    hide ByteBits, Lsb, Leads, Move, Agrees, DecodeStep, TableFor, CodeOk, LenPoint, LenOp, Taken;
    ghost var c, in0, b0 := Config(LenSym(s.last, s.cd), s.pos, s.Out()), s.Input(), s.bits;
    FastFill(s, c.p);
    ghost var input := s.Input();
    op, val, len := FastSym(s, s.lencode, s.lenbits, LENS, s.cd.lit);
    StillThere(input, input, c);
    LenSymMove(input, c, s.last, s.cd, op, val, len);
    LenOpIs(op, val, len, s.cd.lit, input[s.pos..]);
    UsedAtOnce(in0, input, c, s.cd.lit, op, val, len, b0);
    s.DropBits(len);
    Arrive(input, input, c, Config(LenPoint(s.last, s.cd, op, val), s.pos, s.Out()));
  }

  /** If decoding could not go on without the last byte held, the symbol uses up all but that byte. */
  lemma UsedAtOnce(input0: seq<bool>, input: seq<bool>, c: Config, lens: seq<nat>, op: nat, val: nat, len: nat, bits: nat)
    requires c.p.LenSym? && lens == c.p.codes.lit && |lens| <= 288 && CodeOk(lens) && input0 <= input && c.pos + bits == |input0|
    requires DecodeStep(lens, input[c.pos..]) != More && Agrees(Found(op, val, len), LENS, lens, input[c.pos..])
    ensures (bits < 8 || Move(input0[..|input0| - 8], c) == Stuck) ==> bits < len + 8
  {
    hide DecodeStep, CodeOk, Move, SymbolEntry;
    AgreesLength(op, val, len, LENS, lens, input[c.pos..]);
    if bits >= 8 && Move(input0[..|input0| - 8], c) == Stuck {
      var cut := input0[..|input0| - 8];
      SymMoves(cut, c, lens);
      assert cut[c.pos..] == input[c.pos..][..bits - 8];
      SymTight(lens, input[c.pos..], bits - 8);
    }
  }

  /** The operations a literal/length table can hold. */
  ghost predicate LenOp(op: nat, val: nat) {
    || (op == 0 && val < 256) || op == 96 || op in {64, 72, 78}
    || (16 <= op <= 21 && 3 <= val && val + Pow2(op - 16) - 1 <= 258)
  }

  lemma LenOpIs(op: nat, val: nat, len: nat, lit: seq<nat>, w: seq<bool>)
    requires |lit| <= 288 && DecodeStep(lit, w) != More && Agrees(Found(op, val, len), LENS, lit, w)
    ensures LenOp(op, val)
  {
    hide DecodeStep, LEXT, LBASE, Pow2;
    TableSizes();
    var r := DecodeStep(lit, w);
    if r.Sym? {
      var n := r.n;
      if 257 <= n < 286 {
        LenEntryOk(n);
      } else if n >= 286 {
        BadLens();
      }
    }
  }

  lemma BadLens()
    ensures LEXT[29] == 72 && LEXT[30] == 78
  {
  }

  /** The extra bits of a length or a distance: at most two more bytes. */
  method FastExtra(s: State, e: nat, ghost p: Point) returns (v: nat)
    requires Reached(s, p) && (p.LenExt? || p.DistExt?) && p.extra == e
    requires s.bits < e ==> |s.next| >= 1
    requires s.bits + 8 < e ==> |s.next| >= 2
    requires e <= 16
    modifies s`next, s`hold, s`bits, s`fed, s`pos
    ensures v < Pow2(e) && Taken(old(s.next), old(s.fed), s.next, s.fed)
    ensures Reached(s, if p.LenExt? then DistSym(p.last, p.codes, p.len + v) else MatchOut(p.last, p.codes, p.len, p.dist + v))
    ensures |s.next| == |old(s.next)| - (if old(s.bits) + 8 < e then 2 else if old(s.bits) < e then 1 else 0)
    ensures s.bits == old(s.bits) + (if old(s.bits) + 8 < e then 16 else if old(s.bits) < e then 8 else 0) - e
    ensures s.pos == old(s.pos) + e
  {
    hide ByteBits, Lsb, Leads, Move, Taken, Pow2;
    TakenNone(s.next, s.fed);
    if s.bits < e {
      FastPull(s, p);
      if s.bits < e {
        ghost var next1, fed1 := s.next, s.fed;
        FastPull(s, p);
        TakenOn(old(s.next), old(s.fed), next1, fed1, s.next, s.fed);
      }
    }
    ghost var input, c := s.Input(), Config(p, s.pos, s.Out());
    StillThere(input, input, c);
    ExtMove(input, c);
    v := s.GetBits(e);
    LsbBound(input[s.pos..][..e]);
    s.DropBits(e);
    Arrive(input, input, c,
           Config(if p.LenExt? then DistSym(p.last, p.codes, p.len + v) else MatchOut(p.last, p.codes, p.len, p.dist + v), s.pos, s.Out()));
  }

  /** The operations a distance table can hold. */
  ghost predicate DistOp(op: nat, val: nat) {
    op == 64 || (16 <= op <= 29 && 1 <= val && val + Pow2(op - 16) - 1 <= 32768)
  }

  lemma DistOpIs(op: nat, val: nat, len: nat, dist: seq<nat>, w: seq<bool>)
    requires |dist| <= 32 && DecodeStep(dist, w) != More && Agrees(Found(op, val, len), DISTS, dist, w)
    ensures DistOp(op, val)
  {
    hide DecodeStep, DEXT, DBASE, Pow2;
    TableSizes();
    var r := DecodeStep(dist, w);
    if r.Sym? {
      if r.n < 30 {
        DistEntryOk(r.n);
      } else {
        BadDists();
      }
    }
  }

  lemma BadDists()
    ensures DEXT[30] == 64 && DEXT[31] == 64
  {
  }

  /** Decode a distance symbol. */
  method FastDistSym(s: State, ghost mlen: nat) returns (op: nat, val: nat, len: nat)
    requires Reached(s, DistSym(s.last, s.cd, mlen)) && Coded(s) && (s.bits < 15 ==> |s.next| >= 2)
    modifies s`next, s`hold, s`bits, s`fed, s`pos
    ensures Reached(s, DistPoint(s.last, s.cd, mlen, op, val)) && Taken(old(s.next), old(s.fed), s.next, s.fed) && 1 <= len <= 15
    ensures |s.next| == |old(s.next)| - (if old(s.bits) < 15 then 2 else 0)
    ensures s.bits == old(s.bits) + (if old(s.bits) < 15 then 16 else 0) - len && s.pos == old(s.pos) + len
    ensures DistOp(op, val)
  {
    hide ByteBits, Lsb, Leads, Move, Agrees, DecodeStep, TableFor, CodeOk, DistPoint, DistOp, Taken;
    ghost var c := Config(DistSym(s.last, s.cd, mlen), s.pos, s.Out());
    FastFill(s, c.p);
    ghost var input := s.Input();
    op, val, len := FastSym(s, s.distcode, s.distbits, DISTS, s.cd.dist);
    StillThere(input, input, c);
    DistSymMove(input, c, s.last, s.cd, mlen, op, val, len);
    DistOpIs(op, val, len, s.cd.dist, input[s.pos..]);
    s.DropBits(len);
    Arrive(input, input, c, Config(DistPoint(s.last, s.cd, mlen, op, val), s.pos, s.Out()));
  }

  // ---- copying ----

  lemma RepeatsJoin(out: seq<nat>, a: seq<nat>, b: seq<nat>, dist: nat)
    requires Repeats(out, a, dist) && Repeats(out + a, b, dist)
    ensures Repeats(out, a + b, dist)
  {
    var c := a + b;
    assert out + c == (out + a) + b;
    forall i | 0 <= i < |c|
      ensures c[i] == (out + c)[|out| + i - dist]
    {
      if i < |a| {
        assert (out + a)[|out| + i - dist] == (out + c)[|out| + i - dist];
      }
    }
  }

  /** This many bytes of the match have been copied onto what was there. */
  ghost predicate CopiedOnto(put0: seq<nat>, past: seq<nat>, put: seq<nat>, copy: nat, dist: nat) {
    exists chunk: seq<nat> :: |chunk| == copy && put == put0 + chunk && Repeats(past + put0, chunk, dist)
  }

  lemma CopiedBoth(put0: seq<nat>, put1: seq<nat>, put2: seq<nat>, past: seq<nat>, a: nat, b: nat, dist: nat)
    requires CopiedOnto(put0, past, put1, a, dist) && CopiedOnto(put1, past, put2, b, dist)
    ensures CopiedOnto(put0, past, put2, a + b, dist)
  {
    var x: seq<nat> :| |x| == a && put1 == put0 + x && Repeats(past + put0, x, dist);
    var y: seq<nat> :| |y| == b && put2 == put1 + y && Repeats(past + put1, y, dist);
    assert past + put1 == past + put0 + x;
    RepeatsJoin(past + put0, x, y, dist);
    assert put2 == put0 + (x + y);
  }

  /** Copy from the window, byte by byte. */
  method WindowRun(s: State, from: nat, copy: nat, ghost op: nat, ghost dist: nat)
    requires WindowOk(s) && 1 <= copy <= op <= s.window.whave && op <= |s.past| && dist == op + |s.put|
    requires if s.window.wnext < op then copy <= op - s.window.wnext && from == WSIZE + s.window.wnext - op
             else from == s.window.wnext - op
    modifies s`put
    ensures CopiedOnto(old(s.put), s.past, s.put, copy, dist)
  {
    FromWindow(s, from, copy, op, dist);
  }

  /** Copy from the output three bytes at a time, then the one or two left over. */
  method OutputRun(s: State, len0: nat, dist: nat)
    requires 1 <= len0 && 1 <= dist <= |s.put|
    modifies s`put
    ensures CopiedOnto(old(s.put), s.past, s.put, len0, dist)
  {
    ghost var put0 := s.put;
    hide CopiedOnto;
    CopiedNone(put0, s.past, dist);
    var len: nat := len0;
    while len > 2
      invariant len <= len0 && CopiedOnto(put0, s.past, s.put, len0 - len, dist) && |s.put| >= |put0|
      decreases len
    {
      PutBack(s, dist, put0, len0 - len);
      PutBack(s, dist, put0, len0 - len + 1);
      PutBack(s, dist, put0, len0 - len + 2);
      len := len - 3;
    }
    if len != 0 {
      PutBack(s, dist, put0, len0 - len);
      if len > 1 {
        PutBack(s, dist, put0, len0 - len + 1);
      }
    }
  }

  lemma CopiedNone(put: seq<nat>, past: seq<nat>, dist: nat)
    requires 1 <= dist <= |past + put|
    ensures CopiedOnto(put, past, put, 0, dist)
  {
    assert put == put + [] && Repeats(past + put, [], dist);
  }

  /** PUP(out) = PUP(from) within the output. */
  method PutBack(s: State, dist: nat, ghost put0: seq<nat>, ghost done: nat)
    requires CopiedOnto(put0, s.past, s.put, done, dist) && 1 <= dist <= |s.put|
    modifies s`put
    ensures CopiedOnto(put0, s.past, s.put, done + 1, dist) && |s.put| == |old(s.put)| + 1
  {
    ghost var chunk: seq<nat> :| |chunk| == done && s.put == put0 + chunk && Repeats(s.past + put0, chunk, dist);
    var b := s.put[|s.put| - dist];
    RepeatsNext(s.past, put0, chunk, dist);
    s.put := s.put + [b];
    assert s.put == put0 + (chunk + [b]);
  }

  /** From this place of the window while it lasts, then from the output. */
  method WindowThenOutput(s: State, from: nat, op: nat, len0: nat, dist: nat)
    requires WindowOk(s) && 1 <= op <= s.window.whave && op <= |s.past| && dist == op + |s.put| && 1 <= len0
    requires if s.window.wnext < op then s.window.wnext == 0 && from == WSIZE - op else from == s.window.wnext - op
    modifies s`put
    ensures CopiedOnto(old(s.put), s.past, s.put, len0, dist)
  {
    hide CopiedOnto, WindowOk;
    var len := len0;
    if op < len {
      len := len - op;
      WindowRun(s, from, op, op, dist);
      ghost var put1 := s.put;
      CopiedGrows(old(s.put), s.past, put1, op, dist);
      OutputRun(s, len, dist);
      CopiedBoth(old(s.put), put1, s.put, s.past, op, len, dist);
    } else {
      WindowRun(s, from, len, op, dist);
    }
  }

  /** Copy a match: some from the window, perhaps around its end, and the rest from the output. */
  method FastCopy(s: State, len0: nat, dist: nat)
    requires WindowOk(s) && 1 <= len0 && 1 <= dist <= |s.past| + |s.put|
    requires dist > |s.put| ==> dist - |s.put| <= s.window.whave
    modifies s`put
    ensures CopiedOnto(old(s.put), s.past, s.put, len0, dist)
  {
    hide CopiedOnto, WindowOk;
    WindowReach(s);
    WindowFull(s);
    var len, op := len0, |s.put|;
    if dist <= op {
      OutputRun(s, len, dist);
      return;
    }
    op := dist - op;
    if s.window.wnext == 0 {
      WindowThenOutput(s, s.window.wsize - op, op, len, dist);
    } else if s.window.wnext < op {
      var from := s.window.wsize + s.window.wnext - op;
      op := op - s.window.wnext;
      if op < len {
        len := len - op;
        WindowRun(s, from, op, op + s.window.wnext, dist);
        ghost var put1 := s.put;
        CopiedGrows(old(s.put), s.past, put1, op, dist);
        WindowThenOutput(s, 0, s.window.wnext, len, dist);
        CopiedBoth(old(s.put), put1, s.put, s.past, op, len, dist);
      } else {
        WindowRun(s, from, len, op + s.window.wnext, dist);
      }
    } else {
      WindowThenOutput(s, s.window.wnext - op, op, len, dist);
    }
  }

  lemma CopiedGrows(put0: seq<nat>, past: seq<nat>, put: seq<nat>, copy: nat, dist: nat)
    requires CopiedOnto(put0, past, put, copy, dist)
    ensures |put| == |put0| + copy
  {
  }

  /** A window that has wrapped is full. */
  lemma WindowFull(s: State)
    requires WindowOk(s)
    ensures s.window.wnext < WSIZE && s.window.whave <= WSIZE && (s.window.whave < WSIZE ==> s.window.wnext == s.window.whave)
  {
  }

  /** The match is decoded: check its distance and copy it. */
  method FastMatch(s: State, len: nat, dist: nat) returns (more: bool)
    requires Reached(s, MatchOut(s.last, s.cd, len, dist)) && WindowOk(s) && 1 <= len && 1 <= dist <= 32768 && len <= s.left
    modifies s`put, s`left, s`mode
    ensures s.mode == if more then old(s.mode) else BAD
    ensures Reached(s, if more then LenSym(s.last, s.cd) else Failed)
    ensures old(s.put) <= s.put && |s.put| + s.left == |old(s.put)| + old(s.left) && old(s.left) - s.left <= len
  {
    hide ByteBits, Lsb, Leads, Move, WindowOk, CopyPoint, Repeats;
    WindowReach(s);
    ghost var input, c := s.Input(), Config(MatchOut(s.last, s.cd, len, dist), s.pos, s.Out());
    StillThere(input, input, c);
    MatchMove(input, c, s.last, s.cd, len, dist);
    if dist > |s.put| {
      if dist - |s.put| > s.window.whave {
        s.mode := BAD;
        Arrive(input, input, c, Config(Failed, s.pos, s.Out()));
        return false;
      }
    }
    ghost var put0 := s.put;
    FastCopy(s, len, dist);
    ghost var chunk: seq<nat> :| |chunk| == len && s.put == put0 + chunk && Repeats(s.past + put0, chunk, dist);
    assert s.past + (put0 + chunk) == s.past + put0 + chunk;
    CopyRun(input, s.last, s.cd, len, dist, s.pos, s.past + put0, chunk);
    CopyPointEnd(s.last, s.cd, len, dist);
    s.left := s.left - len;
    more := true;
  }

  lemma CopyPointEnd(last: bool, codes: Codes, len: nat, dist: nat)
    ensures CopyPoint(last, codes, len, dist, len) == LenSym(last, codes)
  {
  }

  /** Write a literal. */
  method FastLit(s: State, b: nat)
    requires Reached(s, LitOut(s.last, s.cd, b)) && s.left >= 1 && b < 256
    modifies s`put, s`left
    ensures Reached(s, LenSym(s.last, s.cd)) && s.put == old(s.put) + [b] && s.left == old(s.left) - 1
  {
    hide ByteBits, Lsb, Leads, Move;
    ghost var input, c := s.Input(), Config(LitOut(s.last, s.cd, b), s.pos, s.Out());
    StillThere(input, input, c);
    LitMove(input, c, s.last, s.cd, b);
    assert s.past + (s.put + [b]) == s.Out() + [b];
    s.put := s.put + [b % 256];
    s.left := s.left - 1;
    Arrive(input, input, c, Config(LenSym(s.last, s.cd), s.pos, s.Out()));
  }

  lemma OpBits(op: nat, val: nat)
    requires LenOp(op, val)
    ensures HasBit(op, 16) ==> 16 <= op <= 21 && !HasBit(op, 32) && !HasBit(op, 64) && op % 16 == op - 16
    ensures !HasBit(op, 16) && op != 0 && !HasBit(op, 32) ==> HasBit(op, 64)
    ensures !HasBit(op, 16) && op != 0 ==> op in {64, 72, 78, 96}
  {
  }

  lemma DistOpBits(op: nat, val: nat)
    requires DistOp(op, val)
    ensures HasBit(op, 16) ==> 16 <= op <= 29 && !HasBit(op, 64) && op % 16 == op - 16
    ensures !HasBit(op, 16) ==> HasBit(op, 64)
  {
  }

  /** A match: length extra bits, distance code and extra bits, and the copy.  The 33
      bits this can take are surely there. */
  method FastPair(s: State, op0: nat, val0: nat) returns (more: bool)
    requires Reached(s, LenPoint(s.last, s.cd, op0, val0)) && LenOp(op0, val0) && HasBit(op0, 16) && Coded(s) && WindowOk(s)
    requires 8 * |s.next| + s.bits >= 33 && s.left >= 258
    modifies s`next, s`hold, s`bits, s`fed, s`pos, s`put, s`left, s`mode
    ensures s.mode == if more then old(s.mode) else BAD
    ensures Reached(s, if more then LenSym(s.last, s.cd) else Failed)
    ensures Taken(old(s.next), old(s.fed), s.next, s.fed)
    ensures old(s.put) <= s.put && |s.put| + s.left == |old(s.put)| + old(s.left) && old(s.left) - s.left <= 258
    ensures s.pos >= old(s.pos) && |old(s.next)| - |s.next| <= (if old(s.bits) >= 1 then 4 else 5)
  {
    hide ByteBits, Lsb, Leads, Move, Reached, Coded, WindowOk, LenOp, DistOp, Taken, Pow2, HasBit;
    OpBits(op0, val0);
    LenOpMeans(op0, val0, s.last, s.cd);
    ghost var next0, fed0 := s.next, s.fed;
    var v := FastExtra(s, op0 - 16, LenExt(s.last, s.cd, val0, op0 - 16));
    var len := val0 + v;
    ghost var next1, fed1 := s.next, s.fed;
    var op, val, used := FastDistSym(s, len);
    TakenOn(next0, fed0, next1, fed1, s.next, s.fed);
    ghost var next2, fed2 := s.next, s.fed;
    DistOpBits(op, val);
    DistOpMeans(op, val, s.last, s.cd, len);
    if !HasBit(op, 16) {
      s.mode := BAD;
      return false;
    }
    v := FastExtra(s, op - 16, DistExt(s.last, s.cd, len, val, op - 16));
    TakenOn(next0, fed0, next2, fed2, s.next, s.fed);
    more := FastMatch(s, len, val + v);
  }

  lemma LenOpMeans(op: nat, val: nat, last: bool, codes: Codes)
    requires LenOp(op, val) && HasBit(op, 16)
    ensures 16 <= op <= 21 && LenPoint(last, codes, op, val) == LenExt(last, codes, val, op - 16)
    ensures 3 <= val && val + Pow2(op - 16) - 1 <= 258
  {
    hide Pow2;
  }

  lemma DistOpMeans(op: nat, val: nat, last: bool, codes: Codes, len: nat)
    requires DistOp(op, val)
    ensures HasBit(op, 16) ==> 16 <= op <= 29 && DistPoint(last, codes, len, op, val) == DistExt(last, codes, len, val, op - 16)
                               && 1 <= val && val + Pow2(op - 16) - 1 <= 32768
    ensures !HasBit(op, 16) ==> DistPoint(last, codes, len, op, val) == Failed
  {
    hide Pow2;
  }

  /** One turn of the loop: a literal, a match, the end of the block, or an error. */
  method FastTurn(s: State) returns (more: bool)
    requires s.mode == LEN && Reached(s, LenSym(s.last, s.cd)) && Coded(s) && WindowOk(s)
    requires |s.next| >= 6 && s.left >= 258
    modifies s`next, s`hold, s`bits, s`fed, s`pos, s`put, s`left, s`mode
    ensures s.mode in {LEN, TYPE, BAD} && (more <==> s.mode == LEN)
    ensures Reached(s, if more then LenSym(s.last, s.cd) else if s.mode == TYPE then Block(s.last) else Failed)
    ensures Taken(old(s.next), old(s.fed), s.next, s.fed) && |old(s.next)| - |s.next| <= 6
    ensures old(s.put) <= s.put && |s.put| + s.left == |old(s.put)| + old(s.left) && old(s.left) - s.left <= 258
    ensures s.pos > old(s.pos)
    ensures (old(s.bits) < 8 || Move(old(s.Input())[..8 * |old(s.fed)| - 8], old(Config(LenSym(s.last, s.cd), s.pos, s.Out()))) == Stuck)
            ==> s.pos + 7 >= 8 * |old(s.fed)|
  {
    hide ByteBits, Lsb, Leads, Move, Coded, WindowOk, LenOp, DistOp, Taken, HasBit, Reached;
    ReachedBits(s, LenSym(s.last, s.cd));
    ghost var next0, fed0 := s.next, s.fed;
    var op, val, len := FastLenSym(s);
    ghost var next1, fed1 := s.next, s.fed;
    OpBits(op, val);
    PointOf(op, val, s.last, s.cd);
    if op == 0 {
      FastLit(s, val);
      more := true;
    } else if HasBit(op, 16) {
      more := FastPair(s, op, val);
      TakenOn(next0, fed0, next1, fed1, s.next, s.fed);
    } else if HasBit(op, 32) {
      s.mode := TYPE;
      more := false;
    } else {
      s.mode := BAD;
      more := false;
    }
  }

  lemma ReachedBits(s: State, p: Point)
    requires Reached(s, p)
    ensures s.pos + s.bits == 8 * |s.fed|
  {
  }

  lemma PointOf(op: nat, val: nat, last: bool, codes: Codes)
    requires LenOp(op, val)
    ensures op == 0 ==> val < 256 && LenPoint(last, codes, op, val) == LitOut(last, codes, val)
    ensures op != 0 && HasBit(op, 32) && !HasBit(op, 16) ==> LenPoint(last, codes, op, val) == Block(last)
    ensures op != 0 && !HasBit(op, 32) && !HasBit(op, 16) ==> LenPoint(last, codes, op, val) == Failed
  {
  }

  // ---- the loop ----

  lemma ToReached(s: State)
    requires Ready(s) && s.mode == LEN
    ensures Reached(s, LenSym(s.last, s.cd)) && Coded(s)
    ensures s.bits < 8 || Move(s.Input()[..8 * |s.fed| - 8], Config(LenSym(s.last, s.cd), s.pos, s.Out())) == Stuck
  {
    DataPoint(s);
    Unpacked(s);
  }

  /** Decode until input or room runs short, the block ends, or the data is invalid;
      then give back the whole bytes that are still in the bit buffer. */
  method InflateFast(s: State)
    requires Ready(s) && s.mode == LEN && WindowOk(s) && |s.next| >= 6 && s.left >= 258
    modifies s`next, s`hold, s`bits, s`fed, s`pos, s`put, s`left, s`mode
    ensures Ready(s) && s.mode in {LEN, TYPE, BAD} && s.bits < 8
    ensures Taken(old(s.next), old(s.fed), s.next, s.fed)
    ensures old(s.put) <= s.put && |s.put| + s.left == |old(s.put)| + old(s.left)
    ensures 8 * |s.next| + s.bits < 8 * |old(s.next)| + old(s.bits)
  {
    hide ByteBits, Lsb, Leads, Move, Coded, WindowOk, Taken, Reached, Ready;
    ghost var next0, fed0, pos0, bits0, input := s.next, s.fed, s.pos, s.bits, s.next;
    Shaped(s);
    ToReached(s);
    ReachedBits(s, LenSym(s.last, s.cd));
    var given := s.next;
    var more := FastTurn(s);
    while more && |s.next| >= 6 && s.left >= 258
      invariant s.mode in {LEN, TYPE, BAD} && (more <==> s.mode == LEN) && s.Shape()
      invariant Reached(s, if more then LenSym(s.last, s.cd) else if s.mode == TYPE then Block(s.last) else Failed)
      invariant Coded(s) && WindowOk(s) && Taken(next0, fed0, s.next, s.fed)
      invariant old(s.put) <= s.put && |s.put| + s.left == |old(s.put)| + old(s.left)
      invariant s.pos + 7 >= 8 * |fed0| && s.pos > pos0
      decreases |s.fed| + |s.next| - s.pos / 8, 8 * (|s.fed| + |s.next|) - s.pos
    {
      ghost var next1, fed1, pos1 := s.next, s.fed, s.pos;
      more := FastTurn(s);
      TakenOn(next0, fed0, next1, fed1, s.next, s.fed);
      TakenSum(next1, fed1, s.next, s.fed);
      ReachedBits(s, if more then LenSym(s.last, s.cd) else if s.mode == TYPE then Block(s.last) else Failed);
    }
    GiveBack(s, given, if more then LenSym(s.last, s.cd) else if s.mode == TYPE then Block(s.last) else Failed, next0, fed0, pos0, bits0);
  }

  lemma Shaped(s: State)
    requires Ready(s)
    ensures s.Shape()
  {
  }

  lemma TakenSum(next0: seq<nat>, fed0: seq<nat>, next: seq<nat>, fed: seq<nat>)
    requires Taken(next0, fed0, next, fed)
    ensures |fed0| + |next0| == |fed| + |next| && |fed0| <= |fed|
  {
    assert |fed0 + next0| == |fed + next|;
  }

  /** Return unused bytes. */
  method GiveBack(s: State, given: seq<nat>, ghost p: Point, ghost next0: seq<nat>, ghost fed0: seq<nat>, ghost pos0: nat, ghost bits0: nat)
    requires s.Shape() && Reached(s, p) && Coded(s) && Taken(next0, fed0, s.next, s.fed) && given == next0
    requires s.mode in {LEN, TYPE, BAD}
    requires p == if s.mode == LEN then LenSym(s.last, s.cd) else if s.mode == TYPE then Block(s.last) else Failed
    requires s.pos + 7 >= 8 * |fed0| && pos0 + bits0 == 8 * |fed0| && s.pos > pos0
    requires forall i :: 0 <= i < |next0| ==> next0[i] < 256
    modifies s`next, s`hold, s`bits, s`fed
    ensures Ready(s) && s.bits < 8 && Taken(next0, fed0, s.next, s.fed)
    ensures 8 * |s.next| + s.bits < 8 * |next0| + bits0
    ensures |s.next| <= old(|s.next| + s.bits / 8)
  {
    hide ByteBits, Lsb, Leads, Move, Coded, Ready, TableFor, CodeOk;
    var len := s.bits / 8;
    TakenSum(next0, fed0, s.next, s.fed);
    var n := |given| - |s.next| - len;
    ghost var fed := fed0 + next0[..n];
    HandBack(next0, fed0, s.next, s.fed, n, s.pos, s.bits, s.hold, p, s.Out());
    s.next := given[n..];
    s.fed := fed;
    s.bits := s.bits - 8 * len;
    s.hold := Low(s.hold, s.bits);
    GivenBack(s, p);
  }

  lemma HandBack(next0: seq<nat>, fed0: seq<nat>, next: seq<nat>, fed: seq<nat>, n: nat, pos: nat, bits: nat, hold: nat, p: Point, out: seq<nat>)
    requires Taken(next0, fed0, next, fed) && n + |next| + bits / 8 == |next0| && pos + bits == 8 * |fed|
    requires hold == Lsb(ByteBits(fed)[pos..]) && Leads(ByteBits(fed), START, Config(p, pos, out))
    ensures var f := fed0 + next0[..n];
      && Taken(next0, fed0, next0[n..], f) && pos + bits % 8 == 8 * |f|
      && Low(hold, bits % 8) == Lsb(ByteBits(f)[pos..]) && Leads(ByteBits(f), START, Config(p, pos, out))
  {
    hide Leads, Lsb, Low, Shr, ToBits;
    var f := fed0 + next0[..n];
    assert f + next0[n..] == fed0 + next0;
    assert fed == (fed0 + next0)[..|fed|];
    assert f == fed[..|f|] && fed == f + fed[|f|..];
    ByteBitsConcat(f, fed[|f|..]);
    hide ByteBits;
    var a, b := ByteBits(f), ByteBits(fed[|f|..]);
    assert |a| == 8 * |f|;
    LsbSplit((a + b)[pos..], bits % 8);
    assert (a + b)[pos..][..bits % 8] == a[pos..];
    assert (a + b)[..pos] <= a;
    assert START == Config(Block(false), 0, []);
    LeadsLocal(a + b, a, START, Config(p, pos, out));
  }

  lemma GivenBack(s: State, p: Point)
    requires s.Shape() && s.Buffered() && Leads(s.Input(), START, Config(p, s.pos, s.Out())) && Coded(s) && s.bits < 8
    requires s.mode in {LEN, TYPE, BAD}
    requires p == if s.mode == LEN then LenSym(s.last, s.cd) else if s.mode == TYPE then Block(s.last) else Failed
    requires forall i :: 0 <= i < |s.next| ==> s.next[i] < 256
    ensures Ready(s)
  {
    hide Leads, ByteBits, TableFor, CodeOk;
    if s.mode == LEN { DataTables(s); } else { NoTables(s); }
  }
}
