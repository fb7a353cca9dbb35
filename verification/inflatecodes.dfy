/** The modes of inflate that read the code lengths of a dynamic block. */
module InflateCodes {
  import opened Bits
  import opened Canonical
  import opened DecodingTables
  import opened SymbolDecoding
  import opened CodeLengths
  import opened BitOutput
  import opened InflateSpec
  import opened InflateStates
  import opened InflateHeaders

  // ---- waiting for a symbol ----

  /** A symbol decided by the bits was not decided by fewer bits than its code. */
  lemma SymTight(lens: seq<nat>, w: seq<bool>, k: nat)
    requires CodeOk(lens) && k <= |w| && DecodeStep(lens, w[..k]) == More
    ensures DecodeStep(lens, w).Sym? ==> DecodeStep(lens, w).n < |lens| && k < lens[DecodeStep(lens, w).n]
    ensures DecodeStep(lens, w) == Bad ==> k < 1
  {
    hide DecodeStep, CodeOk;
    StepTrim(lens, w, k);
    StepLocal(lens, w, w);
  }

  /** Undecided bits were undecided before the last of them came. */
  lemma MoreShorter(lens: seq<nat>, w: seq<bool>, k: nat)
    requires CodeOk(lens) && k <= |w| && DecodeStep(lens, w) == More
    ensures DecodeStep(lens, w[..k]) == More
  {
    hide DecodeStep, CodeOk;
    StepLocal(lens, w[..k], w);
    StepLocal(lens, w[..k], w[..k]);
  }

  /** The bits before the last byte. */
  lemma Earlier(input: seq<bool>, pos: nat, bits: nat)
    requires 8 <= bits && pos + bits == |input|
    ensures input[..|input| - 8][pos..] == input[pos..][..bits - 8] == input[pos..|input| - 8]
  {
  }

  // ---- TABLE ----

  /** TABLE: the numbers of codes. */
  method DoTable(s: State) returns (ok: bool)
    requires Ready(s) && s.mode == TABLE
    modifies s
    ensures Ready(s) && s.put == old(s.put) && s.past == old(s.past) && s.left == old(s.left)
    ensures Taken(old(s.next), old(s.fed), s.next, s.fed)
    ensures !ok ==> s.next == [] && Move(s.Input(), s.Now()) == Stuck && s.mode == old(s.mode)
    ensures ok ==> Less(Work(old(s.next), old(s.bits), s.left), old(s.mode), Work(s.next, s.bits, s.left), s.mode)
    ensures s.mode in {TABLE, LENLENS, BAD}
  {
    hide *;
    Unpacked(s);
    s.Stands();
    Stance(s);
    ghost var in0, c := s.Input(), s.Now();
    ghost var next0, bits0, mode0 := s.next, s.bits, s.mode;
    TakenNone(s.next, s.fed);
    TableTight(in0, c, s.last, s.bits);
    ok := s.NeedBits(14);
    Stance(s);
    if !ok {
      StillThere(in0, s.Input(), c);
      TableMove(s.Input(), c, s.last);
      NoTables(s);
      TableTight(s.Input(), c, s.last, s.bits);
      Settled(s);
      return;
    }
    TakeCounts(s, in0, c);
    LessWork(next0, bits0, s.left, mode0, s.next, s.bits, s.left, s.mode);
  }

  /** Read the counts and go on from there. */
  method TakeCounts(s: State, ghost in0: seq<bool>, ghost c: Config)
    requires s.Shape() && s.Buffered() && 14 <= s.bits < 22 && s.Now() == c && c.p == Table(s.last)
    requires Leads(in0, START, c) && in0 <= s.Input() && forall i :: 0 <= i < |s.next| ==> s.next[i] < 256
    modifies s`nlen, s`ndist, s`ncode, s`have, s`mode, s`hold, s`bits, s`pos
    ensures Ready(s) && s.bits == old(s.bits) - 14 && s.mode in {LENLENS, BAD}
  {
    hide *;
    Stance(s);
    TableMove(s.Input(), c, s.last);
    ReadCounts(s);
    Stance(s);
    NoTables(s);
    Arrive(in0, s.Input(), c, s.Now());
    Settled(s);
  }

  lemma TableTight(input: seq<bool>, c: Config, last: bool, bits: nat)
    requires c.p == Table(last) && c.pos + bits == |input|
    ensures bits >= 8 ==> (bits < 22 <==> Move(input[..|input| - 8], c) == Stuck)
  {
    hide Move;
    if bits >= 8 { TableMove(input[..|input| - 8], c, last); }
  }

  method ReadCounts(s: State)
    requires s.Buffered() && s.bits >= 14
    modifies s`nlen, s`ndist, s`ncode, s`have, s`mode, s`hold, s`bits, s`pos
    ensures s.Buffered() && s.bits == old(s.bits) - 14 && s.pos == old(s.pos) + 14 && s.mode in {LENLENS, BAD}
    ensures var w := old(s.Input()[s.pos..]);
      var nlen, ndist, ncode := Lsb(w[..5]) + 257, Lsb(w[5..10]) + 1, Lsb(w[10..14]) + 4;
      s.Here() == if nlen > 286 || ndist > 30 then Failed else LenLens(s.last, nlen, ndist, ncode, [])
  {
    hide ByteBits, Lsb, State.Here;
    ghost var input, p := s.Input(), s.pos;
    SubBits(input, p, 5, 10);
    SubBits(input, p, 10, 14);
    var v := s.GetBits(5);
    s.nlen := v + 257;
    s.DropBits(5);
    v := s.GetBits(5);
    s.ndist := v + 1;
    s.DropBits(5);
    v := s.GetBits(4);
    s.ncode := v + 4;
    s.DropBits(4);
    s.have := 0;
    s.mode := if s.nlen > 286 || s.ndist > 30 then BAD else LENLENS;
    s.Stands();
    GotSize(s.lens[..], 0);
  }

  // ---- LENLENS ----

  lemma OrderRank(r: nat)
    requires r < BL_CODES
    ensures |ORDER| == BL_CODES && ORDER[r] < BL_CODES && Rank(ORDER[r]) == r
  {
    assert ORDER[0] == 16 && ORDER[1] == 17 && ORDER[2] == 18 && ORDER[3] == 0 && ORDER[4] == 8 && ORDER[5] == 7;
    assert ORDER[6] == 9 && ORDER[7] == 6 && ORDER[8] == 10 && ORDER[9] == 5 && ORDER[10] == 11 && ORDER[11] == 4;
    assert ORDER[12] == 12 && ORDER[13] == 3 && ORDER[14] == 13 && ORDER[15] == 2 && ORDER[16] == 14;
    assert ORDER[17] == 1 && ORDER[18] == 15;
  }

  lemma LenLensMove(input: seq<bool>, c: Config, last: bool, nlen: nat, ndist: nat, ncode: nat, got: seq<nat>)
    requires c.p == LenLens(last, nlen, ndist, ncode, got) && c.pos <= |input|
    ensures |got| < ncode ==> Move(input, c) == if |input| - c.pos < 3 then Stuck
      else Moved(Config(LenLens(last, nlen, ndist, ncode, got + [Lsb(input[c.pos..][..3])]), c.pos + 3, c.out))
    ensures |got| >= ncode ==>
      Move(input, c) == Moved(Config(if Outcome(CODES, Unorder(got), 7) == 0 then CodeLens(last, nlen, ndist, Unorder(got), []) else Failed, c.pos, c.out))
  {
    hide Lsb, Outcome, Unorder;
    assert c.out + [] == c.out;
  }

  lemma GotNext(lens: seq<nat>, have: nat, v: nat)
    requires have < BL_CODES <= |lens|
    ensures |ORDER| == BL_CODES && ORDER[have] < BL_CODES
    ensures Got(lens[ORDER[have] := v], have + 1) == Got(lens, have) + [v]
  {
    hide ORDER;
    OrderRank(have);
    forall i | 0 <= i < have
      ensures ORDER[i] != ORDER[have]
    {
      OrderRank(i);
    }
  }

  /** One code length of the code-length code. */
  method LenLensOne(s: State) returns (ok: bool)
    requires Ready(s) && s.mode == LENLENS && s.have < s.ncode <= BL_CODES
    modifies s, s.lens
    ensures Ready(s) && s.put == old(s.put) && s.past == old(s.past) && s.left == old(s.left) && s.mode == LENLENS
    ensures s.ncode == old(s.ncode) && Taken(old(s.next), old(s.fed), s.next, s.fed)
    ensures !ok ==> s.next == [] && Move(s.Input(), s.Now()) == Stuck
    ensures ok ==> s.have == old(s.have) + 1
    ensures Work(s.next, s.bits, s.left) <= Work(old(s.next), old(s.bits), s.left)
  {
    hide *;
    Unpacked(s);
    s.Stands();
    Stance(s);
    ghost var in0, c, got := s.Input(), s.Now(), Got(s.lens[..], s.have);
    ghost var next0, bits0 := s.next, s.bits;
    TakenNone(s.next, s.fed);
    GotSize(s.lens[..], s.have);
    LenLensTight(in0, c, s.last, s.nlen, s.ndist, s.ncode, got, s.bits);
    ok := s.NeedBits(3);
    Stance(s);
    NoMoreWork(next0, bits0, s.next, s.bits, s.left);
    if !ok {
      StillThere(in0, s.Input(), c);
      LenLensMove(s.Input(), c, s.last, s.nlen, s.ndist, s.ncode, got);
      NoTables(s);
      Settled(s);
      return;
    }
    TakeLength(s, in0, c);
    NoMoreWork(next0, bits0, s.next, s.bits, s.left);
  }

  /** Store a code length and go on from there. */
  method TakeLength(s: State, ghost in0: seq<bool>, ghost c: Config)
    requires s.Shape() && s.Buffered() && 3 <= s.bits < 11 && s.Now() == c && s.mode == LENLENS && s.have < s.ncode <= BL_CODES
    requires Leads(in0, START, c) && in0 <= s.Input() && forall i :: 0 <= i < |s.next| ==> s.next[i] < 256
    modifies s`have, s`hold, s`bits, s`pos, s.lens
    ensures Ready(s) && s.bits == old(s.bits) - 3 && s.have == old(s.have) + 1
  {
    hide *;
    s.Stands();
    Stance(s);
    GotSize(s.lens[..], s.have);
    LenLensMove(s.Input(), c, s.last, s.nlen, s.ndist, s.ncode, Got(s.lens[..], s.have));
    SetLength(s);
    s.Stands();
    Stance(s);
    NoTables(s);
    Arrive(in0, s.Input(), c, s.Now());
    Settled(s);
  }

  lemma NoMoreWork(next0: seq<nat>, bits0: nat, next: seq<nat>, bits: nat, left: nat)
    requires 8 * |next| + bits <= 8 * |next0| + bits0
    ensures Work(next, bits, left) <= Work(next0, bits0, left)
  {
  }

  lemma LenLensTight(input: seq<bool>, c: Config, last: bool, nlen: nat, ndist: nat, ncode: nat, got: seq<nat>, bits: nat)
    requires c.p == LenLens(last, nlen, ndist, ncode, got) && |got| < ncode && c.pos + bits == |input|
    ensures bits >= 8 ==> (bits < 11 <==> Move(input[..|input| - 8], c) == Stuck)
  {
    hide Move;
    if bits >= 8 { LenLensMove(input[..|input| - 8], c, last, nlen, ndist, ncode, got); }
  }

  /** Store the next three bits as a code length. */
  method SetLength(s: State)
    requires s.Shape() && s.Buffered() && s.bits >= 3 && s.have < BL_CODES
    modifies s`have, s`hold, s`bits, s`pos, s.lens
    ensures s.Buffered() && s.bits == old(s.bits) - 3 && s.pos == old(s.pos) + 3 && s.have == old(s.have) + 1
    ensures Got(s.lens[..], s.have) == old(Got(s.lens[..], s.have) + [Lsb(s.Input()[s.pos..][..3])])
  {
    hide ByteBits, Lsb, Got, ORDER;
    var v := s.GetBits(3);
    GotNext(s.lens[..], s.have, v);
    ghost var was := s.lens[..];
    s.lens[ORDER[s.have]] := v;
    assert s.lens[..] == was[ORDER[s.have] := v];
    s.have := s.have + 1;
    s.DropBits(3);
  }

  /** Zero the lengths that are not transmitted. */
  method ZeroRest(s: State)
    requires s.Shape() && s.have == s.ncode <= BL_CODES
    modifies s`have, s.lens
    ensures s.lens[..BL_CODES] == Unorder(old(Got(s.lens[..], s.have)))
  {
    ghost var was := s.lens[..];
    forall r | 0 <= r < BL_CODES
      ensures |ORDER| == BL_CODES && ORDER[r] < BL_CODES && Rank(ORDER[r]) == r
    {
      OrderRank(r);
    }
    hide ORDER;
    while s.have < BL_CODES
      invariant s.ncode <= s.have <= BL_CODES
      invariant forall i :: 0 <= i < BL_CODES ==> s.lens[i] == if s.ncode <= Rank(i) < s.have then 0 else was[i]
    {
      s.lens[ORDER[s.have]] := 0;
      s.have := s.have + 1;
    }
    forall i | 0 <= i < BL_CODES
      ensures s.lens[i] == Unorder(Got(was, s.ncode))[i]
    {
      assert ORDER[Rank(i)] == i;
    }
  }

  /** LENLENS: read the code-length code and build its table. */
  method DoLenLens(s: State) returns (ok: bool)
    requires Ready(s) && s.mode == LENLENS
    modifies s, s.lens, s.codes
    ensures Ready(s) && s.put == old(s.put) && s.past == old(s.past) && s.left == old(s.left)
    ensures Taken(old(s.next), old(s.fed), s.next, s.fed)
    ensures !ok ==> s.next == [] && Move(s.Input(), s.Now()) == Stuck && s.mode == old(s.mode)
    ensures ok ==> Less(Work(old(s.next), old(s.bits), s.left), old(s.mode), Work(s.next, s.bits, s.left), s.mode)
    ensures s.mode in {LENLENS, CODELENS, BAD}
  {
    hide Move, Leads, ByteBits, Taken, Ready, Got;
    ghost var next0, fed0, put0, past0, left0, work0 := s.next, s.fed, s.put, s.past, s.left, Work(s.next, s.bits, s.left);
    TakenNone(s.next, s.fed);
    LenLensPoint(s);
    while s.have < s.ncode
      invariant Ready(s) && s.mode == LENLENS && s.have <= s.ncode <= BL_CODES
      invariant s.put == put0 && s.past == past0 && s.left == left0 && Taken(next0, fed0, s.next, s.fed)
      invariant Work(s.next, s.bits, s.left) <= work0
      decreases s.ncode - s.have
    {
      ghost var next1, fed1 := s.next, s.fed;
      var more := LenLensOne(s);
      TakenOn(next0, fed0, next1, fed1, s.next, s.fed);
      if !more {
        return false;
      }
    }
    LenLensEnd(s);
    ok := true;
  }

  lemma TakenOn(next0: seq<nat>, fed0: seq<nat>, next1: seq<nat>, fed1: seq<nat>, next2: seq<nat>, fed2: seq<nat>)
    requires Taken(next0, fed0, next1, fed1) && Taken(next1, fed1, next2, fed2)
    ensures Taken(next0, fed0, next2, fed2)
  {
  }

  /** What the invariant says about the counts. */
  lemma LenLensPoint(s: State)
    requires Ready(s) && s.mode == LENLENS
    ensures s.have <= s.ncode <= BL_CODES && AtMost(Got(s.lens[..], s.have), 7)
    ensures 257 <= s.nlen <= 286 && 1 <= s.ndist <= 30
  {
    hide Leads, ByteBits, Move, State.Tables, State.Tight;
    StillThere(s.Input(), s.Input(), s.Now());
    assert |Got(s.lens[..], s.have)| == s.have;
  }

  /** The code-length code is complete: accept it or fail. */
  method LenLensEnd(s: State)
    requires Ready(s) && s.mode == LENLENS && s.have == s.ncode <= BL_CODES
    modifies s, s.lens, s.codes
    ensures Ready(s) && s.put == old(s.put) && s.past == old(s.past) && s.left == old(s.left)
    ensures s.next == old(s.next) && s.fed == old(s.fed) && s.bits == old(s.bits) && s.mode in {CODELENS, BAD}
  {
    hide *;
    LenLensPoint(s);
    Unpacked(s);
    s.Stands();
    Stance(s);
    ghost var c, got := s.Now(), Got(s.lens[..], s.have);
    GotSize(s.lens[..], s.have);
    StillThere(s.Input(), s.Input(), c);
    EndTight(s.Input(), c, s.last, s.nlen, s.ndist, s.ncode, got, s.bits);
    LenLensMove(s.Input(), c, s.last, s.nlen, s.ndist, s.ncode, got);
    BuildLenLens(s);
    Stance(s);
    Arrive(s.Input(), s.Input(), c, s.Now());
    Settled(s);
  }

  /** Build the table of the code-length code, or fail. */
  method BuildLenLens(s: State)
    requires s.Shape() && s.have == s.ncode <= BL_CODES && AtMost(Got(s.lens[..], s.have), 7) && s.mode == LENLENS
    modifies s`have, s`mode, s`lencode, s`lenbits, s`bl, s.lens, s.codes
    ensures s.Tables() && s.mode in {CODELENS, BAD}
    ensures var bl := old(Unorder(Got(s.lens[..], s.have)));
      s.Here() == if Outcome(CODES, bl, 7) == 0 then CodeLens(s.last, s.nlen, s.ndist, bl, []) else Failed
  {
    hide State.Tables, State.Here, Got, TableFor, Outcome, Unorder;
    ghost var got := Got(s.lens[..], s.have);
    ZeroRest(s);
    var bl := s.lens[..BL_CODES];
    UnorderSmall(got);
    var ret, used, root := InflateTable(CODES, bl, s.codes, 0, 7);
    if ret != 0 {
      s.mode := BAD;
    } else {
      s.lencode, s.lenbits := s.codes[0..0 + used], root;
      s.bl := bl;
      s.have := 0;
      s.mode := CODELENS;
    }
    TablesSet(s);
    s.Stands();
  }

  lemma TablesSet(s: State)
    requires s.mode == BAD || (s.mode == CODELENS && s.have <= MAXLENS && |s.bl| == BL_CODES && TableFor(s.lencode, s.lenbits, CODES, s.bl))
    ensures s.Tables()
  {
    hide TableFor;
  }

  lemma GotSize(lens: seq<nat>, have: nat)
    ensures |Got(lens, have)| == have
  {
  }

  lemma EndTight(input: seq<bool>, c: Config, last: bool, nlen: nat, ndist: nat, ncode: nat, got: seq<nat>, bits: nat)
    requires c.p == LenLens(last, nlen, ndist, ncode, got) && |got| == ncode && c.pos + bits == |input|
    requires bits < 8 || Move(input[..|input| - 8], c) == Stuck
    ensures bits < 8
  {
    hide Move, Outcome, Unorder;
    if bits >= 8 { LenLensMove(input[..|input| - 8], c, last, nlen, ndist, ncode, got); }
  }

  lemma UnorderSmall(got: seq<nat>)
    requires AtMost(got, 7)
    ensures ValidLens(Unorder(got)) && forall i :: 0 <= i < BL_CODES ==> Unorder(got)[i] <= 7
  {
  }

  // ---- CODELENS ----

  function RepeatExtra(sym: nat): nat {
    if sym == 16 then 2 else if sym == 17 then 3 else 7
  }

  lemma RepeatSmall(sym: nat)
    ensures RepeatExtra(sym) <= 7
  {
  }

  /** The lengths after a repeat symbol; nothing when it is invalid. */
  function Repeated(lens: seq<nat>, total: nat, sym: nat, v: nat): Lengths {
    var copy := (if sym == 18 then 11 else 3) + v;
    if sym == 16 && lens == [] then BadRepeat
    else if |lens| + copy > total then BadRepeat
    else Lengths(lens + Repeat(if sym == 16 then lens[|lens| - 1] else 0, copy))
  }

  lemma PlainMove(input: seq<bool>, c: Config, last: bool, nlen: nat, ndist: nat, bl: seq<nat>, lens: seq<nat>)
    requires c.p == CodeLens(last, nlen, ndist, bl, lens) && c.pos <= |input| && |lens| < nlen + ndist
    ensures var r := DecodeStep(bl, input[c.pos..]);
      && (r == More ==> Move(input, c) == Stuck)
      && (r == Bad ==> Move(input, c) == Moved(Config(CodeLens(last, nlen, ndist, bl, lens + [0]), c.pos + 1, c.out)))
      && (r.Sym? && r.n < 16 ==>
            r.n < |bl| && Move(input, c) == Moved(Config(CodeLens(last, nlen, ndist, bl, lens + [r.n]), c.pos + bl[r.n], c.out)))
  {
    hide RepeatStep, Code, Kraft;
    assert c.out + [] == c.out;
  }

  lemma RepeatMove(input: seq<bool>, c: Config, last: bool, nlen: nat, ndist: nat, bl: seq<nat>, lens: seq<nat>, n: nat)
    requires c.p == CodeLens(last, nlen, ndist, bl, lens) && c.pos <= |input| && |lens| < nlen + ndist && |bl| == BL_CODES
    requires DecodeStep(bl, input[c.pos..]) == Sym(n) && n >= 16
    ensures n < BL_CODES
    ensures |input| - c.pos < bl[n] + RepeatExtra(n) ==> Move(input, c) == Stuck
    ensures |input| - c.pos >= bl[n] + RepeatExtra(n) ==>
      var e := bl[n] + RepeatExtra(n);
      var r := Repeated(lens, nlen + ndist, n, Lsb(input[c.pos..][bl[n]..e]));
      Move(input, c) == Moved(Config(if r.Lengths? then CodeLens(last, nlen, ndist, bl, r.lens) else Failed, c.pos + e, c.out))
  {
    hide Code, Kraft, Lsb, DecodeStep;
    assert Starts(bl, input[c.pos..], n);
    assert c.out + [] == c.out;
  }

  /** A code length was decided only with its last byte. */
  lemma PlainTight(input: seq<bool>, c: Config, last: bool, nlen: nat, ndist: nat, bl: seq<nat>, lens: seq<nat>, bits: nat)
    requires c.p == CodeLens(last, nlen, ndist, bl, lens) && c.pos + bits == |input| && |lens| < nlen + ndist && CodeOk(bl)
    requires bits < 8 || Move(input[..|input| - 8], c) == Stuck || DecodeStep(bl, input[c.pos..|input| - 8]) == More
    ensures var r := DecodeStep(bl, input[c.pos..]);
      && (r == Bad ==> bits < 9)
      && (r.Sym? && r.n < 16 ==> r.n < |bl| && bits < bl[r.n] + 8)
  {
    hide Move, DecodeStep, CodeOk;
    var w := input[c.pos..];
    StepLocal(bl, w, w);
    if bits >= 8 {
      Earlier(input, c.pos, bits);
      PlainMove(input[..|input| - 8], c, last, nlen, ndist, bl, lens);
      var r := DecodeStep(bl, w);
      StepTrim(bl, w, bits - 8);
    }
  }

  lemma CodeLensPoint(s: State)
    requires Ready(s) && s.mode == CODELENS
    ensures |s.bl| == BL_CODES && CodeOk(s.bl) && s.have <= s.nlen + s.ndist <= 316 && ValidLens(s.lens[..s.have])
    ensures 257 <= s.nlen <= 286 && 1 <= s.ndist <= 30
    ensures s.Here() == CodeLens(s.last, s.nlen, s.ndist, s.bl, s.lens[..s.have])
    ensures TableFor(s.lencode, s.lenbits, CODES, s.bl)
  {
    hide Leads, ByteBits, Move, TableFor, State.Tight, CodeOk;
    StillThere(s.Input(), s.Input(), s.Now());
  }

  lemma FoundLength(op: nat, val: nat, len: nat, bl: seq<nat>, w: seq<bool>)
    requires Agrees(Found(op, val, len), CODES, bl, w) && DecodeStep(bl, w) != More && |bl| == BL_CODES
    ensures if DecodeStep(bl, w) == Bad then val == 0 && len == 1 && op == 64
            else var n := DecodeStep(bl, w).n; n < BL_CODES && val == n && len == bl[n] && op == 0
  {
    hide DecodeStep;
  }

  lemma Shapes(s: State)
    requires s.Shape()
    ensures s.lens.Length == MAXLENS == 320 && BL_CODES == 19 <= MaxSymbols(CODES)
  {
  }

  /** One code length, or one repeat. */
  method CodeLensOne(s: State) returns (ok: bool)
    requires Ready(s) && s.mode == CODELENS && s.have < s.nlen + s.ndist
    modifies s, s.lens
    ensures Ready(s) && s.put == old(s.put) && s.past == old(s.past) && s.left == old(s.left)
    ensures s.mode in {CODELENS, BAD} && Taken(old(s.next), old(s.fed), s.next, s.fed)
    ensures !ok ==> s.next == [] && Move(s.Input(), s.Now()) == Stuck && s.mode == CODELENS
    ensures ok ==> 8 * |s.next| + s.bits < 8 * |old(s.next)| + old(s.bits)
  {
    hide *;
    CodeLensPoint(s);
    Unpacked(s);
    Shapes(s);
    Stance(s);
    ghost var in0, c, lens, bl := s.Input(), s.Now(), s.lens[..s.have], s.bl;
    ghost var next0, fed0 := s.next, s.fed;
    var op, val, len;
    ok, op, val, len := s.LookupSym(s.lencode, s.lenbits, CODES, s.bl);
    Stance(s);
    StillThere(in0, s.Input(), c);
    if !ok {
      PlainMove(s.Input(), c, s.last, s.nlen, s.ndist, bl, lens);
      WaitTight(s.Input(), c, s.last, s.nlen, s.ndist, bl, lens, s.bits);
      CodeTables(s);
      Settled(s);
      return;
    }
    FoundLength(op, val, len, bl, s.Input()[s.pos..]);
    LengthUsed(bl, s.Input()[s.pos..]);
    if val < 16 {
      PlainLength(s, val, len, c, lens);
      return;
    }
    ghost var next1, fed1 := s.next, s.fed;
    ok := RepeatOne(s, val, len, c, lens);
    TakenOn(next0, fed0, next1, fed1, s.next, s.fed);
  }

  method StoreLength(s: State, val: nat)
    requires s.have < s.lens.Length
    modifies s`have, s.lens
    ensures s.have == old(s.have) + 1 && s.lens[..s.have] == old(s.lens[..s.have]) + [val]
  {
    s.lens[s.have] := val;
    s.have := s.have + 1;
  }

  /** A code length that stands for itself. */
  method PlainLength(s: State, val: nat, len: nat, ghost c: Config, ghost lens: seq<nat>)
    requires s.Shape() && s.Buffered() && (forall i :: 0 <= i < |s.next| ==> s.next[i] < 256) && s.Now() == c
    requires s.mode == CODELENS && s.have < s.nlen + s.ndist <= 316 && lens == s.lens[..s.have]
    requires c.p == CodeLens(s.last, s.nlen, s.ndist, s.bl, lens) && |s.bl| == BL_CODES && CodeOk(s.bl)
    requires TableFor(s.lencode, s.lenbits, CODES, s.bl) && Leads(s.Input(), START, c)
    requires val < 16 && len <= s.bits
    requires var r := DecodeStep(s.bl, s.Input()[s.pos..]);
      if r == Bad then val == 0 && len == 1 else r == Sym(val) && val < BL_CODES && len == s.bl[val]
    requires s.bits < 8 || Move(s.Input()[..8 * |s.fed| - 8], c) == Stuck
          || DecodeStep(s.bl, s.Input()[s.pos..8 * |s.fed| - 8]) == More
    modifies s`have, s`hold, s`bits, s`pos, s.lens
    ensures Ready(s) && s.bits == old(s.bits) - len
  {
    hide *;
    Shapes(s);
    Stance(s);
    ghost var bl := s.bl;
    PlainMove(s.Input(), c, s.last, s.nlen, s.ndist, bl, lens);
    PlainTight(s.Input(), c, s.last, s.nlen, s.ndist, bl, lens, s.bits);
    s.DropBits(len);
    StoreLength(s, val);
    s.Stands();
    Stance(s);
    CodeTables(s);
    Arrive(s.Input(), s.Input(), c, s.Now());
    Settled(s);
  }

  /** Set a run of code lengths. */
  method RepeatLength(s: State, x: nat, copy0: nat)
    requires s.Shape() && s.have + copy0 <= MAXLENS
    modifies s`have, s.lens
    ensures s.have == old(s.have) + copy0 && s.lens[..s.have] == old(s.lens[..s.have]) + Repeat(x, copy0)
  {
    var copy: nat := copy0;
    while copy != 0
      invariant copy <= copy0 && s.have == old(s.have) + copy0 - copy
      invariant forall i :: 0 <= i < old(s.have) ==> s.lens[i] == old(s.lens[i])
      invariant forall i :: old(s.have) <= i < s.have ==> s.lens[i] == x
    {
      s.lens[s.have] := x;
      s.have := s.have + 1;
      copy := copy - 1;
    }
  }

  /** A repeat symbol: its extra bits, then the run it stands for. */
  method RepeatOne(s: State, sym: nat, len: nat, ghost c: Config, ghost lens: seq<nat>) returns (ok: bool)
    requires s.Shape() && s.Buffered() && (forall i :: 0 <= i < |s.next| ==> s.next[i] < 256) && s.Now() == c
    requires s.mode == CODELENS && s.have < s.nlen + s.ndist <= 316 && lens == s.lens[..s.have]
    requires c.p == CodeLens(s.last, s.nlen, s.ndist, s.bl, lens) && |s.bl| == BL_CODES && CodeOk(s.bl)
    requires TableFor(s.lencode, s.lenbits, CODES, s.bl) && Leads(s.Input(), START, c)
    requires 16 <= sym < BL_CODES && len == s.bl[sym] <= s.bits && DecodeStep(s.bl, s.Input()[s.pos..]) == Sym(sym)
    requires s.bits < 8 || Move(s.Input()[..8 * |s.fed| - 8], c) == Stuck
          || DecodeStep(s.bl, s.Input()[s.pos..8 * |s.fed| - 8]) == More
    modifies s, s.lens
    ensures Ready(s) && s.put == old(s.put) && s.past == old(s.past) && s.left == old(s.left)
    ensures s.mode in {CODELENS, BAD} && Taken(old(s.next), old(s.fed), s.next, s.fed)
    ensures !ok ==> s.next == [] && Move(s.Input(), s.Now()) == Stuck && s.mode == CODELENS
    ensures ok ==> 8 * |s.next| + s.bits < 8 * |old(s.next)| + old(s.bits)
  {
    hide *;
    Shapes(s);
    Stance(s);
    ghost var in0, bl := s.Input(), s.bl;
    var extra := RepeatExtra(sym);
    LengthUsed(bl, s.Input()[s.pos..]);
    RepeatSmall(sym);
    ok := s.NeedBits(len + extra);
    Stance(s);
    StillThere(in0, s.Input(), c);
    SymStill(bl, in0, s.Input(), s.pos);
    RepeatMove(s.Input(), c, s.last, s.nlen, s.ndist, bl, lens, sym);
    if s.bits >= 8 { RepeatTight(s.Input(), c, s.last, s.nlen, s.ndist, bl, lens, sym, s.bits); }
    if !ok {
      CodeTables(s);
      Settled(s);
      return;
    }
    SubBits(s.Input(), s.pos, len, len + extra);
    StillLeads(in0, s.Input(), c);
    ApplyRepeat(s, sym, len, extra, c, lens);
  }

  lemma StillLeads(in0: seq<bool>, input: seq<bool>, c: Config)
    requires Leads(in0, START, c) && in0 <= input
    ensures Leads(input, START, c)
  {
    hide Leads;
    StillThere(in0, input, c);
  }

  /** The bits of a repeat are there: set its run, or fail. */
  method ApplyRepeat(s: State, sym: nat, len: nat, extra: nat, ghost c: Config, ghost lens: seq<nat>)
    requires s.Shape() && s.Buffered() && (forall i :: 0 <= i < |s.next| ==> s.next[i] < 256) && s.Now() == c
    requires s.mode == CODELENS && s.have < s.nlen + s.ndist <= 316 && lens == s.lens[..s.have]
    requires c.p == CodeLens(s.last, s.nlen, s.ndist, s.bl, lens) && |s.bl| == BL_CODES && Leads(s.Input(), START, c)
    requires TableFor(s.lencode, s.lenbits, CODES, s.bl)
    requires 16 <= sym < BL_CODES && extra == RepeatExtra(sym) && len + extra <= s.bits < len + extra + 8
    requires var r := Repeated(lens, s.nlen + s.ndist, sym, Lsb(s.Input()[s.pos..][len..len + extra]));
      Move(s.Input(), c) == Moved(Config(if r.Lengths? then CodeLens(s.last, s.nlen, s.ndist, s.bl, r.lens) else Failed, c.pos + (len + extra), c.out))
    modifies s`have, s`mode, s`hold, s`bits, s`pos, s.lens
    ensures Ready(s) && s.mode in {CODELENS, BAD} && s.bits <= old(s.bits) - len
  {
    hide *;
    Shapes(s);
    Stance(s);
    SubBits(s.Input(), s.pos, len, len + extra);
    s.DropBits(len);
    RepeatRun(s, sym, extra, lens);
    s.Stands();
    Stance(s);
    if s.mode == CODELENS { CodeTables(s); } else { NoTables(s); }
    Arrive(s.Input(), s.Input(), c, s.Now());
    Settled(s);
  }

  /** Take the extra bits of a repeat and set its run. */
  method RepeatRun(s: State, sym: nat, extra: nat, ghost lens: seq<nat>)
    requires s.Shape() && s.Buffered() && s.mode == CODELENS && s.have < s.nlen + s.ndist <= 316 && lens == s.lens[..s.have]
    requires 16 <= sym < BL_CODES && extra == RepeatExtra(sym) && extra <= s.bits
    modifies s`have, s`mode, s`hold, s`bits, s`pos, s.lens
    ensures s.pos == old(s.pos) + extra && s.bits <= old(s.bits) && (s.mode != BAD ==> s.Buffered() && s.bits == old(s.bits) - extra)
    ensures var r := Repeated(lens, s.nlen + s.ndist, sym, Lsb(old(s.Input()[s.pos..])[..extra]));
      if r.Lengths? then s.mode == CODELENS && s.have <= MAXLENS && s.lens[..s.have] == r.lens else s.mode == BAD
  {
    hide ByteBits, Lsb;
    if sym == 16 && s.have == 0 {
      s.mode := BAD;
      s.pos := s.pos + extra;
      return;
    }
    var x := if sym == 16 then s.lens[s.have - 1] else 0;
    var v := s.GetBits(extra);
    var copy := (if sym == 18 then 11 else 3) + v;
    s.DropBits(extra);
    if s.have + copy > s.nlen + s.ndist {
      s.mode := BAD;
    } else {
      RepeatLength(s, x, copy);
    }
  }

  /** More bits do not change the symbol. */
  lemma SymStill(bl: seq<nat>, input0: seq<bool>, input: seq<bool>, pos: nat)
    requires CodeOk(bl) && input0 <= input && pos <= |input0| && DecodeStep(bl, input0[pos..]).Sym?
    ensures DecodeStep(bl, input[pos..]) == DecodeStep(bl, input0[pos..])
  {
    hide DecodeStep, CodeOk;
    StepLocal(bl, input0[pos..], input[pos..]);
  }

  lemma LengthUsed(bl: seq<nat>, w: seq<bool>)
    ensures DecodeStep(bl, w).Sym? ==> DecodeStep(bl, w).n < |bl| && 1 <= bl[DecodeStep(bl, w).n] <= 15
  {
    if DecodeStep(bl, w).Sym? { assert Starts(bl, w, DecodeStep(bl, w).n); }
  }

  lemma CodeTables(s: State)
    requires s.mode == CODELENS && s.have <= MAXLENS && |s.bl| == BL_CODES && TableFor(s.lencode, s.lenbits, CODES, s.bl)
    ensures s.Tables()
  {
    hide TableFor;
  }

  /** Still waiting: one byte less was not enough either. */
  lemma WaitTight(input: seq<bool>, c: Config, last: bool, nlen: nat, ndist: nat, bl: seq<nat>, lens: seq<nat>, bits: nat)
    requires c.p == CodeLens(last, nlen, ndist, bl, lens) && c.pos + bits == |input| && |lens| < nlen + ndist && CodeOk(bl)
    requires DecodeStep(bl, input[c.pos..]) == More
    ensures bits >= 8 ==> Move(input[..|input| - 8], c) == Stuck
  {
    hide Move, DecodeStep, CodeOk;
    if bits >= 8 {
      Earlier(input, c.pos, bits);
      MoreShorter(bl, input[c.pos..], bits - 8);
      PlainMove(input[..|input| - 8], c, last, nlen, ndist, bl, lens);
    }
  }

  /** A repeat was decided only with its last byte, or still waits. */
  lemma RepeatTight(input: seq<bool>, c: Config, last: bool, nlen: nat, ndist: nat, bl: seq<nat>, lens: seq<nat>, n: nat, bits: nat)
    requires c.p == CodeLens(last, nlen, ndist, bl, lens) && c.pos + bits == |input| && |lens| < nlen + ndist && CodeOk(bl)
    requires DecodeStep(bl, input[c.pos..]) == Sym(n) && n >= 16 && |bl| == BL_CODES && bits >= 8
    ensures n < BL_CODES
    ensures Move(input[..|input| - 8], c) == Stuck || DecodeStep(bl, input[c.pos..|input| - 8]) == More
            ==> bits - 8 < bl[n] + RepeatExtra(n)
    ensures bits - 8 < bl[n] + RepeatExtra(n) ==> Move(input[..|input| - 8], c) == Stuck
  {
    hide Move, DecodeStep, CodeOk;
    var w := input[c.pos..];
    LengthUsed(bl, w);
    RepeatMove(input, c, last, nlen, ndist, bl, lens, n);
    Earlier(input, c.pos, bits);
    StepTrim(bl, w, bits - 8);
    PlainMove(input[..|input| - 8], c, last, nlen, ndist, bl, lens);
    if bits - 8 >= bl[n] {
      RepeatMove(input[..|input| - 8], c, last, nlen, ndist, bl, lens, n);
    } else {
      NotYet(bl, w, bits - 8, n);
    }
  }

  /** Fewer bits than the code leave the symbol undecided. */
  lemma NotYet(bl: seq<nat>, w: seq<bool>, k: nat, n: nat)
    requires CodeOk(bl) && k <= |w| && DecodeStep(bl, w) == Sym(n) && n < |bl| && k < bl[n]
    ensures DecodeStep(bl, w[..k]) == More
  {
    hide DecodeStep, CodeOk;
    StepLocal(bl, w[..k], w);
    StepLocal(bl, w[..k], w[..k]);
  }

  lemma ReadyMove(input: seq<bool>, c: Config, last: bool, nlen: nat, ndist: nat, bl: seq<nat>, lens: seq<nat>)
    requires c.p == CodeLens(last, nlen, ndist, bl, lens) && c.pos <= |input| && |lens| == nlen + ndist && nlen >= 257
    ensures Move(input, c) == Moved(Config(
      if lens[256] == 0 || Outcome(LENS, lens[..nlen], 9) != 0 || Outcome(DISTS, lens[nlen..], 6) != 0 then Failed
      else LenSym(last, Codes(lens[..nlen], lens[nlen..])), c.pos, c.out))
  {
    hide Outcome;
    assert c.out + [] == c.out;
  }

  lemma ReadyTight(input: seq<bool>, c: Config, last: bool, nlen: nat, ndist: nat, bl: seq<nat>, lens: seq<nat>, bits: nat)
    requires c.p == CodeLens(last, nlen, ndist, bl, lens) && c.pos + bits == |input| && |lens| == nlen + ndist && nlen >= 257
    requires bits < 8 || Move(input[..|input| - 8], c) == Stuck
    ensures bits < 8
  {
    hide Move, Outcome;
    if bits >= 8 { ReadyMove(input[..|input| - 8], c, last, nlen, ndist, bl, lens); }
  }

  lemma DataTables(s: State)
    requires s.mode in {LENSTART, LEN, LIT, LENEXT, DIST, DISTEXT, MATCH}
    requires |s.cd.lit| <= 288 && TableFor(s.lencode, s.lenbits, LENS, s.cd.lit)
    requires |s.cd.dist| <= 32 && TableFor(s.distcode, s.distbits, DISTS, s.cd.dist)
    ensures s.Tables()
  {
    hide TableFor;
  }

  /** All code lengths are there: build the two tables or fail. */
  method BuildCodes(s: State)
    requires s.Shape() && s.mode == CODELENS && s.have == s.nlen + s.ndist && 257 <= s.nlen <= 286 && 1 <= s.ndist <= 30
    requires ValidLens(s.lens[..s.have])
    modifies s`mode, s`lencode, s`lenbits, s`distcode, s`distbits, s`cd, s.codes
    ensures s.Tables() && s.mode in {LENSTART, BAD}
    ensures var lens := s.lens[..s.have];
      s.Here() == if lens[256] == 0 || Outcome(LENS, lens[..s.nlen], 9) != 0 || Outcome(DISTS, lens[s.nlen..], 6) != 0 then Failed
                  else LenSym(s.last, Codes(lens[..s.nlen], lens[s.nlen..]))
  {
    hide *;
    Shapes(s);
    ghost var lens := s.lens[..s.have];
    var lit, dist := s.lens[..s.nlen], s.lens[s.nlen..s.nlen + s.ndist];
    assert lit == lens[..s.nlen] && dist == lens[s.nlen..];
    Parts(lens, s.nlen);
    var ok := s.lens[256] != 0;
    if ok {
      ok := BuildBoth(s, lit, dist);
    }
    if ok {
      s.cd := Codes(lit, dist);
      s.mode := LENSTART;
      DataTables(s);
    } else {
      s.mode := BAD;
      NoTables(s);
    }
    s.Stands();
  }

  lemma Parts(lens: seq<nat>, n: nat)
    requires n <= |lens| && ValidLens(lens)
    ensures ValidLens(lens[..n]) && ValidLens(lens[n..])
  {
  }

  /** The literal/length table, and behind it the distance table. */
  method BuildBoth(s: State, lit: seq<nat>, dist: seq<nat>) returns (ok: bool)
    requires s.Shape() && ValidLens(lit) && ValidLens(dist) && |lit| <= 286 && |dist| <= 30
    modifies s`lencode, s`lenbits, s`distcode, s`distbits, s.codes
    ensures ok <==> Outcome(LENS, lit, 9) == 0 && Outcome(DISTS, dist, 6) == 0
    ensures ok ==> TableFor(s.lencode, s.lenbits, LENS, lit) && TableFor(s.distcode, s.distbits, DISTS, dist)
  {
    hide TableFor, Outcome;
    Rooms();
    var ret, used, root := InflateTable(LENS, lit, s.codes, 0, 9);
    if ret != 0 {
      return false;
    }
    s.lencode, s.lenbits := s.codes[0..0 + used], root;
    var at := used;
    ret, used, root := InflateTable(DISTS, dist, s.codes, at, 6);
    if ret != 0 {
      return false;
    }
    s.distcode, s.distbits := s.codes[at..at + used], root;
    ok := true;
  }

  lemma Rooms()
    ensures Room(LENS) + Room(DISTS) == ENOUGH && MaxSymbols(LENS) == 288 && MaxSymbols(DISTS) == 32
  {
  }

  /** CODELENS: read the code lengths, check them, and build the tables. */
  method DoCodeLens(s: State) returns (ok: bool)
    requires Ready(s) && s.mode == CODELENS
    modifies s, s.lens, s.codes
    ensures Ready(s) && s.put == old(s.put) && s.past == old(s.past) && s.left == old(s.left)
    ensures Taken(old(s.next), old(s.fed), s.next, s.fed)
    ensures !ok ==> s.next == [] && Move(s.Input(), s.Now()) == Stuck && s.mode == old(s.mode)
    ensures ok ==> Less(Work(old(s.next), old(s.bits), s.left), old(s.mode), Work(s.next, s.bits, s.left), s.mode)
    ensures s.mode in {CODELENS, LENSTART, BAD}
  {
    hide *;
    ghost var next0, fed0, put0, past0, left0, bits0 := s.next, s.fed, s.put, s.past, s.left, s.bits;
    TakenNone(s.next, s.fed);
    while s.mode == CODELENS && s.have < s.nlen + s.ndist
      invariant Ready(s) && s.mode in {CODELENS, BAD}
      invariant s.put == put0 && s.past == past0 && s.left == left0 && Taken(next0, fed0, s.next, s.fed)
      invariant 8 * |s.next| + s.bits <= 8 * |next0| + bits0 && (s.mode == BAD ==> 8 * |s.next| + s.bits < 8 * |next0| + bits0)
      decreases 8 * |s.next| + s.bits
    {
      ghost var next1, fed1 := s.next, s.fed;
      var more := CodeLensOne(s);
      TakenOn(next0, fed0, next1, fed1, s.next, s.fed);
      if !more {
        return false;
      }
    }
    ok := true;
    if s.mode == BAD {
      LessWork(next0, bits0, s.left, CODELENS, s.next, s.bits, s.left, s.mode);
      return;
    }
    CodeLensEnd(s);
    CodesLater(s.mode);
    LessWork(next0, bits0, s.left, CODELENS, s.next, s.bits, s.left, s.mode);
  }

  lemma CodesLater(m: Mode)
    requires m in {LENSTART, BAD}
    ensures ModeRank(m) < ModeRank(CODELENS)
  {
  }

  /** All code lengths are there: go on with the data, or fail. */
  method CodeLensEnd(s: State)
    requires Ready(s) && s.mode == CODELENS && s.have >= s.nlen + s.ndist
    modifies s`mode, s`lencode, s`lenbits, s`distcode, s`distbits, s`cd, s.codes
    ensures Ready(s) && s.mode in {LENSTART, BAD}
  {
    hide *;
    CodeLensPoint(s);
    Unpacked(s);
    Stance(s);
    ghost var c := s.Now();
    StillThere(s.Input(), s.Input(), c);
    ReadyMove(s.Input(), c, s.last, s.nlen, s.ndist, s.bl, s.lens[..s.have]);
    ReadyTight(s.Input(), c, s.last, s.nlen, s.ndist, s.bl, s.lens[..s.have], s.bits);
    BuildCodes(s);
    Stance(s);
    Arrive(s.Input(), s.Input(), c, s.Now());
    Settled(s);
  }
}
