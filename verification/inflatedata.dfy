/** The modes of inflate that decode literals and matches, one step at a time. */
module InflateData {
  import opened Bits
  import opened Canonical
  import opened DecodingTables
  import opened SymbolDecoding
  import opened CodeLengths
  import opened BitOutput
  import opened InflateSpec
  import opened SlidingWindow
  import opened InflateStates
  import opened InflateHeaders
  import opened InflateCodes

  predicate HasBit(v: nat, bit: nat)
    requires bit > 0
  {
    (v / bit) % 2 == 1
  }

  /** What a literal/length entry leads to. */
  function LenPoint(last: bool, codes: Codes, op: nat, val: nat): Point {
    if op == 0 then LitOut(last, codes, val)
    else if HasBit(op, 32) then Block(last)
    else if HasBit(op, 64) then Failed
    else LenExt(last, codes, val, op % 16)
  }

  /** What a distance entry leads to. */
  function DistPoint(last: bool, codes: Codes, len: nat, op: nat, val: nat): Point {
    if HasBit(op, 64) then Failed else DistExt(last, codes, len, val, op % 16)
  }

  lemma LenOps(n: nat, len: nat)
    requires n < 288
    ensures var e := SymbolEntry(LENS, n, len);
      && (n < 256 ==> e.op == 0 && e.val == n)
      && (n == 256 ==> HasBit(e.op, 32) && e.op != 0)
      && (257 <= n < 286 ==> e.op == LEXT[n - 257] && e.val == LBASE[n - 257] && 16 <= e.op <= 21)
      && (n >= 286 ==> e.op != 0 && HasBit(e.op, 64) && !HasBit(e.op, 32))
  {
    if 257 <= n < 286 { LenEntryOk(n); }
    if n >= 286 { assert LEXT[29] == 72 && LEXT[30] == 78; }
  }

  lemma LenSymMove(input: seq<bool>, c: Config, last: bool, codes: Codes, op: nat, val: nat, len: nat)
    requires c.p == LenSym(last, codes) && c.pos <= |input| && |codes.lit| <= 288 && CodeOk(codes.lit)
    ensures DecodeStep(codes.lit, input[c.pos..]) == More ==> Move(input, c) == Stuck
    ensures DecodeStep(codes.lit, input[c.pos..]) != More && Agrees(Found(op, val, len), LENS, codes.lit, input[c.pos..]) ==>
      len >= 1 && Move(input, c) == Moved(Config(LenPoint(last, codes, op, val), c.pos + len, c.out))
  {
    hide CodeOk, SymbolEntry, LEXT, LBASE, DecodeStep;
    assert c.out + [] == c.out;
    TableSizes();
    var r := DecodeStep(codes.lit, input[c.pos..]);
    LengthUsed(codes.lit, input[c.pos..]);
    if r.Sym? && r.n < 288 { LenOps(r.n, codes.lit[r.n]); }
  }

  lemma DistOps(n: nat, len: nat)
    requires n < 32
    ensures var e := SymbolEntry(DISTS, n, len);
      && (n < 30 ==> e.op == DEXT[n] && e.val == DBASE[n] && 16 <= e.op <= 29)
      && (n >= 30 ==> HasBit(e.op, 64))
  {
    if n < 30 { DistEntryOk(n); } else { assert DEXT[30] == 64 && DEXT[31] == 64; }
  }

  lemma DistSymMove(input: seq<bool>, c: Config, last: bool, codes: Codes, mlen: nat, op: nat, val: nat, len: nat)
    requires c.p == DistSym(last, codes, mlen) && c.pos <= |input| && |codes.dist| <= 32 && CodeOk(codes.dist)
    ensures DecodeStep(codes.dist, input[c.pos..]) == More ==> Move(input, c) == Stuck
    ensures DecodeStep(codes.dist, input[c.pos..]) != More && Agrees(Found(op, val, len), DISTS, codes.dist, input[c.pos..]) ==>
      len >= 1 && Move(input, c) == Moved(Config(DistPoint(last, codes, mlen, op, val), c.pos + len, c.out))
  {
    hide CodeOk, SymbolEntry, DEXT, DBASE, DecodeStep;
    assert c.out + [] == c.out;
    TableSizes();
    var r := DecodeStep(codes.dist, input[c.pos..]);
    LengthUsed(codes.dist, input[c.pos..]);
    if r.Sym? && r.n < 32 { DistOps(r.n, codes.dist[r.n]); }
  }

  lemma ExtMove(input: seq<bool>, c: Config)
    requires c.pos <= |input| && (c.p.LenExt? || c.p.DistExt?)
    ensures |input| - c.pos < c.p.extra ==> Move(input, c) == Stuck
    ensures |input| - c.pos >= c.p.extra ==>
      var v := Lsb(input[c.pos..][..c.p.extra]);
      Move(input, c) == Moved(Config(if c.p.LenExt? then DistSym(c.p.last, c.p.codes, c.p.len + v)
                                     else MatchOut(c.p.last, c.p.codes, c.p.len, c.p.dist + v), c.pos + c.p.extra, c.out))
  {
    hide Lsb;
    assert c.out + [] == c.out;
  }

  /** The part of the invariant that the data modes share. */
  lemma LenStance(s: State)
    requires s.mode == LEN
    ensures s.Now().p == LenSym(s.last, s.cd)
  {
  }

  lemma DataPoint(s: State)
    requires Ready(s) && s.mode in {LENSTART, LEN, LIT, LENEXT, DIST, DISTEXT, MATCH}
    ensures CodeOk(s.cd.lit) && CodeOk(s.cd.dist) && |s.cd.lit| <= 288 && |s.cd.dist| <= 32
    ensures TableFor(s.lencode, s.lenbits, LENS, s.cd.lit) && TableFor(s.distcode, s.distbits, DISTS, s.cd.dist)
    ensures s.mode == MATCH ==> 1 <= s.length <= 258 && 1 <= s.offset <= 32768
    ensures s.mode == LIT ==> s.length < 256
    ensures s.mode == DIST ==> 3 <= s.length <= 258
    ensures s.mode in {LENEXT, DISTEXT} ==> s.extra <= 13
  {
    hide Leads, ByteBits, Move, TableFor, State.Tight, CodeOk;
    StillThere(s.Input(), s.Input(), s.Now());
  }

  /** A symbol was decided only with its last byte. */
  lemma DataTight(input: seq<bool>, c: Config, lens: seq<nat>, t: CodeType, op: nat, val: nat, len: nat, bits: nat)
    requires (c.p.LenSym? && lens == c.p.codes.lit && |lens| <= 288 && t == LENS)
          || (c.p.DistSym? && lens == c.p.codes.dist && |lens| <= 32 && t == DISTS)
    requires c.pos + bits == |input| && CodeOk(lens)
    requires DecodeStep(lens, input[c.pos..]) != More && Agrees(Found(op, val, len), t, lens, input[c.pos..])
    requires bits < 8 || Move(input[..|input| - 8], c) == Stuck || DecodeStep(lens, input[c.pos..|input| - 8]) == More
    ensures bits < len + 8
  {
    hide Move, DecodeStep, CodeOk, FoundSymbol;
    var w := input[c.pos..];
    AgreesLength(op, val, len, t, lens, w);
    if bits >= 8 {
      Earlier(input, c.pos, bits);
      var cut := input[..|input| - 8];
      SymMoves(cut, c, lens);
      if DecodeStep(lens, cut[c.pos..]) == More { SymTight(lens, w, bits - 8); }
    }
  }

  lemma AgreesLength(op: nat, val: nat, len: nat, t: CodeType, lens: seq<nat>, w: seq<bool>)
    requires DecodeStep(lens, w) != More && Agrees(Found(op, val, len), t, lens, w)
    ensures DecodeStep(lens, w).Sym? ==> DecodeStep(lens, w).n < |lens| && len == lens[DecodeStep(lens, w).n]
    ensures DecodeStep(lens, w) == Bad ==> len == 1
  {
    hide DecodeStep, SymbolEntry;
  }

  /** At a symbol, decoding is stuck only while the symbol is undecided. */
  lemma SymMoves(input: seq<bool>, c: Config, lens: seq<nat>)
    requires (c.p.LenSym? && lens == c.p.codes.lit) || (c.p.DistSym? && lens == c.p.codes.dist)
    requires c.pos <= |input|
    ensures Move(input, c) == Stuck <==> DecodeStep(lens, input[c.pos..]) == More
  {
    hide DecodeStep, LBASE, LEXT, DBASE, DEXT;
  }

  /** Still waiting for a symbol: one byte less was not enough either. */
  lemma DataWait(input: seq<bool>, c: Config, lens: seq<nat>, bits: nat)
    requires (c.p.LenSym? && lens == c.p.codes.lit) || (c.p.DistSym? && lens == c.p.codes.dist)
    requires c.pos + bits == |input| && CodeOk(lens) && DecodeStep(lens, input[c.pos..]) == More
    ensures Move(input, c) == Stuck && (bits >= 8 ==> Move(input[..|input| - 8], c) == Stuck)
  {
    hide Move, DecodeStep, CodeOk;
    SymMoves(input, c, lens);
    if bits >= 8 {
      Earlier(input, c.pos, bits);
      MoreShorter(lens, input[c.pos..], bits - 8);
      SymMoves(input[..|input| - 8], c, lens);
    }
  }

  /** LEN, the slow way: decode a literal/length symbol. */
  method DoLen(s: State) returns (ok: bool)
    requires Ready(s) && s.mode in {LENSTART, LEN}
    modifies s
    ensures Ready(s) && s.put == old(s.put) && s.past == old(s.past) && s.left == old(s.left)
    ensures Taken(old(s.next), old(s.fed), s.next, s.fed)
    ensures !ok ==> s.next == [] && Move(s.Input(), s.Now()) == Stuck && s.mode == LEN
    ensures ok ==> Less(Work(old(s.next), old(s.bits), s.left), old(s.mode), Work(s.next, s.bits, s.left), s.mode)
    ensures s.mode in {LEN, LIT, TYPE, BAD, LENEXT}
  {
    hide *;
    ghost var next0, bits0, mode0 := s.next, s.bits, s.mode;
    StartLen(s);
    DataPoint(s);
    Unpacked(s);
    LenStance(s);
    Stance(s);
    MostSymbols();
    ghost var in0, c := s.Input(), s.Now();
    var op, val, len;
    ok, op, val, len := s.LookupSym(s.lencode, s.lenbits, LENS, s.cd.lit);
    StillLeads(in0, s.Input(), c);
    if !ok {
      SymWaits(s, c, s.cd.lit);
      return;
    }
    LenFound(s, c, op, val, len);
    LessWork(next0, bits0, s.left, mode0, s.next, s.bits, s.left, s.mode);
  }

  /** LENSTART only says that a new symbol begins. */
  method StartLen(s: State)
    requires Ready(s) && s.mode in {LENSTART, LEN}
    modifies s`mode
    ensures Ready(s) && s.mode == LEN
  {
    hide *;
    DataPoint(s);
    Unpacked(s);
    s.Stands();
    Stance(s);
    s.mode := LEN;
    s.Stands();
    Stance(s);
    DataTables(s);
    Settled(s);
  }

  lemma SymWaits(s: State, c: Config, lens: seq<nat>)
    requires s.Shape() && s.Buffered() && (forall i :: 0 <= i < |s.next| ==> s.next[i] < 256)
    requires (s.mode == LEN && lens == s.cd.lit) || (s.mode == DIST && lens == s.cd.dist)
    requires s.Now() == c && Leads(s.Input(), START, c) && CodeOk(lens) && DecodeStep(lens, s.Input()[s.pos..]) == More
    requires |s.cd.lit| <= 288 && TableFor(s.lencode, s.lenbits, LENS, s.cd.lit)
    requires |s.cd.dist| <= 32 && TableFor(s.distcode, s.distbits, DISTS, s.cd.dist)
    ensures Ready(s) && Move(s.Input(), s.Now()) == Stuck
  {
    hide *;
    s.Stands();
    Stance(s);
    DataTables(s);
    DataWait(s.Input(), c, lens, s.bits);
    Settled(s);
  }

  lemma MostSymbols()
    ensures MaxSymbols(LENS) == 288 && MaxSymbols(DISTS) == 32
  {
  }

  /** Go on from a decoded literal/length symbol. */
  method LenFound(s: State, ghost c: Config, op: nat, val: nat, len: nat)
    requires s.Shape() && s.Buffered() && (forall i :: 0 <= i < |s.next| ==> s.next[i] < 256) && s.mode == LEN
    requires s.Now() == c && c.p == LenSym(s.last, s.cd) && Leads(s.Input(), START, c) && CodeOk(s.cd.lit)
    requires |s.cd.lit| <= 288 && TableFor(s.lencode, s.lenbits, LENS, s.cd.lit)
    requires |s.cd.dist| <= 32 && TableFor(s.distcode, s.distbits, DISTS, s.cd.dist)
    requires len <= s.bits && DecodeStep(s.cd.lit, s.Input()[s.pos..]) != More
    requires Agrees(Found(op, val, len), LENS, s.cd.lit, s.Input()[s.pos..])
    requires s.bits < 8 || Move(s.Input()[..8 * |s.fed| - 8], c) == Stuck
          || DecodeStep(s.cd.lit, s.Input()[s.pos..8 * |s.fed| - 8]) == More
    modifies s`mode, s`length, s`extra, s`hold, s`bits, s`pos
    ensures Ready(s) && len >= 1 && s.bits == old(s.bits) - len && s.mode in {LIT, TYPE, BAD, LENEXT}
  {
    hide *;
    Stance(s);
    ghost var input := s.Input();
    LenSymMove(input, c, s.last, s.cd, op, val, len);
    DataTight(input, c, s.cd.lit, LENS, op, val, len, s.bits);
    DataTables(s);
    s.DropBits(len);
    EnterLen(s, op, val);
    Stance(s);
    Arrive(input, s.Input(), c, s.Now());
    Settled(s);
  }

  /** Enter the mode that a literal/length entry asks for. */
  method EnterLen(s: State, op: nat, val: nat)
    requires s.mode == LEN && s.Tables()
    modifies s`mode, s`length, s`extra
    ensures s.Here() == LenPoint(s.last, s.cd, op, val) && s.Tables() && s.mode in {LIT, TYPE, BAD, LENEXT}
  {
    hide TableFor, HasBit;
    s.length := val;
    if op == 0 {
      s.mode := LIT;
    } else if HasBit(op, 32) {
      s.mode := TYPE;
    } else if HasBit(op, 64) {
      s.mode := BAD;
    } else {
      s.extra := op % 16;
      s.mode := LENEXT;
    }
  }

  /** Extra bits were needed to the last byte. */
  lemma ExtTight(input: seq<bool>, c: Config, bits: nat)
    requires (c.p.LenExt? || c.p.DistExt?) && c.pos + bits == |input| && bits >= 8
    ensures Move(input[..|input| - 8], c) == Stuck <==> bits - 8 < c.p.extra
  {
    hide Move;
    ExtMove(input[..|input| - 8], c);
  }

  /** LENEXT and DISTEXT: add the extra bits to the length or the distance. */
  method DoExt(s: State) returns (ok: bool)
    requires Ready(s) && s.mode in {LENEXT, DISTEXT}
    modifies s
    ensures Ready(s) && s.put == old(s.put) && s.past == old(s.past) && s.left == old(s.left)
    ensures Taken(old(s.next), old(s.fed), s.next, s.fed)
    ensures !ok ==> s.next == [] && Move(s.Input(), s.Now()) == Stuck && s.mode == old(s.mode)
    ensures ok ==> Less(Work(old(s.next), old(s.bits), s.left), old(s.mode), Work(s.next, s.bits, s.left), s.mode)
    ensures ok ==> s.mode == if old(s.mode) == LENEXT then DIST else MATCH
  {
    hide *;
    DataPoint(s);
    Unpacked(s);
    s.Stands();
    Stance(s);
    ghost var in0, c := s.Input(), s.Now();
    ghost var next0, bits0, mode0 := s.next, s.bits, s.mode;
    if s.bits >= 8 { ExtTight(in0, c, s.bits); }
    ok := s.NeedBits(s.extra);
    StillLeads(in0, s.Input(), c);
    if !ok {
      ExtWaits(s, c);
      return;
    }
    ExtraFound(s, c);
    ExtLater(mode0);
    LessWork(next0, bits0, s.left, mode0, s.next, s.bits, s.left, s.mode);
  }

  lemma ExtWaits(s: State, c: Config)
    requires s.Shape() && s.Buffered() && (forall i :: 0 <= i < |s.next| ==> s.next[i] < 256) && s.mode in {LENEXT, DISTEXT}
    requires s.Now() == c && Leads(s.Input(), START, c) && s.bits < s.extra
    requires |s.cd.lit| <= 288 && TableFor(s.lencode, s.lenbits, LENS, s.cd.lit)
    requires |s.cd.dist| <= 32 && TableFor(s.distcode, s.distbits, DISTS, s.cd.dist)
    ensures Ready(s) && Move(s.Input(), s.Now()) == Stuck
  {
    hide *;
    s.Stands();
    Stance(s);
    ExtMove(s.Input(), c);
    DataTables(s);
    if s.bits >= 8 { ExtTight(s.Input(), c, s.bits); }
    Settled(s);
  }

  lemma ExtLater(m: Mode)
    requires m in {LENEXT, DISTEXT}
    ensures ModeRank(DIST) < ModeRank(m) && ModeRank(MATCH) < ModeRank(m)
  {
  }

  /** Take the extra bits and go on from there. */
  method ExtraFound(s: State, ghost c: Config)
    requires s.Shape() && s.Buffered() && (forall i :: 0 <= i < |s.next| ==> s.next[i] < 256) && s.mode in {LENEXT, DISTEXT}
    requires s.Now() == c && Leads(s.Input(), START, c) && s.extra <= s.bits < s.extra + 8
    requires |s.cd.lit| <= 288 && TableFor(s.lencode, s.lenbits, LENS, s.cd.lit)
    requires |s.cd.dist| <= 32 && TableFor(s.distcode, s.distbits, DISTS, s.cd.dist)
    modifies s`mode, s`length, s`offset, s`hold, s`bits, s`pos
    ensures Ready(s) && s.bits <= old(s.bits) && s.mode == if old(s.mode) == LENEXT then DIST else MATCH
  {
    hide *;
    s.Stands();
    Stance(s);
    ghost var input := s.Input();
    ExtMove(input, c);
    AddExtra(s);
    s.Stands();
    Stance(s);
    DataTables(s);
    Arrive(input, s.Input(), c, s.Now());
    Settled(s);
  }

  /** Add the extra bits to the length or the distance. */
  method AddExtra(s: State)
    requires s.Buffered() && s.mode in {LENEXT, DISTEXT} && s.extra <= s.bits
    modifies s`mode, s`length, s`offset, s`hold, s`bits, s`pos
    ensures s.Buffered() && s.bits == old(s.bits) - s.extra && s.pos == old(s.pos) + s.extra
    ensures var v := old(Lsb(s.Input()[s.pos..][..s.extra]));
      if old(s.mode) == LENEXT then s.mode == DIST && s.length == old(s.length) + v
      else s.mode == MATCH && s.length == old(s.length) && s.offset == old(s.offset) + v
  {
    hide ByteBits, Lsb;
    var v := s.GetBits(s.extra);
    s.DropBits(s.extra);
    if s.mode == LENEXT {
      s.length := s.length + v;
      s.mode := DIST;
    } else {
      s.offset := s.offset + v;
      s.mode := MATCH;
    }
  }

  /** DIST: decode a distance symbol. */
  method DoDist(s: State) returns (ok: bool)
    requires Ready(s) && s.mode == DIST
    modifies s
    ensures Ready(s) && s.put == old(s.put) && s.past == old(s.past) && s.left == old(s.left)
    ensures Taken(old(s.next), old(s.fed), s.next, s.fed)
    ensures !ok ==> s.next == [] && Move(s.Input(), s.Now()) == Stuck && s.mode == old(s.mode)
    ensures ok ==> Less(Work(old(s.next), old(s.bits), s.left), old(s.mode), Work(s.next, s.bits, s.left), s.mode)
    ensures s.mode in {DIST, DISTEXT, BAD}
  {
    hide *;
    DataPoint(s);
    Unpacked(s);
    s.Stands();
    Stance(s);
    MostSymbols();
    ghost var in0, c := s.Input(), s.Now();
    ghost var next0, bits0, mode0 := s.next, s.bits, s.mode;
    var op, val, len;
    ok, op, val, len := s.LookupSym(s.distcode, s.distbits, DISTS, s.cd.dist);
    StillLeads(in0, s.Input(), c);
    if !ok {
      SymWaits(s, c, s.cd.dist);
      return;
    }
    DistFound(s, c, op, val, len);
    LessWork(next0, bits0, s.left, mode0, s.next, s.bits, s.left, s.mode);
  }

  /** Go on from a decoded distance symbol. */
  method DistFound(s: State, ghost c: Config, op: nat, val: nat, len: nat)
    requires s.Shape() && s.Buffered() && (forall i :: 0 <= i < |s.next| ==> s.next[i] < 256) && s.mode == DIST
    requires s.Now() == c && c.p == DistSym(s.last, s.cd, s.length) && Leads(s.Input(), START, c) && CodeOk(s.cd.dist)
    requires |s.cd.lit| <= 288 && TableFor(s.lencode, s.lenbits, LENS, s.cd.lit)
    requires |s.cd.dist| <= 32 && TableFor(s.distcode, s.distbits, DISTS, s.cd.dist)
    requires len <= s.bits && DecodeStep(s.cd.dist, s.Input()[s.pos..]) != More
    requires Agrees(Found(op, val, len), DISTS, s.cd.dist, s.Input()[s.pos..])
    requires s.bits < 8 || Move(s.Input()[..8 * |s.fed| - 8], c) == Stuck
          || DecodeStep(s.cd.dist, s.Input()[s.pos..8 * |s.fed| - 8]) == More
    modifies s`mode, s`offset, s`extra, s`hold, s`bits, s`pos
    ensures Ready(s) && len >= 1 && s.bits == old(s.bits) - len && s.mode in {DISTEXT, BAD}
  {
    hide *;
    Stance(s);
    ghost var input := s.Input();
    DistSymMove(input, c, s.last, s.cd, s.length, op, val, len);
    DataTight(input, c, s.cd.dist, DISTS, op, val, len, s.bits);
    DataTables(s);
    s.DropBits(len);
    EnterDist(s, op, val);
    Stance(s);
    Arrive(input, s.Input(), c, s.Now());
    Settled(s);
  }

  method EnterDist(s: State, op: nat, val: nat)
    requires s.mode == DIST && s.Tables()
    modifies s`mode, s`offset, s`extra
    ensures s.Here() == DistPoint(s.last, s.cd, s.length, op, val) && s.Tables() && s.mode in {BAD, DISTEXT}
  {
    hide TableFor;
    if HasBit(op, 64) {
      s.mode := BAD;
      return;
    }
    s.offset := val;
    s.extra := op % 16;
    s.mode := DISTEXT;
  }

  lemma LitMove(input: seq<bool>, c: Config, last: bool, codes: Codes, b: nat)
    requires c.p == LitOut(last, codes, b) && c.pos <= |input|
    ensures Move(input, c) == Moved(Config(LenSym(last, codes), c.pos, c.out + [b]))
  {
  }

  /** An output point is never stuck, so a whole byte held is no spare one. */
  lemma OutTight(input: seq<bool>, c: Config, bits: nat)
    requires (c.p.LitOut? || c.p.MatchOut?) && c.pos + bits == |input| && (bits < 8 || Move(input[..|input| - 8], c) == Stuck)
    ensures bits < 8
  {
  }

  /** LIT: write a literal. */
  method DoLit(s: State) returns (ok: bool)
    requires Ready(s) && s.mode == LIT
    modifies s
    ensures Ready(s) && s.past == old(s.past) && old(s.put) <= s.put && |s.put| + s.left == |old(s.put)| + old(s.left)
    ensures s.next == old(s.next) && s.fed == old(s.fed)
    ensures !ok ==> s.left == 0 && s.mode == LIT
    ensures ok ==> s.mode == LEN && Work(s.next, s.bits, s.left) < Work(old(s.next), old(s.bits), old(s.left))
  {
    hide *;
    if s.left == 0 {
      return false;
    }
    DataPoint(s);
    Unpacked(s);
    s.Stands();
    Stance(s);
    ghost var c := s.Now();
    ghost var next0, bits0, left0 := s.next, s.bits, s.left;
    StillThere(s.Input(), s.Input(), c);
    OutTight(s.Input(), c, s.bits);
    LitMove(s.Input(), c, s.last, s.cd, s.length);
    WriteLiteral(s);
    s.Stands();
    Stance(s);
    DataTables(s);
    Arrive(s.Input(), s.Input(), c, s.Now());
    Settled(s);
    WorkDown(next0, bits0, left0, s.left);
    ok := true;
  }

  method WriteLiteral(s: State)
    requires s.left > 0 && s.length < 256
    modifies s`put, s`left, s`mode
    ensures s.put == old(s.put) + [s.length] && s.left == old(s.left) - 1 && s.mode == LEN
    ensures s.Out() == old(s.Out()) + [s.length]
  {
    assert s.past + (s.put + [s.length]) == s.Out() + [s.length];
    s.put := s.put + [s.length % 256];
    s.left := s.left - 1;
    s.mode := LEN;
  }

  lemma WorkDown(next: seq<nat>, bits: nat, left0: nat, left: nat)
    requires left < left0
    ensures Work(next, bits, left) < Work(next, bits, left0)
  {
  }

  // ---- copying matches ----

  /** Each byte of chunk repeats the byte dist before it. */
  ghost predicate Repeats(out: seq<nat>, chunk: seq<nat>, dist: nat) {
    1 <= dist <= |out| && forall i :: 0 <= i < |chunk| ==> chunk[i] == (out + chunk)[|out| + i - dist]
  }

  /** Where a copy stands after k of its len bytes. */
  function CopyPoint(last: bool, codes: Codes, len: nat, dist: nat, k: nat): Point
    requires k <= len
  {
    if k == len then LenSym(last, codes) else MatchOut(last, codes, len - k, dist)
  }

  lemma MatchMove(input: seq<bool>, c: Config, last: bool, codes: Codes, len: nat, dist: nat)
    requires c.p == MatchOut(last, codes, len, dist) && c.pos <= |input| && len >= 1 && dist >= 1
    ensures dist > |c.out| ==> Move(input, c) == Moved(Config(Failed, c.pos, c.out))
    ensures dist <= |c.out| ==>
      Move(input, c) == Moved(Config(CopyPoint(last, codes, len, dist, 1), c.pos, c.out + [c.out[|c.out| - dist]]))
  {
    assert c.out + [] == c.out;
  }

  /** Any part of a copy is so many steps. */
  lemma {:induction false} CopyRun(input: seq<bool>, last: bool, codes: Codes, len: nat, dist: nat, pos: nat, out: seq<nat>, chunk: seq<nat>)
    requires 1 <= |chunk| <= len && Repeats(out, chunk, dist) && pos <= |input|
    requires Leads(input, START, Config(MatchOut(last, codes, len, dist), pos, out))
    ensures Leads(input, START, Config(CopyPoint(last, codes, len, dist, |chunk|), pos, out + chunk))
  {
    hide Move, Leads;
    var k := |chunk| - 1;
    var c := Config(MatchOut(last, codes, len - k, dist), pos, out + chunk[..k]);
    assert chunk == chunk[..k] + [chunk[k]];
    assert out + chunk == (out + chunk[..k]) + [chunk[k]];
    if k == 0 {
      assert out + chunk[..0] == out;
    } else {
      RepeatsPart(out, chunk, dist, k);
      CopyRun(input, last, codes, len, dist, pos, out, chunk[..k]);
    }
    assert c.out[|c.out| - dist] == chunk[k] by { assert (out + chunk)[|out| + k - dist] == c.out[|c.out| - dist]; }
    MatchMove(input, c, last, codes, len - k, dist);
    LeadsMove(input, START, c, Config(CopyPoint(last, codes, len, dist, |chunk|), pos, out + chunk));
  }

  lemma RepeatsPart(out: seq<nat>, chunk: seq<nat>, dist: nat, k: nat)
    requires Repeats(out, chunk, dist) && k <= |chunk|
    ensures Repeats(out, chunk[..k], dist)
  {
    forall i | 0 <= i < k
      ensures chunk[..k][i] == (out + chunk[..k])[|out| + i - dist]
    {
      assert (out + chunk)[|out| + i - dist] == (out + chunk[..k])[|out| + i - dist];
    }
  }

  /** The window and the history agree on how far back a distance may reach. */
  ghost predicate WindowOk(s: State)
    reads s`past, s.window, s.window.data
  {
    s.window.Holds(s.past) && (s.window.wsize == 0 ==> s.past == [])
  }

  lemma WindowReach(s: State)
    requires WindowOk(s)
    ensures s.window.whave == if |s.past| < WSIZE then |s.past| else WSIZE
    ensures s.window.wsize == WSIZE || s.window.whave == 0
  {
  }

  /** Bytes of the window as bytes of the history. */
  lemma WindowBytes(s: State, op: nat, from: nat, copy: nat)
    requires WindowOk(s) && 1 <= copy <= op <= s.window.whave && op <= |s.past|
    requires if s.window.wnext < op then copy <= op - s.window.wnext && from == WSIZE + s.window.wnext - op
             else from == s.window.wnext - op
    ensures from + copy <= s.window.data.Length
    ensures s.window.data[from..from + copy] == s.past[|s.past| - op..|s.past| - op + copy]
  {
    s.window.ByteAt(s.past, op);
    var a, b := s.window.data[from..from + copy], s.past[|s.past| - op..|s.past| - op + copy];
    forall i | 0 <= i < copy
      ensures a[i] == b[i]
    {
      s.window.ByteAt(s.past, op - i);
    }
  }

  /** Copy match bytes from the window. */
  method FromWindow(s: State, from: nat, copy: nat, ghost op: nat, ghost dist: nat)
    requires WindowOk(s) && 1 <= copy <= op <= s.window.whave && op <= |s.past| && dist == op + |s.put|
    requires if s.window.wnext < op then copy <= op - s.window.wnext && from == WSIZE + s.window.wnext - op
             else from == s.window.wnext - op
    modifies s`put
    ensures exists chunk: seq<nat> :: |chunk| == copy && s.put == old(s.put) + chunk && Repeats(old(s.Out()), chunk, dist)
  {
    hide WindowOk, Repeats;
    ghost var put0, past := s.put, s.past;
    WindowBytes(s, op, from, copy);
    ghost var wanted := s.past[|s.past| - op..|s.past| - op + copy];
    var f := from;
    var n := copy;
    ghost var chunk: seq<nat> := [];
    while n > 0
      invariant n <= copy && f == from + copy - n && |chunk| == copy - n && s.put == put0 + chunk
      invariant chunk == wanted[..|chunk|]
    {
      ghost var b := s.window.data[f];
      assert b == s.window.data[from..from + copy][|chunk|];
      s.put := s.put + [s.window.data[f]];
      chunk := chunk + [b];
      f := f + 1;
      n := n - 1;
    }
    PastRepeats(s.past, put0, chunk, op, dist);
  }

  lemma PastRepeats(past: seq<nat>, put: seq<nat>, chunk: seq<nat>, op: nat, dist: nat)
    requires |chunk| <= op <= |past| && 1 <= op && dist == op + |put| && chunk == past[|past| - op..|past| - op + |chunk|]
    ensures Repeats(past + put, chunk, dist)
  {
    forall i | 0 <= i < |chunk|
      ensures chunk[i] == (past + put + chunk)[|past + put| + i - dist]
    {
      assert (past + put)[|past| - op + i] == past[|past| - op + i];
    }
  }

  /** Copy match bytes from the output of this call. */
  method FromOutput(s: State, copy: nat, dist: nat)
    requires 1 <= copy && 1 <= dist <= |s.put|
    modifies s`put
    ensures exists chunk: seq<nat> :: |chunk| == copy && s.put == old(s.put) + chunk && Repeats(old(s.Out()), chunk, dist)
  {
    ghost var put0, out0 := s.put, s.Out();
    var f := |s.put| - dist;
    var n := copy;
    ghost var chunk: seq<nat> := [];
    while n > 0
      invariant n <= copy && f == |s.put| - dist && |chunk| == copy - n && s.put == put0 + chunk
      invariant Repeats(out0, chunk, dist)
    {
      ghost var b := s.put[f];
      RepeatsNext(s.past, put0, chunk, dist);
      s.put := s.put + [s.put[f]];
      chunk := chunk + [b];
      f := f + 1;
      n := n - 1;
    }
  }

  lemma RepeatsNext(past: seq<nat>, put: seq<nat>, chunk: seq<nat>, dist: nat)
    requires Repeats(past + put, chunk, dist) && dist <= |put + chunk|
    ensures Repeats(past + put, chunk + [(put + chunk)[|put + chunk| - dist]], dist)
  {
    var out := past + put;
    var b := (put + chunk)[|put + chunk| - dist];
    var now := chunk + [b];
    assert past + (put + chunk) == out + chunk;
    forall i | 0 <= i < |now|
      ensures now[i] == (out + now)[|out| + i - dist]
    {
      assert (out + now)[|out| + i - dist] == (out + chunk)[|out| + i - dist];
    }
  }

  /** MATCH: copy from the window or from what this call has written. */
  method DoMatch(s: State) returns (ok: bool)
    requires Ready(s) && s.mode == MATCH && WindowOk(s)
    modifies s
    ensures Ready(s) && s.past == old(s.past) && old(s.put) <= s.put && |s.put| + s.left == |old(s.put)| + old(s.left)
    ensures s.next == old(s.next) && s.fed == old(s.fed)
    ensures !ok ==> s.left == 0 && s.mode == MATCH
    ensures ok ==> s.mode in {LEN, MATCH, BAD} && Less(Work(old(s.next), old(s.bits), old(s.left)), old(s.mode), Work(s.next, s.bits, s.left), s.mode)
  {
    hide *;
    if s.left == 0 {
      return false;
    }
    DataPoint(s);
    Unpacked(s);
    WindowReach(s);
    s.Stands();
    Stance(s);
    ghost var c := s.Now();
    ghost var next0, bits0, left0 := s.next, s.bits, s.left;
    StillThere(s.Input(), s.Input(), c);
    OutTight(s.Input(), c, s.bits);
    if s.offset > |s.put| && s.offset - |s.put| > s.window.whave {
      TooFarBack(s, c);
      LessWork(next0, bits0, left0, MATCH, s.next, s.bits, s.left, s.mode);
      return true;
    }
    var copy := CopyBytes(s);
    Copied(s, copy, s.Input(), c);
    LessWork(next0, bits0, left0, MATCH, s.next, s.bits, s.left, s.mode);
    ok := true;
  }

  /** A distance beyond the history is an error. */
  method TooFarBack(s: State, ghost c: Config)
    requires s.Shape() && s.Buffered() && (forall i :: 0 <= i < |s.next| ==> s.next[i] < 256) && s.mode == MATCH
    requires s.Now() == c && Leads(s.Input(), START, c) && WindowOk(s) && s.length >= 1 && 1 <= s.offset <= 32768
    requires s.offset - |s.put| > s.window.whave
    modifies s`mode
    ensures Ready(s) && s.mode == BAD && ModeRank(s.mode) < ModeRank(MATCH)
  {
    hide *;
    s.Stands();
    Stance(s);
    WindowReach(s);
    WindowSize();
    StillThere(s.Input(), s.Input(), c);
    MatchMove(s.Input(), c, s.last, s.cd, s.length, s.offset);
    s.mode := BAD;
    s.Stands();
    Stance(s);
    NoTables(s);
    Arrive(s.Input(), s.Input(), c, s.Now());
    Settled(s);
    BadLater();
  }

  lemma WindowSize()
    ensures WSIZE == 32768
  {
  }

  lemma BadLater()
    ensures ModeRank(BAD) < ModeRank(MATCH)
  {
  }

  /** Copy as much of the match as one source and the room allow. */
  method CopyBytes(s: State) returns (copy: nat)
    requires WindowOk(s) && s.left > 0 && s.length >= 1 && s.offset >= 1 && s.offset <= |s.put| + s.window.whave
    modifies s`put
    ensures 1 <= copy <= s.length && copy <= s.left && |s.put| == |old(s.put)| + copy && old(s.put) <= s.put
    ensures exists chunk: seq<nat> :: |chunk| == copy && s.Out() == old(s.Out()) + chunk && Repeats(old(s.Out()), chunk, s.offset)
  {
    hide WindowOk, Repeats;
    WindowReach(s);
    copy := |s.put|;
    if s.offset > copy {
      copy := s.offset - copy;
      ghost var op := copy;
      var from;
      if copy > s.window.wnext {
        copy := copy - s.window.wnext;
        from := s.window.wsize - copy;
      } else {
        from := s.window.wnext - copy;
      }
      if copy > s.length { copy := s.length; }
      if copy > s.left { copy := s.left; }
      FromWindow(s, from, copy, op, s.offset);
    } else {
      copy := s.length;
      if copy > s.left { copy := s.left; }
      FromOutput(s, copy, s.offset);
    }
    Appended(s, old(s.past), old(s.put), copy, s.offset);
  }

  lemma Appended(s: State, past: seq<nat>, put: seq<nat>, copy: nat, dist: nat)
    requires s.past == past && exists chunk: seq<nat> :: |chunk| == copy && s.put == put + chunk && Repeats(past + put, chunk, dist)
    ensures |s.put| == |put| + copy && put <= s.put
    ensures exists chunk: seq<nat> :: |chunk| == copy && s.Out() == past + put + chunk && Repeats(past + put, chunk, dist)
  {
    hide Repeats;
    var chunk: seq<nat> :| |chunk| == copy && s.put == put + chunk && Repeats(past + put, chunk, dist);
    assert s.Out() == past + put + chunk;
  }

  /** Account for the bytes copied. */
  method Copied(s: State, copy: nat, ghost input: seq<bool>, ghost c: Config)
    requires s.Shape() && s.Buffered() && s.mode == MATCH && s.bits < 8 && input == s.Input() && c.pos == s.pos <= |input|
    requires forall i :: 0 <= i < |s.next| ==> s.next[i] < 256
    requires 1 <= copy <= s.length && copy <= s.left && Leads(input, START, c) && c.p == MatchOut(s.last, s.cd, s.length, s.offset)
    requires exists chunk: seq<nat> :: |chunk| == copy && s.Out() == c.out + chunk && Repeats(c.out, chunk, s.offset)
    requires |s.cd.lit| <= 288 && TableFor(s.lencode, s.lenbits, LENS, s.cd.lit)
    requires |s.cd.dist| <= 32 && TableFor(s.distcode, s.distbits, DISTS, s.cd.dist)
    modifies s`left, s`length, s`mode
    ensures Ready(s) && s.left == old(s.left) - copy && s.mode in {LEN, MATCH}
  {
    hide *;
    ghost var chunk: seq<nat> :| |chunk| == copy && s.Out() == c.out + chunk && Repeats(c.out, chunk, s.offset);
    CopyRun(input, s.last, s.cd, s.length, s.offset, s.pos, c.out, chunk);
    CopyPointIs(s.last, s.cd, s.length, s.offset, copy);
    s.left := s.left - copy;
    s.length := s.length - copy;
    if s.length == 0 { s.mode := LEN; }
    s.Stands();
    Stance(s);
    DataTables(s);
    Settled(s);
  }

  lemma CopyPointIs(last: bool, codes: Codes, len: nat, dist: nat, k: nat)
    requires k <= len
    ensures CopyPoint(last, codes, len, dist, k) == if k == len then LenSym(last, codes) else MatchOut(last, codes, len - k, dist)
  {
  }
}
