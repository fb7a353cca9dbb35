/** The modes of inflate that read block headers and stored blocks. */
module InflateHeaders {
  import opened Bits
  import opened Canonical
  import opened DecodingTables
  import opened SymbolDecoding
  import opened CodeLengths
  import opened BitOutput
  import opened InflateSpec
  import opened InflateStates
  import opened SortedSymbols
  import StaticTrees

  /** What every mode starts from and leaves behind. */
  ghost predicate Ready(s: State)
    reads s, s.lens
  {
    s.Valid() && s.Tight() && forall i :: 0 <= i < |s.next| ==> s.next[i] < 256
  }

  /** The modes that may follow without using input or room come later. */
  function ModeRank(m: Mode): nat {
    match m
    case LENLENS => 9
    case CODELENS => 8
    case LENSTART => 7
    case LEN => 6
    case LENEXT => 5
    case DISTEXT => 5
    case DIST => 4
    case MATCH => 4
    case LIT => 4
    case COPYSTART => 4
    case COPY => 3
    case TYPE => 2
    case TYPEDO => 2
    case CHECK => 1
    case _ => 0
  }

  /** Input bits and output room still to be used. */
  function Work(next: seq<nat>, bits: nat, left: nat): nat {
    8 * |next| + bits + left
  }

  /** Progress: less work left, or the same work in a later mode. */
  ghost predicate Less(work: nat, mode: Mode, work': nat, mode': Mode) {
    work' < work || (work' == work && ModeRank(mode') < ModeRank(mode))
  }

  lemma Unpacked(s: State)
    requires Ready(s)
    ensures s.Shape() && Leads(s.Input(), START, s.Now()) && s.Tables() && (s.mode != BAD ==> s.Buffered())
    ensures s.mode in {COPYSTART, COPY, CHECK, DONE} ==> s.bits == 0
    ensures s.mode != BAD && s.bits >= 8 ==> Move(s.Input()[..8 * |s.fed| - 8], s.Now()) == Stuck
    ensures forall i :: 0 <= i < |s.next| ==> s.next[i] < 256
  {
  }

  lemma Settled(s: State)
    requires s.Shape() && Leads(s.Input(), START, s.Now()) && s.Tables() && (s.mode != BAD ==> s.Buffered())
    requires s.mode in {COPYSTART, COPY, CHECK, DONE} ==> s.bits == 0
    requires s.mode == BAD || s.bits < 8 || Move(s.Input()[..8 * |s.fed| - 8], s.Now()) == Stuck
    requires forall i :: 0 <= i < |s.next| ==> s.next[i] < 256
    ensures Ready(s)
  {
  }

  /** The configuration in terms of the fields. */
  lemma Stance(s: State)
    ensures s.Now() == Config(s.Here(), s.pos, s.Out()) && s.Out() == s.past + s.put && |s.Input()| == 8 * |s.fed|
    ensures s.Buffered() ==> s.pos + s.bits == |s.Input()|
  {
    hide State.Here, ByteBits;
  }

  lemma LessWork(next0: seq<nat>, bits0: nat, left0: nat, mode0: Mode, next: seq<nat>, bits: nat, left: nat, mode: Mode)
    requires var a, b := 8 * |next0| + bits0 + left0, 8 * |next| + bits + left;
      b < a || (a == b && ModeRank(mode) < ModeRank(mode0))
    ensures Less(Work(next0, bits0, left0), mode0, Work(next, bits, left), mode)
  {
    hide ModeRank;
  }

  lemma NoTables(s: State)
    requires s.mode in {TYPE, TYPEDO, STORED, COPYSTART, COPY, TABLE, LENLENS, CHECK, DONE, BAD}
    ensures s.Tables()
  {
  }

  /** Where a stream has led it still leads when more input is there, and on from there. */
  lemma Arrive(input0: seq<bool>, input: seq<bool>, c: Config, d: Config)
    requires Leads(input0, START, c) && input0 <= input && Move(input, c) == Moved(d)
    ensures Leads(input, START, d)
  {
    hide Move, Leads;
    StillThere(input0, input, c);
    LeadsMove(input, START, c, d);
  }

  lemma StillThere(input0: seq<bool>, input: seq<bool>, c: Config)
    requires Leads(input0, START, c) && input0 <= input
    ensures Leads(input, START, c) && PointOk(c.p) && c.pos <= |input0|
  {
    hide Leads;
    assert START == Config(Block(false), 0, []);
    assert input0 + input[|input0|..] == input;
    LeadsMore(input0, input[|input0|..], START, c);
    LeadsLocal(input0, input0, START, c);
  }

  // ---- how many bits each point needs ----

  lemma BlockMove(input: seq<bool>, c: Config, last: bool)
    requires c.p == Block(last) && c.pos <= |input| && |input| % 8 == 0
    ensures last ==> Move(input, c) == Moved(Config(Done, c.pos + Pad(c.pos), c.out)) && Pad(c.pos) == (|input| - c.pos) % 8
    ensures !last ==> Move(input, c) == if |input| - c.pos < 3 then Stuck
      else
        var w := input[c.pos..]; var kind := Lsb(w[1..3]);
        Moved(Config(if kind == 0 then Stored(w[0]) else if kind == 1 then LenSym(w[0], FixedCodes())
                     else if kind == 2 then Table(w[0]) else Failed, c.pos + 3, c.out))
  {
    hide FixedCodes, Lsb;
    assert c.out + [] == c.out;
  }

  lemma StoredMove(input: seq<bool>, c: Config, last: bool)
    requires c.p == Stored(last) && c.pos <= |input| && |input| % 8 == 0
    ensures Pad(c.pos) == (|input| - c.pos) % 8 <= |input| - c.pos
    ensures Pad(c.pos) != 0 ==> Move(input, c) == Moved(Config(Stored(last), c.pos + Pad(c.pos), c.out))
    ensures Pad(c.pos) == 0 ==> Move(input, c) == if |input| - c.pos < 32 then Stuck
      else
        var w := input[c.pos..];
        Moved(Config(if Lsb(w[..16]) == 65535 - Lsb(w[16..32]) then Copy(last, Lsb(w[..16])) else Failed, c.pos + 32, c.out))
  {
    hide Lsb;
    assert c.out + [] == c.out;
  }

  lemma TableMove(input: seq<bool>, c: Config, last: bool)
    requires c.p == Table(last) && c.pos <= |input|
    ensures Move(input, c) == if |input| - c.pos < 14 then Stuck
      else
        var w := input[c.pos..];
        var nlen, ndist, ncode := Lsb(w[..5]) + 257, Lsb(w[5..10]) + 1, Lsb(w[10..14]) + 4;
        Moved(Config(if nlen > 286 || ndist > 30 then Failed else LenLens(last, nlen, ndist, ncode, []), c.pos + 14, c.out))
  {
    hide Lsb;
    assert c.out + [] == c.out;
  }

  /** TYPE and TYPEDO: the three bits that start a block, or the end after the last one. */
  method DoType(s: State) returns (ok: bool)
    requires Ready(s) && s.mode in {TYPE, TYPEDO}
    modifies s
    ensures Ready(s) && s.put == old(s.put) && s.past == old(s.past) && s.left == old(s.left)
    ensures Taken(old(s.next), old(s.fed), s.next, s.fed)
    ensures !ok ==> s.next == [] && Move(s.Input(), s.Now()) == Stuck && s.mode == old(s.mode)
    ensures ok ==> Less(Work(old(s.next), old(s.bits), s.left), old(s.mode), Work(s.next, s.bits, s.left), s.mode)
    ensures s.mode in {CHECK, STORED, LENSTART, TABLE, BAD, TYPE, TYPEDO}
  {
    hide *;
    Unpacked(s);
    s.Stands();
    Stance(s);
    ghost var in0, c := s.Input(), s.Now();
    ghost var next0, bits0, mode0 := s.next, s.bits, s.mode;
    TakenNone(s.next, s.fed);
    BlockTight(in0, c, s.last, s.bits);
    if s.last {
      EndStream(s);
      LessWork(next0, bits0, s.left, mode0, s.next, s.bits, s.left, s.mode);
      return true;
    }
    ok := s.NeedBits(3);
    Stance(s);
    StillThere(in0, s.Input(), c);
    BlockMove(s.Input(), c, false);
    NoTables(s);
    if !ok {
      Settled(s);
      return;
    }
    StartNext(s, c);
    Arrive(in0, s.Input(), c, s.Now());
    Settled(s);
    LessWork(next0, bits0, s.left, mode0, s.next, s.bits, s.left, s.mode);
  }

  /** After the last block: go to a byte boundary. */
  method EndStream(s: State)
    requires Ready(s) && s.mode in {TYPE, TYPEDO} && s.last
    modifies s`mode, s`hold, s`bits, s`pos
    ensures Ready(s) && s.mode == CHECK && s.bits <= old(s.bits) && ModeRank(s.mode) < ModeRank(old(s.mode))
  {
    hide *;
    Unpacked(s);
    s.Stands();
    Stance(s);
    ghost var in0, c := s.Input(), s.Now();
    BlockTight(in0, c, true, s.bits);
    BlockMove(in0, c, true);
    Later(s.mode);
    s.DropBits(s.bits % 8);
    s.mode := CHECK;
    s.Stands();
    Stance(s);
    NoTables(s);
    Arrive(in0, in0, c, s.Now());
    Settled(s);
  }

  lemma Later(m: Mode)
    requires m in {TYPE, TYPEDO}
    ensures ModeRank(CHECK) < ModeRank(m)
  {
  }

  /** Read the last-block bit and the kind of a block. */
  method StartNext(s: State, ghost c: Config)
    requires s.Buffered() && s.bits >= 3 && s.Shape() && c.pos == s.pos && c.out == s.Out()
    requires Move(s.Input(), c) == var w := s.Input()[c.pos..]; var kind := Lsb(w[1..3]);
        Moved(Config(if kind == 0 then Stored(w[0]) else if kind == 1 then LenSym(w[0], FixedCodes())
                     else if kind == 2 then Table(w[0]) else Failed, c.pos + 3, c.out))
    modifies s`last, s`mode, s`hold, s`bits, s`pos, s`lencode, s`lenbits, s`distcode, s`distbits, s`cd
    ensures s.Buffered() && s.bits == old(s.bits) - 3 && s.Tables() && s.mode in {STORED, LENSTART, TABLE, BAD}
    ensures Move(s.Input(), c) == Moved(s.Now())
  {
    hide *;
    Stance(s);
    ghost var input, w := s.Input(), s.Input()[s.pos..];
    var b := s.GetBits(1);
    OneBit(w);
    s.last := b == 1;
    s.DropBits(1);
    var kind := s.GetBits(2);
    SubBits(input, c.pos, 1, 3);
    TwoBits(w[1..3]);
    s.DropBits(2);
    StartBlock(s, kind);
    Stance(s);
  }

  /** Enter the mode of a block of this kind. */
  method StartBlock(s: State, kind: nat)
    requires kind < 4 && s.Shape()
    modifies s`mode, s`lencode, s`lenbits, s`distcode, s`distbits, s`cd
    ensures s.Here() == if kind == 0 then Stored(s.last) else if kind == 1 then LenSym(s.last, FixedCodes())
                        else if kind == 2 then Table(s.last) else Failed
    ensures s.Tables() && s.mode in {STORED, LENSTART, TABLE, BAD}
  {
    if kind == 0 {
      s.mode := STORED;
    } else if kind == 1 {
      FixedTables(s);
      s.mode := LENSTART;
    } else if kind == 2 {
      s.mode := TABLE;
    } else {
      s.mode := BAD;
    }
  }

  lemma SubBits(input: seq<bool>, pos: nat, i: nat, j: nat)
    requires pos + j <= |input| && i <= j
    ensures input[pos + i..][..j - i] == input[pos..][i..j]
  {
  }

  lemma OneBit(w: seq<bool>)
    requires |w| >= 1
    ensures Lsb(w[..1]) == 1 <==> w[0]
  {
    assert w[..1][1..] == [];
  }

  lemma TwoBits(w: seq<bool>)
    requires |w| == 2
    ensures Lsb(w) < 4
  {
    LsbBound(w);
    Pow2Values();
  }

  lemma BlockTight(input: seq<bool>, c: Config, last: bool, bits: nat)
    requires c.p == Block(last) && c.pos + bits == |input| && |input| % 8 == 0
    requires bits < 8 || Move(input[..|input| - 8], c) == Stuck
    ensures if last then bits < 8 else bits < 11
  {
    hide Move;
    if bits >= 8 { BlockMove(input[..|input| - 8], c, last); }
  }

  lemma {:induction false} NoSubTables(lens: seq<nat>, root: nat, k: nat)
    requires k < Symbols(lens) && forall j :: 0 <= j < Symbols(lens) ==> LenAt(lens, j) <= root
    ensures UsedUpTo(lens, root, k) == Pow2(root)
  {
    hide CurrFrom, SameHead;
    if k > 0 { NoSubTables(lens, root, k - 1); }
  }

  /** A code that fits its root table needs no more than the root table. */
  lemma RootOnly(t: CodeType, lens: seq<nat>, root: nat)
    requires Kraft(lens) == UNIT && MaxLen(lens) == root >= 1 && Pow2(root) <= 592
    ensures Outcome(t, lens, root) == 0 && RootBits(lens, root) == root
  {
    MaxLenUsed(lens);
    hide Kraft, Pow2, MaxLen, UsedUpTo, Symbols;
    forall j | 0 <= j < Symbols(lens)
      ensures LenAt(lens, j) <= root
    {
      LenAtMost(lens, j);
    }
    NoSubTables(lens, root, Symbols(lens) - 1);
    RootIs(lens, root);
  }

  lemma RootIs(lens: seq<nat>, root: nat)
    requires MaxLen(lens) == root >= 1
    ensures RootBits(lens, root) == root
  {
  }

  lemma {:induction false} TopIs(lens: seq<nat>, max: nat, l: nat)
    requires 1 <= max <= l && Count(lens, max) != 0 && forall i :: max < i <= l ==> Count(lens, i) == 0
    ensures TopLength(lens, l) == max
  {
    if max < l { TopIs(lens, max, l - 1); }
  }

  lemma FixedFit()
    ensures var f := FixedCodes();
      && Outcome(LENS, f.lit, 9) == 0 && RootBits(f.lit, 9) == 9 && MaxLen(f.lit) == 9
      && Outcome(DISTS, f.dist, 5) == 0 && RootBits(f.dist, 5) == 5 && MaxLen(f.dist) == 5
      && ValidLens(f.lit) && ValidLens(f.dist) && |f.lit| == 288 && |f.dist| == 32
  {
    hide Outcome, RootBits, Count, Kraft, Pow2;
    var f := FixedCodes();
    StaticTrees.FixedComplete();
    forall l: nat
      ensures Count(f.lit, l) == if l == 7 then 24 else if l == 8 then 152 else if l == 9 then 112 else 0
      ensures Count(f.dist, l) == if l == 5 then 32 else 0
    {
      StaticTrees.FixedCount(l);
      StaticTrees.CountRepeat(5, 32, l);
    }
    TopIs(f.lit, 9, MAXBITS);
    TopIs(f.dist, 5, MAXBITS);
    Pow2Values();
    RootOnly(LENS, f.lit, 9);
    RootOnly(DISTS, f.dist, 5);
  }

  /** Point the decoding tables to the fixed codes. */
  method FixedTables(s: State)
    modifies s`lencode, s`lenbits, s`distcode, s`distbits, s`cd
    ensures s.cd == FixedCodes() && s.lenbits == 9 && s.distbits == 5
    ensures |s.cd.lit| <= 288 && TableFor(s.lencode, s.lenbits, LENS, s.cd.lit)
    ensures |s.cd.dist| <= 32 && TableFor(s.distcode, s.distbits, DISTS, s.cd.dist)
  {
    hide Outcome, RootBits, TableFor, MaxLen;
    FixedFit();
    var fixed := new Entry[ENOUGH](i => INVALID);
    var f := FixedCodes();
    var ret, used, root := InflateTable(LENS, f.lit, fixed, 0, 9);
    s.lencode, s.lenbits := fixed[..used], root;
    assert fixed[0..0 + used] == fixed[..used];
    var at := used;
    ret, used, root := InflateTable(DISTS, f.dist, fixed, at, 5);
    s.distcode, s.distbits := fixed[at..at + used], root;
    s.cd := f;
  }

  // ---- stored blocks ----

  lemma StoredTight(input: seq<bool>, c: Config, last: bool, bits: nat)
    requires c.p == Stored(last) && c.pos + bits == |input| && |input| % 8 == 0
    requires bits < 8 || Move(input[..|input| - 8], c) == Stuck
    ensures bits - bits % 8 <= 32
  {
    hide Move;
    if bits >= 8 { StoredMove(input[..|input| - 8], c, last); }
  }

  lemma AlignLeads(input: seq<bool>, c: Config, d: Config, last: bool)
    requires Leads(input, START, c) && c.p == Stored(last) && c.pos <= |input| && |input| % 8 == 0
    requires d == Config(c.p, c.pos + (|input| - c.pos) % 8, c.out)
    ensures Leads(input, START, d)
  {
    hide Move, Leads;
    StoredMove(input, c, last);
    if Pad(c.pos) != 0 { LeadsMove(input, START, c, d); }
  }

  /** STORED: go to a byte boundary and check the length against its complement. */
  method DoStored(s: State) returns (ok: bool)
    requires Ready(s) && s.mode == STORED
    modifies s
    ensures Ready(s) && s.put == old(s.put) && s.past == old(s.past) && s.left == old(s.left)
    ensures Taken(old(s.next), old(s.fed), s.next, s.fed)
    ensures !ok ==> s.next == [] && Move(s.Input(), s.Now()) == Stuck && s.mode == old(s.mode)
    ensures ok ==> Less(Work(old(s.next), old(s.bits), s.left), old(s.mode), Work(s.next, s.bits, s.left), s.mode)
    ensures s.mode in {STORED, COPYSTART, BAD}
  {
    hide *;
    ghost var next0, bits0, mode0 := s.next, s.bits, s.mode;
    TakenNone(s.next, s.fed);
    AlignByte(s);
    ghost var in0, d := s.Input(), s.Now();
    ok := s.NeedBits(32);
    Stance(s);
    if !ok {
      StillThere(in0, s.Input(), d);
      StoredMove(s.Input(), d, s.last);
      NoTables(s);
      StoredWaits(s.Input(), d, s.last, s.bits);
      Settled(s);
      return;
    }
    LengthNext(s, in0, d);
    LessWork(next0, bits0, s.left, mode0, s.next, s.bits, s.left, s.mode);
  }

  /** Drop the bits up to the byte boundary. */
  method AlignByte(s: State)
    requires Ready(s) && s.mode == STORED
    modifies s`hold, s`bits, s`pos
    ensures s.Shape() && s.Buffered() && Leads(s.Input(), START, s.Now()) && s.Now().p == Stored(s.last)
    ensures Pad(s.pos) == 0 && s.Now().pos == s.pos && s.bits <= 32 && s.bits <= old(s.bits) && s.bits % 8 == 0
    ensures forall i :: 0 <= i < |s.next| ==> s.next[i] < 256
  {
    hide *;
    Unpacked(s);
    s.Stands();
    Stance(s);
    ghost var c := s.Now();
    StoredTight(s.Input(), c, s.last, s.bits);
    s.DropBits(s.bits % 8);
    Stance(s);
    StillThere(s.Input(), s.Input(), c);
    AlignLeads(s.Input(), c, s.Now(), s.last);
    Aligned(s.pos, s.bits, |s.fed|);
  }

  lemma Aligned(pos: nat, bits: nat, n: nat)
    requires pos + bits == 8 * n && bits % 8 == 0
    ensures Pad(pos) == 0
  {
  }

  lemma StoredWaits(input: seq<bool>, d: Config, last: bool, bits: nat)
    requires d.p == Stored(last) && d.pos + bits == |input| && |input| % 8 == 0 && Pad(d.pos) == 0 && bits < 32
    ensures bits >= 8 ==> Move(input[..|input| - 8], d) == Stuck
  {
    hide Move;
    if bits >= 8 { StoredMove(input[..|input| - 8], d, last); }
  }

  lemma WholeBytes(pos: nat, bits: nat, n: nat)
    requires pos + bits == 8 * n && Pad(pos) == 0 && 32 <= bits < 40
    ensures bits == 32 && 8 * n % 8 == 0
  {
  }

  /** Take the length words and go on from there. */
  method LengthNext(s: State, ghost in0: seq<bool>, ghost d: Config)
    requires s.Shape() && s.Buffered() && s.bits >= 32 && s.bits < 40 && Pad(s.pos) == 0 && s.Now() == d && d.p == Stored(s.last)
    requires Leads(in0, START, d) && in0 <= s.Input() && forall i :: 0 <= i < |s.next| ==> s.next[i] < 256
    modifies s`mode, s`length, s`hold, s`bits, s`pos
    ensures Ready(s) && s.bits == 0 && s.mode in {COPYSTART, BAD}
  {
    hide *;
    Stance(s);
    WholeBytes(s.pos, s.bits, |s.fed|);
    StoredMove(s.Input(), d, s.last);
    CheckLength(s);
    Stance(s);
    NoTables(s);
    Arrive(in0, s.Input(), d, s.Now());
    Settled(s);
  }

  /** The two length words of a stored block. */
  method CheckLength(s: State)
    requires s.Buffered() && s.bits == 32
    modifies s`mode, s`length, s`hold, s`bits, s`pos
    ensures s.Buffered() && s.bits == 0 && s.pos == old(s.pos) + 32 && s.mode in {COPYSTART, BAD}
    ensures var w := old(s.Input()[s.pos..]);
      s.Here() == if Lsb(w[..16]) == 65535 - Lsb(w[16..32]) then Copy(s.last, Lsb(w[..16])) else Failed
  {
    hide ByteBits, Lsb, Low, Shr;
    ghost var w := s.Input()[s.pos..];
    var len := s.GetBits(16);
    LsbSplit(w, 16);
    var check := Shr(s.hold, 16);
    SixteenBits(w);
    if len != 65535 - check {
      s.mode := BAD;
    } else {
      s.length := len;
      s.mode := COPYSTART;
    }
    s.DropBits(32);
  }

  lemma SixteenBits(w: seq<bool>)
    requires |w| == 32
    ensures w[16..] == w[16..32] && Lsb(w[16..]) <= 65535
  {
    LsbBound(w[16..]);
    Pow2Values();
  }

  lemma CopyMove(input: seq<bool>, c: Config, last: bool, left: nat)
    requires c.p == Copy(last, left) && c.pos <= |input|
    ensures left == 0 ==> Move(input, c) == Moved(Config(Block(last), c.pos, c.out))
    ensures left > 0 ==> Move(input, c) == if |input| - c.pos < 8 then Stuck
      else Moved(Config(Copy(last, left - 1), c.pos + 8, c.out + [Lsb(input[c.pos..][..8])]))
  {
    hide Lsb;
    assert c.out + [] == c.out;
  }

  /** Bytes copied from a stored block, one by one. */
  lemma {:induction false} CopyLeads(fed: seq<nat>, data: seq<nat>, last: bool, left: nat, pos: nat, out: seq<nat>, k: nat)
    requires pos == 8 * |fed| && k <= |data| && k <= left && forall i :: 0 <= i < |data| ==> data[i] < 256
    requires Leads(ByteBits(fed), START, Config(Copy(last, left), pos, out))
    ensures Leads(ByteBits(fed + data[..k]), START, Config(Copy(last, left - k), pos + 8 * k, out + data[..k]))
  {
    hide Leads, Move, Lsb, ToBits, ByteBits;
    if k == 0 {
      assert fed + data[..0] == fed && out + data[..0] == out;
    } else {
      CopyLeads(fed, data, last, left, pos, out, k - 1);
      var f := fed + data[..k - 1];
      assert fed + data[..k] == f + [data[k - 1]] && out + data[..k] == out + data[..k - 1] + [data[k - 1]];
      var c := Config(Copy(last, left - k + 1), pos + 8 * (k - 1), out + data[..k - 1]);
      ByteBitsMore(f, data[k - 1]);
      CopyMove(ByteBits(f + [data[k - 1]]), c, last, left - k + 1);
      ReadByte(ByteBits(f), data[k - 1], c.pos);
      Arrive(ByteBits(f), ByteBits(f + [data[k - 1]]), c, Config(Copy(last, left - k), pos + 8 * k, out + data[..k]));
    }
  }

  lemma ReadByte(a: seq<bool>, b: nat, pos: nat)
    requires pos == |a| && b < 256
    ensures Lsb((a + ToBits(b, 8))[pos..][..8]) == b
  {
    assert (a + ToBits(b, 8))[pos..] == ToBits(b, 8) && ToBits(b, 8)[..8] == ToBits(b, 8);
    LsbToBits(b, 8);
    Pow2Values();
    LowSmall(b, 8);
  }

  /** COPY: copy stored bytes straight from the input to the output. */
  method DoCopy(s: State) returns (ok: bool)
    requires Ready(s) && s.mode in {COPYSTART, COPY}
    modifies s
    ensures Ready(s) && s.past == old(s.past) && old(s.put) <= s.put && |s.put| + s.left == |old(s.put)| + old(s.left)
    ensures Taken(old(s.next), old(s.fed), s.next, s.fed)
    ensures !ok ==> (s.left == 0 || (s.next == [] && Move(s.Input(), s.Now()) == Stuck)) && s.mode == COPY
    ensures ok ==> Less(Work(old(s.next), old(s.bits), old(s.left)), old(s.mode), Work(s.next, s.bits, s.left), s.mode)
    ensures s.mode in {COPY, TYPE}
  {
    hide *;
    Unpacked(s);
    s.Stands();
    Stance(s);
    ghost var c := s.Now();
    ghost var next0, fed0, bits0, left0, mode0 := s.next, s.fed, s.bits, s.left, s.mode;
    TakenNone(s.next, s.fed);
    s.mode := COPY;
    s.Stands();
    Stance(s);
    NoTables(s);
    StillThere(s.Input(), s.Input(), c);
    CopyMove(s.Input(), c, s.last, s.length);
    var copy := s.length;
    if copy != 0 {
      if copy > |s.next| { copy := |s.next|; }
      if copy > s.left { copy := s.left; }
      if copy == 0 {
        Settled(s);
        return false;
      }
      CopySome(s, copy);
      LessWork(next0, bits0, left0, mode0, s.next, s.bits, s.left, s.mode);
      return true;
    }
    s.mode := TYPE;
    s.Stands();
    Stance(s);
    NoTables(s);
    Arrive(s.Input(), s.Input(), c, s.Now());
    Settled(s);
    TypeLater(mode0);
    LessWork(next0, bits0, left0, mode0, s.next, s.bits, s.left, s.mode);
    ok := true;
  }

  lemma TypeLater(m: Mode)
    requires m in {COPYSTART, COPY}
    ensures ModeRank(TYPE) < ModeRank(m)
  {
  }

  /** Move copy bytes from the input to the output. */
  method CopySome(s: State, copy: nat)
    requires s.Shape() && s.mode == COPY && s.bits == 0 && s.Buffered() && Leads(s.Input(), START, s.Now())
    requires forall i :: 0 <= i < |s.next| ==> s.next[i] < 256
    requires 0 < copy <= s.length && copy <= |s.next| && copy <= s.left
    modifies s`put, s`fed, s`pos, s`next, s`left, s`length
    ensures Ready(s) && |s.next| == |old(s.next)| - copy && s.left == old(s.left) - copy && s.put == old(s.put + s.next[..copy])
    ensures Taken(old(s.next), old(s.fed), s.next, s.fed)
  {
    hide *;
    s.Stands();
    Stance(s);
    HoldsNothing(s);
    InputIs(s, s.fed);
    CopyLeads(s.fed, s.next, s.last, s.length, s.pos, s.Out(), copy);
    BytesTaken(s.next, s.fed, copy);
    OutMore(s.past, s.put, s.next[..copy]);
    MoveBytes(s, copy);
    s.Stands();
    Stance(s);
    InputIs(s, s.fed);
    NothingLeft(s);
    NoTables(s);
    Settled(s);
  }

  method MoveBytes(s: State, copy: nat)
    requires copy <= s.length && copy <= |s.next| && copy <= s.left
    modifies s`put, s`fed, s`pos, s`next, s`left, s`length
    ensures s.put == old(s.put + s.next[..copy]) && s.next == old(s.next[copy..]) && s.fed == old(s.fed + s.next[..copy])
    ensures s.pos == old(s.pos) + 8 * copy && s.left == old(s.left) - copy && s.length == old(s.length) - copy
  {
    s.put := s.put + s.next[..copy];
    s.fed := s.fed + s.next[..copy];
    s.pos := s.pos + 8 * copy;
    s.next := s.next[copy..];
    s.left := s.left - copy;
    s.length := s.length - copy;
  }

  lemma BytesTaken(next: seq<nat>, fed: seq<nat>, n: nat)
    requires n <= |next|
    ensures Taken(next, fed, next[n..], fed + next[..n])
  {
    assert fed + next == (fed + next[..n]) + next[n..];
  }

  lemma OutMore(past: seq<nat>, put: seq<nat>, more: seq<nat>)
    ensures past + put + more == past + (put + more)
  {
  }

  lemma InputIs(s: State, fed: seq<nat>)
    ensures s.fed == fed ==> s.Input() == ByteBits(fed)
  {
  }

  lemma HoldsNothing(s: State)
    requires s.Buffered() && s.bits == 0
    ensures s.hold == 0
  {
    hide ByteBits, Lsb;
    NothingHeld(s.Input());
  }

  /** Nothing is held when all input is consumed. */
  lemma NothingLeft(s: State)
    requires s.hold == 0 && s.bits == 0 && s.pos == 8 * |s.fed|
    ensures s.Buffered()
  {
    hide ByteBits, Lsb;
    NothingHeld(s.Input());
  }

  lemma NothingHeld(input: seq<bool>)
    ensures Lsb(input[|input|..]) == 0
  {
    assert input[|input|..] == [];
  }
}
