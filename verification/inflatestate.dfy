/** The state of the resumable inflater and its bit buffer.  The invariant ties
    every state that can be left behind between calls to a configuration that the
    bytes taken so far lead to. */
module InflateStates {
  import opened Bits
  import opened Canonical
  import opened DecodingTables
  import opened SymbolDecoding
  import opened CodeLengths
  import opened BitOutput
  import opened InflateSpec
  import opened SlidingWindow

  datatype Mode = TYPE | TYPEDO | STORED | COPYSTART | COPY | TABLE | LENLENS | CODELENS | LENSTART | LEN | LENEXT | DIST | DISTEXT
                | MATCH | LIT | CHECK | DONE | BAD

  const ENOUGH := 1444
  const MAXLENS := 320

  class State {
    /** The caller's stream for the current call: unread input, output written, room left. */
    var next: seq<nat>
    var put: seq<nat>
    var left: nat

    var mode: Mode
    var last: bool
    var hold: nat
    var bits: nat
    var length: nat
    var offset: nat
    var extra: nat
    var nlen: nat
    var ndist: nat
    var ncode: nat
    var have: nat
    const lens: array<nat>
    const codes: array<Entry>
    var lencode: seq<Entry>
    var lenbits: nat
    var distcode: seq<Entry>
    var distbits: nat
    const window: Window

    /** All input taken and all output of earlier calls, the bits consumed, and the codes in force. */
    ghost var fed: seq<nat>
    ghost var past: seq<nat>
    ghost var pos: nat
    ghost var bl: seq<nat>
    ghost var cd: Codes

    /** A raw stream about to be read. */
    constructor ()
      ensures Valid() && Tight() && past == [] && put == [] && fed == [] && next == [] && mode == TYPEDO && window.wsize == 0
      ensures window.Holds([]) && fresh(lens) && fresh(codes) && fresh(window) && fresh(window.data) && Apart()
    {
      next, put, left := [], [], 0;
      mode, last, hold, bits := TYPEDO, false, 0, 0;
      length, offset, extra, nlen, ndist, ncode, have := 0, 0, 0, 0, 0, 0, 0;
      lens, codes := new nat[MAXLENS], new Entry[ENOUGH](i => INVALID);
      lencode, lenbits, distcode, distbits := [], 0, [], 0;
      var w := new Window();
      window := w;
      fed, past, pos, bl, cd := [], [], 0, [], Codes([], []);
      new;
      LeadsSelf([], START);
      assert Input() == [] && Now() == START;
    }

    ghost predicate Apart() {
      window.data != lens
    }

    /** Every input bit taken so far. */
    ghost function Input(): seq<bool>
      reads `fed
    {
      ByteBits(fed)
    }

    ghost function Out(): seq<nat>
      reads `past, `put
    {
      past + put
    }

    /** The point of decoding that the mode and its fields stand for. */
    ghost function Here(): Point
      reads `mode, `last, `length, `offset, `extra, `nlen, `ndist, `ncode, `have, `bl, `cd, lens
    {
      match mode
      case TYPE => Block(last)
      case TYPEDO => Block(last)
      case STORED => Stored(last)
      case COPYSTART => Copy(last, length)
      case COPY => Copy(last, length)
      case TABLE => Table(last)
      case LENLENS => LenLens(last, nlen, ndist, ncode, Got(lens[..], have))
      case CODELENS => CodeLens(last, nlen, ndist, bl, if have <= lens.Length then lens[..have] else [])
      case LENSTART => LenSym(last, cd)
      case LEN => LenSym(last, cd)
      case LIT => LitOut(last, cd, length)
      case LENEXT => LenExt(last, cd, length, extra)
      case DIST => DistSym(last, cd, length)
      case DISTEXT => DistExt(last, cd, length, offset, extra)
      case MATCH => MatchOut(last, cd, length, offset)
      case CHECK => Done
      case DONE => Done
      case BAD => Failed
    }

    /** Here, spelled out. */
    lemma Stands()
      ensures Here() == match mode
        case TYPE => Block(last)
        case TYPEDO => Block(last)
        case STORED => Stored(last)
        case COPYSTART => Copy(last, length)
        case COPY => Copy(last, length)
        case TABLE => Table(last)
        case LENLENS => LenLens(last, nlen, ndist, ncode, Got(lens[..], have))
        case CODELENS => CodeLens(last, nlen, ndist, bl, if have <= lens.Length then lens[..have] else [])
        case LENSTART => LenSym(last, cd)
        case LEN => LenSym(last, cd)
        case LIT => LitOut(last, cd, length)
        case LENEXT => LenExt(last, cd, length, extra)
        case DIST => DistSym(last, cd, length)
        case DISTEXT => DistExt(last, cd, length, offset, extra)
        case MATCH => MatchOut(last, cd, length, offset)
        case CHECK => Done
        case DONE => Done
        case BAD => Failed
    {
    }

    ghost function Now(): Config
      reads `mode, `last, `length, `offset, `extra, `nlen, `ndist, `ncode, `have, `bl, `cd, `pos, `past, `put, lens
    {
      Config(Here(), pos, Out())
    }

    /** The bit buffer holds the bits taken but not consumed, and nothing above them. */
    ghost predicate Buffered()
      reads `fed, `pos, `bits, `hold
    {
      pos + bits == 8 * |fed| && hold == Lsb(Input()[pos..])
    }

    /** The tables are those of the codes in force. */
    ghost predicate Tables()
      reads `mode, `have, `bl, `cd, `lencode, `lenbits, `distcode, `distbits
    {
      && (mode == CODELENS ==> have <= MAXLENS && |bl| == BL_CODES && TableFor(lencode, lenbits, CODES, bl))
      && (mode in {LENSTART, LEN, LIT, LENEXT, DIST, DISTEXT, MATCH} ==>
            && |cd.lit| <= 288 && TableFor(lencode, lenbits, LENS, cd.lit)
            && |cd.dist| <= 32 && TableFor(distcode, distbits, DISTS, cd.dist))
    }

    ghost predicate Shape() {
      lens.Length == MAXLENS && codes.Length == ENOUGH
    }

    /** Where the stream stands is where the bytes taken lead. */
    ghost predicate Valid()
      reads this, lens
    {
      && Shape()
      && Leads(Input(), START, Now())
      && (mode != BAD ==> Buffered())
      && (mode in {COPYSTART, COPY, CHECK, DONE} ==> bits == 0)
      && Tables()
    }

    /** No whole byte is left in the bit buffer, unless decoding cannot go on without more. */
    ghost predicate Tight()
      reads this, lens
    {
      mode == BAD || bits < 8 || (pos + 8 <= 8 * |fed| && Move(Input()[..8 * |fed| - 8], Now()) == Stuck)
    }

    // ---- the input macros ----

    /** PULLBYTE: get a byte of input into the bit accumulator, if there is one. Callers
        have at most 24 bits, so that 32 always suffice. */
    method PullByte() returns (ok: bool)
      requires Buffered() && bits <= 24 && forall i :: 0 <= i < |next| ==> next[i] < 256
      modifies `next, `hold, `bits, `fed
      ensures ok ==> hold < 0x1_0000_0000
      ensures ok == (|old(next)| > 0)
      ensures !ok ==> next == old(next) && hold == old(hold) && bits == old(bits) && fed == old(fed)
      ensures ok ==> next == old(next)[1..] && bits == old(bits) + 8 && fed == old(fed) + [old(next)[0]]
      ensures Buffered() && old(Input()) <= Input()
    {
      if |next| == 0 {
        return false;
      }
      FedOne(fed, next[0], pos, bits);
      HoldFits(Input()[pos..], bits, next[0]);
      hold := hold + next[0] * Pow2(bits);
      bits := bits + 8;
      fed := fed + [next[0]];
      next := next[1..];
      ok := true;
    }

    /** NEEDBITS: assure that there are at least n bits in the bit accumulator. */
    method NeedBits(n: nat) returns (ok: bool)
      requires Buffered() && forall i :: 0 <= i < |next| ==> next[i] < 256
      requires n <= 25 || (n == 32 && bits % 8 == 0)
      modifies `next, `hold, `bits, `fed
      ensures Buffered() && old(Input()) <= Input() && Taken(old(next), old(fed), next, fed)
      ensures forall i :: 0 <= i < |next| ==> next[i] < 256
      ensures ok <==> bits >= n
      ensures !ok ==> |next| == 0
      ensures bits == old(bits) || bits < n + 8
      ensures bits == old(bits) ==> fed == old(fed)
      ensures bits >= old(bits) && 8 * |next| + bits == 8 * |old(next)| + old(bits)
    {
      hide ByteBits, Lsb;
      while bits < n
        invariant Buffered() && old(Input()) <= Input() && Taken(old(next), old(fed), next, fed)
        invariant forall i :: 0 <= i < |next| ==> next[i] < 256
        invariant bits == old(bits) || bits < n + 8
        invariant bits == old(bits) ==> fed == old(fed)
        invariant bits >= old(bits) && 8 * |next| + bits == 8 * |old(next)| + old(bits) && bits % 8 == old(bits) % 8
        decreases n - bits
      {
        var got := PullByte();
        if !got {
          return false;
        }
      }
      ok := true;
    }

    /** BITS: the low n bits of the bit accumulator. */
    method GetBits(n: nat) returns (v: nat)
      requires Buffered() && n <= bits
      ensures v == Lsb(Input()[pos..][..n])
    {
      LsbSplit(Input()[pos..], n);
      v := Low(hold, n);
    }

    /** DROPBITS: remove n bits from the bit accumulator. */
    method DropBits(n: nat)
      requires Buffered() && n <= bits
      modifies `hold, `bits, `pos
      ensures Buffered() && bits == old(bits) - n && pos == old(pos) + n
    {
      LsbSplit(Input()[pos..], n);
      assert Input()[pos..][n..] == Input()[pos + n..];
      hold := Shr(hold, n);
      bits := bits - n;
      pos := pos + n;
    }

    /** PULLBYTE within a symbol: the bits seen before are all but the last eight. */
    method PullMore(ghost next0: seq<nat>, ghost fed0: seq<nat>) returns (ok: bool)
      requires Buffered() && (forall i :: 0 <= i < |next| ==> next[i] < 256) && Taken(next0, fed0, next, fed) && bits <= 24
      modifies `next, `hold, `bits, `fed
      ensures Buffered() && (forall i :: 0 <= i < |next| ==> next[i] < 256) && Taken(next0, fed0, next, fed) && old(Input()) <= Input()
      ensures ok == (|old(next)| > 0)
      ensures !ok ==> next == old(next) && hold == old(hold) && bits == old(bits) && fed == old(fed)
      ensures ok ==> |next| == |old(next)| - 1 && bits == old(bits) + 8
      ensures ok ==> Input()[pos..8 * |fed| - 8] == old(Input()[pos..]) && old(Input()[pos..]) <= Input()[pos..]
    {
      hide ByteBits, Lsb, Taken;
      ghost var next1, fed1, w := next, fed, Input()[pos..];
      ok := PullByte();
      if ok { Pulled(next0, fed0, next1, fed1, next, fed, pos, w); }
    }

    /** The bit buffer as a bit string. */
    lemma Held()
      requires Buffered()
      ensures |Input()| == 8 * |fed| && |Input()[pos..]| == bits && hold == Lsb(Input()[pos..])
    {
      hide ByteBits, Lsb;
    }

    /** Look up the next symbol, pulling just enough bytes for its code. */
    method LookupSym(tab: seq<Entry>, root: nat, ghost t: CodeType, ghost lens: seq<nat>)
      returns (ok: bool, op: nat, val: nat, len: nat)
      requires Buffered() && forall i :: 0 <= i < |next| ==> next[i] < 256
      requires |lens| <= MaxSymbols(t) && CodeOk(lens) && TableFor(tab, root, t, lens)
      modifies `next, `hold, `bits, `fed
      ensures Buffered() && old(Input()) <= Input() && Taken(old(next), old(fed), next, fed)
      ensures bits >= old(bits) && 8 * |next| + bits == 8 * |old(next)| + old(bits)
      ensures forall i :: 0 <= i < |next| ==> next[i] < 256
      ensures !ok ==> |next| == 0 && DecodeStep(lens, Input()[pos..]) == More
      ensures ok ==> len <= bits && DecodeStep(lens, Input()[pos..]) != More && Agrees(Found(op, val, len), t, lens, Input()[pos..])
      ensures bits == old(bits) || (bits >= 8 && DecodeStep(lens, Input()[pos..8 * |fed| - 8]) == More)
      ensures bits == old(bits) ==> fed == old(fed)
    {
      hide TableFor, Lookup, Agrees, ByteBits, Lsb, CodeOk, Taken, DecodeStep, IsLink, LinkIndex, Low, Shr, MaxSymbols;
      ghost var next0, fed0 := next, fed;
      TakenNone(next, fed);
      Held();
      EntryFound(tab, root, t, lens, Input()[pos..]);
      var here := tab[Low(hold, root)];
      while here.bits > bits
        invariant Buffered() && old(Input()) <= Input() && Taken(next0, fed0, next, fed)
        invariant forall i :: 0 <= i < |next| ==> next[i] < 256
        invariant bits >= old(bits) && 8 * |next| + bits == 8 * |old(next)| + old(bits)
        invariant bits == old(bits) || (bits >= 8 && DecodeStep(lens, Input()[pos..8 * |fed| - 8]) == More)
        invariant Low(hold, root) < |tab| && here == tab[Low(hold, root)]
        invariant bits == old(bits) ==> fed == old(fed)
        decreases |next|
      {
        RootMore(tab, root, t, lens, Input()[pos..], hold);
        Decided(lens, Input()[pos..]);
        var got := PullMore(next0, fed0);
        if !got {
          return false, 0, 0, 0;
        }
        Held();
        EntryFound(tab, root, t, lens, Input()[pos..]);
        here := tab[Low(hold, root)];
      }
      if !IsLink(here) {
        RootFound(tab, root, t, lens, Input()[pos..], hold);
        return true, here.op, here.val, here.bits;
      }
      ok, op, val, len := FollowLink(tab, root, here, t, lens, next0, fed0);
    }

    /** The second lookup, with the bits after the root. */
    method FollowLink(tab: seq<Entry>, root: nat, link: Entry, ghost t: CodeType, ghost lens: seq<nat>,
                      ghost next0: seq<nat>, ghost fed0: seq<nat>)
      returns (ok: bool, op: nat, val: nat, len: nat)
      requires Buffered() && forall i :: 0 <= i < |next| ==> next[i] < 256
      requires |lens| <= MaxSymbols(t) && CodeOk(lens) && TableFor(tab, root, t, lens)
      requires Taken(next0, fed0, next, fed) && IsLink(link) && link.bits <= bits
      requires Low(hold, root) < |tab| && link == tab[Low(hold, root)]
      modifies `next, `hold, `bits, `fed
      ensures Buffered() && old(Input()) <= Input() && Taken(next0, fed0, next, fed)
      ensures bits >= old(bits) && 8 * |next| + bits == 8 * |old(next)| + old(bits)
      ensures forall i :: 0 <= i < |next| ==> next[i] < 256
      ensures !ok ==> |next| == 0 && DecodeStep(lens, Input()[pos..]) == More
      ensures ok ==> len <= bits && DecodeStep(lens, Input()[pos..]) != More && Agrees(Found(op, val, len), t, lens, Input()[pos..])
      ensures bits == old(bits) || (bits >= 8 && DecodeStep(lens, Input()[pos..8 * |fed| - 8]) == More)
      ensures bits == old(bits) ==> fed == old(fed)
    {
      hide TableFor, Lookup, Agrees, ByteBits, Lsb, CodeOk, Taken, DecodeStep, IsLink, LinkIndex, Low, Shr, MaxSymbols;
      Held();
      LinkFound(tab, root, t, lens, Input()[pos..], link);
      var here := tab[LinkIndex(link, hold)];
      while link.bits + here.bits > bits
        invariant Buffered() && old(Input()) <= Input() && Taken(next0, fed0, next, fed)
        invariant forall i :: 0 <= i < |next| ==> next[i] < 256
        invariant bits >= old(bits) && 8 * |next| + bits == 8 * |old(next)| + old(bits)
        invariant bits == old(bits) || (bits >= 8 && DecodeStep(lens, Input()[pos..8 * |fed| - 8]) == More)
        invariant Low(hold, root) < |tab| && link == tab[Low(hold, root)] && link.bits <= bits
        invariant LinkIndex(link, hold) < |tab| && here == tab[LinkIndex(link, hold)]
        invariant bits == old(bits) ==> fed == old(fed)
        decreases |next|
      {
        LinkFound(tab, root, t, lens, Input()[pos..], link);
        ghost var w := Input()[pos..];
        Held();
        Decided(lens, w);
        var got := PullMore(next0, fed0);
        if !got {
          return false, 0, 0, 0;
        }
        Held();
        SameRoot(w, Input()[pos..], root);
        LinkFound(tab, root, t, lens, Input()[pos..], link);
        here := tab[LinkIndex(link, hold)];
      }
      LinkFound(tab, root, t, lens, Input()[pos..], link);
      return true, here.op, here.val, link.bits + here.bits;
    }
  }

  function LinkIndex(link: Entry, hold: nat): nat {
    link.val + Shr(Low(hold, link.bits + link.op), link.bits)
  }

  /** Fifteen bits always decide a symbol. */
  lemma Decided(lens: seq<nat>, w: seq<bool>)
    requires CodeOk(lens)
    ensures |w| >= 15 ==> DecodeStep(lens, w) != More
  {
    hide Code, StartOf;
    if |w| >= 15 && Kraft(lens) == UNIT {
      var n := Complete(lens, w);
      assert Starts(lens, w, n);
    }
  }

  lemma HoldFits(w: seq<bool>, bits: nat, b: nat)
    requires |w| == bits <= 24 && b < 256
    ensures Lsb(w) + b * Pow2(bits) < 0x1_0000_0000
  {
    hide Lsb, Pow2;
    LsbBound(w);
    Pow2Mono(bits, 24);
    TwentyFour();
    assert b * Pow2(bits) <= 255 * Pow2(bits);
  }

  lemma TwentyFour()
    ensures Pow2(24) == 0x100_0000
  {
    Pow2Values();
    Pow2Add(15, 9);
  }

  lemma TakenNone(next: seq<nat>, fed: seq<nat>)
    ensures Taken(next, fed, next, fed)
  {
  }

  /** One byte pulled: the bits seen before are all but the last eight. */
  lemma Pulled(next0: seq<nat>, fed0: seq<nat>, next: seq<nat>, fed: seq<nat>, next': seq<nat>, fed': seq<nat>, pos: nat, w: seq<bool>)
    requires Taken(next0, fed0, next, fed) && |next| > 0 && next' == next[1..] && fed' == fed + [next[0]]
    requires pos <= 8 * |fed| && w == ByteBits(fed)[pos..]
    requires forall i :: 0 <= i < |next| ==> next[i] < 256
    ensures Taken(next0, fed0, next', fed') && ByteBits(fed')[pos..8 * |fed'| - 8] == w && |w| == 8 * |fed| - pos
    ensures w <= ByteBits(fed')[pos..]
    ensures forall i :: 0 <= i < |next'| ==> next'[i] < 256
  {
    hide ToBits, ByteBits, Taken;
    TakenOne(next0, fed0, next, fed);
    ByteBitsMore(fed, next[0]);
    Suffix(ByteBits(fed), ToBits(next[0], 8), pos);
  }

  lemma TakenOne(next0: seq<nat>, fed0: seq<nat>, next: seq<nat>, fed: seq<nat>)
    requires Taken(next0, fed0, next, fed) && |next| > 0
    ensures Taken(next0, fed0, next[1..], fed + [next[0]])
  {
    var x := next[0];
    assert next == [x] + next[1..];
    assert fed + next == (fed + [x]) + next[1..];
  }

  lemma ByteBitsMore(fed: seq<nat>, b: nat)
    ensures ByteBits(fed + [b]) == ByteBits(fed) + ToBits(b, 8)
  {
    assert (fed + [b])[..|fed|] == fed;
  }

  lemma Suffix(a: seq<bool>, b: seq<bool>, pos: nat)
    requires pos <= |a|
    ensures (a + b)[pos..|a|] == a[pos..] && a[pos..] <= (a + b)[pos..]
  {
  }

  /** The entry for the bits so far is in the table. */
  lemma EntryFound(tab: seq<Entry>, root: nat, t: CodeType, lens: seq<nat>, w: seq<bool>)
    requires |lens| <= MaxSymbols(t) && CodeOk(lens) && TableFor(tab, root, t, lens)
    ensures Low(Lsb(w), root) < |tab|
  {
    hide TableFor, Kraft;
    LookupAgrees(tab, root, t, lens, w);
  }

  /** An entry longer than the bits so far means that the code is not all there. */
  lemma RootMore(tab: seq<Entry>, root: nat, t: CodeType, lens: seq<nat>, w: seq<bool>, hold: nat)
    requires |lens| <= MaxSymbols(t) && CodeOk(lens) && TableFor(tab, root, t, lens) && hold == Lsb(w)
    requires Low(hold, root) < |tab| && tab[Low(hold, root)].bits > |w|
    ensures DecodeStep(lens, w) == More
  {
    hide TableFor, Kraft, Low, Shr, Lsb;
    LookupAgrees(tab, root, t, lens, w);
  }

  lemma RootFound(tab: seq<Entry>, root: nat, t: CodeType, lens: seq<nat>, w: seq<bool>, hold: nat)
    requires |lens| <= MaxSymbols(t) && CodeOk(lens) && TableFor(tab, root, t, lens) && hold == Lsb(w)
    requires Low(hold, root) < |tab| && tab[Low(hold, root)].bits <= |w| && !IsLink(tab[Low(hold, root)])
    ensures var e := tab[Low(hold, root)]; DecodeStep(lens, w) != More && Agrees(Found(e.op, e.val, e.bits), t, lens, w)
  {
    hide TableFor, Kraft, Low, Shr, Lsb;
    LookupAgrees(tab, root, t, lens, w);
  }

  /** Through a link: the second entry is there, and decides. */
  lemma LinkFound(tab: seq<Entry>, root: nat, t: CodeType, lens: seq<nat>, w: seq<bool>, link: Entry)
    requires |lens| <= MaxSymbols(t) && CodeOk(lens) && TableFor(tab, root, t, lens)
    requires Low(Lsb(w), root) < |tab| && link == tab[Low(Lsb(w), root)] && IsLink(link) && link.bits <= |w|
    ensures link.bits == root && LinkIndex(link, Lsb(w)) < |tab|
    ensures var e := tab[LinkIndex(link, Lsb(w))];
      if link.bits + e.bits > |w| then DecodeStep(lens, w) == More
      else DecodeStep(lens, w) != More && Agrees(Found(e.op, e.val, link.bits + e.bits), t, lens, w)
  {
    hide Kraft, Low, Shr, Lsb, TableFor, Lookup, CodeOk, DecodeStep, IsLink, LinkIndex, FoundSymbol;
    CodeOkLookup(tab, root, t, lens, w);
    LinkWhole(tab, root, t, lens, Low(Lsb(w), root));
    LookupByLink(tab, root, Lsb(w), link);
  }

  lemma CodeOkLookup(tab: seq<Entry>, root: nat, t: CodeType, lens: seq<nat>, w: seq<bool>)
    requires |lens| <= MaxSymbols(t) && CodeOk(lens) && TableFor(tab, root, t, lens)
    ensures Agrees(Lookup(tab, root, Lsb(w)), t, lens, w) && Lookup(tab, root, Lsb(w)).Found?
    ensures DecodeStep(lens, w) == More <==> Lookup(tab, root, Lsb(w)).len > |w|
  {
    hide Kraft, Low, Shr, Lsb, TableFor, Lookup;
    LookupAgrees(tab, root, t, lens, w);
  }

  lemma LinkWhole(tab: seq<Entry>, root: nat, t: CodeType, lens: seq<nat>, i: nat)
    requires |lens| <= MaxSymbols(t) && TableFor(tab, root, t, lens) && i < |tab| && i < Pow2(root) && IsLink(tab[i])
    ensures tab[i].bits == root
  {
    hide Kraft, Decodes, Pow2;
  }

  lemma LookupByLink(tab: seq<Entry>, root: nat, hold: nat, link: Entry)
    requires Low(hold, root) < |tab| && link == tab[Low(hold, root)] && IsLink(link)
    ensures Lookup(tab, root, hold) ==
      if LinkIndex(link, hold) >= |tab| then OutOfTable
      else var e := tab[LinkIndex(link, hold)]; Found(e.op, e.val, link.bits + e.bits)
  {
  }

  /** More bits above do not change the root entry. */
  lemma SameRoot(w: seq<bool>, v: seq<bool>, root: nat)
    requires root <= |w| && w <= v
    ensures Low(Lsb(v), root) == Low(Lsb(w), root)
  {
    LsbSplit(w, root);
    LsbSplit(v, root);
    assert w[..root] == v[..root];
  }

  /** Bytes moved from the unread input to the input taken. */
  ghost predicate Taken(next: seq<nat>, fed: seq<nat>, next': seq<nat>, fed': seq<nat>) {
    fed + next == fed' + next' && |next'| <= |next| && fed <= fed'
  }

  /** The code-length code lengths read so far, in the order of transmission. */
  ghost function Got(lens: seq<nat>, have: nat): seq<nat> {
    seq(have, i => if 0 <= i < |ORDER| && ORDER[i] < |lens| then lens[ORDER[i]] else 0)
  }

  /** A byte pulled goes above the bits already held. */
  lemma FedOne(fed: seq<nat>, b: nat, pos: nat, bits: nat)
    requires pos + bits == 8 * |fed| && b < 256
    ensures ByteBits(fed) <= ByteBits(fed + [b])
    ensures Lsb(ByteBits(fed + [b])[pos..]) == Lsb(ByteBits(fed)[pos..]) + b * Pow2(bits)
  {
    hide Pow2, Lsb, Low, ToBits, ByteBits;
    var x, y := ByteBits(fed)[pos..], ToBits(b, 8);
    ByteBitsMore(fed, b);
    Suffix(ByteBits(fed), y, pos);
    SuffixAll(ByteBits(fed), y, pos);
    LsbConcat(x, y);
    LsbToBits(b, 8);
    ByteLow(b);
    MulComm(b, Pow2(bits));
  }

  lemma SuffixAll(a: seq<bool>, b: seq<bool>, pos: nat)
    requires pos <= |a|
    ensures (a + b)[pos..] == a[pos..] + b && a <= a + b
  {
  }

  lemma ByteLow(b: nat)
    requires b < 256
    ensures Low(b, 8) == b
  {
    Pow2Values();
    LowSmall(b, 8);
  }
}
