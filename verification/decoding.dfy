/** What a symbol decoder should do with the bits seen so far, and the proof that
    the two-level tables do exactly that, also while bits are still missing. */
module SymbolDecoding {
  import opened Bits
  import opened Canonical
  import opened SortedSymbols
  import opened HuffBits
  import opened DecodingTables

  /** A symbol whose code the bits start with, an impossible start, or neither yet. */
  datatype Step = Sym(n: nat) | Bad | More

  ghost predicate Starts(lens: seq<nat>, bits: seq<bool>, n: nat) {
    Used(lens, n) && Code(lens, n) <= bits
  }

  /** Section 3.2.2 of RFC 1951 read as a decoder; only an incomplete code has impossible bits. */
  ghost function DecodeStep(lens: seq<nat>, bits: seq<bool>): (r: Step)
    ensures r.Sym? ==> Starts(lens, bits, r.n)
    ensures (exists n: nat :: Starts(lens, bits, n)) ==> r.Sym?
  {
    if exists n: nat :: Starts(lens, bits, n) then
      var n: nat :| Starts(lens, bits, n);
      Sym(n)
    else if Kraft(lens) < UNIT && |bits| >= 1 then Bad
    else More
  }

  lemma StepSym(lens: seq<nat>, bits: seq<bool>, n: nat)
    requires Kraft(lens) <= UNIT && Used(lens, n) && Code(lens, n) <= bits
    ensures DecodeStep(lens, bits) == Sym(n)
  {
    assert Starts(lens, bits, n);
    UniqueDecoding(lens, DecodeStep(lens, bits).n, n, bits);
  }

  /** More input never changes a decision. */
  lemma StepStable(lens: seq<nat>, bits: seq<bool>, more: seq<bool>)
    requires Kraft(lens) <= UNIT && DecodeStep(lens, bits).Sym?
    ensures DecodeStep(lens, bits + more) == DecodeStep(lens, bits)
    ensures DecodeStep(lens, bits).n < |lens| && 1 <= lens[DecodeStep(lens, bits).n] <= |bits|
    ensures Starts(lens, bits, DecodeStep(lens, bits).n)
  {
    var n := DecodeStep(lens, bits).n;
    assert Code(lens, n) <= bits + more;
    StepSym(lens, bits + more, n);
  }

  /** The result of a table lookup says what DecodeStep says. */
  ghost predicate Agrees(r: Found, t: CodeType, lens: seq<nat>, bits: seq<bool>) {
    match DecodeStep(lens, bits)
    case Sym(n) => n < |lens| && n < MaxSymbols(t) && r == FoundSymbol(t, n, lens[n]) && lens[n] <= |bits|
    case Bad => r == Found(64, 0, 1) && |bits| >= 1
    case More => r.Found? && r.len > |bits|
  }

  /** Looking up a bit buffer that holds only some of the bits: the entry found is
      short enough exactly when all of a symbol's own bits are there, and then it is
      that symbol's, whatever follows. */
  lemma LookupAgrees(tab: seq<Entry>, root: nat, t: CodeType, lens: seq<nat>, bits: seq<bool>)
    requires |lens| <= MaxSymbols(t) && ValidLens(lens) && TableFor(tab, root, t, lens) && Kraft(lens) <= UNIT
    requires Kraft(lens) == UNIT || MaxLen(lens) <= 1
    ensures Agrees(Lookup(tab, root, Lsb(bits)), t, lens, bits)
  {
    hide *;
    if MaxLen(lens) == 0 {
      EmptyAgrees(tab, root, t, lens, bits);
    } else if Kraft(lens) == UNIT {
      CompleteAgrees(tab, root, t, lens, bits);
    } else {
      LoneAgrees(tab, root, t, lens, bits);
    }
  }

  lemma CompleteAgrees(tab: seq<Entry>, root: nat, t: CodeType, lens: seq<nat>, bits: seq<bool>)
    requires |lens| <= MaxSymbols(t) && TableFor(tab, root, t, lens) && Kraft(lens) == UNIT
    ensures Agrees(Lookup(tab, root, Lsb(bits)), t, lens, bits)
  {
    hide TableFor, Lookup, Kraft, Code, FoundSymbol;
    var hold := Lsb(bits);
    var n := DecodesEverything(tab, root, t, lens, hold);
    var all := ToBits(hold, MAXBITS);
    ToBitsLsb(bits);
    if lens[n] <= |bits| {
      ToBitsPrefix(hold, MAXBITS, lens[n]);
      ToBitsPrefix(hold, |bits|, lens[n]);
      assert Code(lens, n) == all[..lens[n]];
      StepSym(lens, bits, n);
    } else {
      ToBitsPrefix(hold, MAXBITS, |bits|);
      if m: nat :| Starts(lens, bits, m) {
        assert Code(lens, m) <= all;
        UniqueDecoding(lens, m, n, all);
      }
      FoundLength(t, n, lens[n]);
    }
  }

  lemma FoundLength(t: CodeType, n: nat, len: nat)
    requires n < MaxSymbols(t)
    ensures FoundSymbol(t, n, len).Found? && FoundSymbol(t, n, len).len == len
  {
  }

  lemma LookupPair(a: Entry, b: Entry, hold: nat)
    requires !IsLink(a) && !IsLink(b)
    ensures Lookup([a, b], 1, hold) == if hold % 2 == 0 then Found(a.op, a.val, a.bits) else Found(b.op, b.val, b.bits)
  {
    assert Low(hold, 1) == hold % 2;
  }

  lemma EmptyAgrees(tab: seq<Entry>, root: nat, t: CodeType, lens: seq<nat>, bits: seq<bool>)
    requires |lens| <= MaxSymbols(t) && TableFor(tab, root, t, lens) && MaxLen(lens) == 0
    ensures Agrees(Lookup(tab, root, Lsb(bits)), t, lens, bits)
  {
    NoLengths(lens);
    assert INVALID == Entry(64, 1, 0);
    LookupPair(INVALID, INVALID, Lsb(bits));
    hide Lookup, Kraft, Code, FoundSymbol;
    if n: nat :| Starts(lens, bits, n) {
      CountWithin(lens, n);
      TopLengthIs(lens, MAXBITS, lens[n]);
    }
  }

  /** A lone code is the single bit 0. */
  lemma LoneSymbol(lens: seq<nat>) returns (n: nat)
    requires MaxLen(lens) == 1 && Kraft(lens) < UNIT
    ensures Used(lens, n) && lens[n] == 1 && Huff(lens, n) == 0 && Code(lens, n) == [false]
    ensures forall m :: Used(lens, m) ==> m == n
  {
    LoneCode(lens);
    hide Kraft, LenAt, Code, MaxLen, Symbols, Huff;
    n := SymAt(lens, 0);
    LenAtIs(lens, 0);
    FirstHuff(lens);
    HuffIsLsb(lens, n);
    LsbInjective(Code(lens, n), [false]);
    forall m | Used(lens, m)
      ensures m == n
    {
      SymAtPos(lens, m);
    }
  }

  lemma LenAtIs(lens: seq<nat>, k: nat)
    requires k < Symbols(lens)
    ensures lens[SymAt(lens, k)] == LenAt(lens, k) && Used(lens, SymAt(lens, k))
  {
  }

  lemma LoneAgrees(tab: seq<Entry>, root: nat, t: CodeType, lens: seq<nat>, bits: seq<bool>)
    requires |lens| <= MaxSymbols(t) && TableFor(tab, root, t, lens) && MaxLen(lens) == 1 && Kraft(lens) < UNIT
    ensures Agrees(Lookup(tab, root, Lsb(bits)), t, lens, bits)
  {
    var n := LoneSymbol(lens);
    LoneLookup(tab, root, t, lens, n, Lsb(bits));
    hide TableFor, Lookup, Kraft, Code, MaxLen, Huff, FoundSymbol;
    FoundLength(t, n, 1);
    if bits != [] {
      FirstBit(bits);
      if bits[0] {
        if m: nat :| Starts(lens, bits, m) {
          assert false;
        }
      } else {
        assert [false] <= bits;
        StepSym(lens, bits, n);
      }
    } else {
      assert !exists m: nat :: Starts(lens, bits, m);
    }
  }

  lemma FirstBit(bits: seq<bool>)
    requires bits != []
    ensures Lsb(bits) % 2 == Bit(bits[0])
  {
  }

  lemma LoneLookup(tab: seq<Entry>, root: nat, t: CodeType, lens: seq<nat>, n: nat, hold: nat)
    requires |lens| <= MaxSymbols(t) && TableFor(tab, root, t, lens) && MaxLen(lens) == 1 && Kraft(lens) < UNIT
    requires Used(lens, n) && lens[n] == 1 && Huff(lens, n) == 0
    ensures Lookup(tab, root, hold) == if hold % 2 == 0 then FoundSymbol(t, n, 1) else Found(64, 0, 1)
  {
    assert INVALID == Entry(64, 1, 0);
    assert Low(hold, 1) == hold % 2;
    assert Decodes(tab, root, t, lens, n);
    hide Kraft, MaxLen, Huff, Decodes;
  }
}
