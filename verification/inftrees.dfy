/** inflate_table: the two-level decoding tables, their lookup, and the proof
    that looking up any bit buffer that starts with a symbol's canonical code
    finds that symbol and its length. */
module DecodingTables {
  import opened Bits
  import opened Canonical
  import opened SortedSymbols
  import opened HuffBits

  datatype CodeType = CODES | LENS | DISTS

  datatype Entry = Entry(op: nat, bits: nat, val: nat)

  const ENOUGH_LENS := 852
  const ENOUGH_DISTS := 592

  const LBASE: seq<nat> := [3, 4, 5, 6, 7, 8, 9, 10, 11, 13, 15, 17, 19, 23, 27, 31,
                            35, 43, 51, 59, 67, 83, 99, 115, 131, 163, 195, 227, 258, 0, 0]
  const LEXT: seq<nat> := [16, 16, 16, 16, 16, 16, 16, 16, 17, 17, 17, 17, 18, 18, 18, 18,
                           19, 19, 19, 19, 20, 20, 20, 20, 21, 21, 21, 21, 16, 72, 78]
  const DBASE: seq<nat> := [1, 2, 3, 4, 5, 7, 9, 13, 17, 25, 33, 49, 65, 97, 129, 193,
                            257, 385, 513, 769, 1025, 1537, 2049, 3073, 4097, 6145,
                            8193, 12289, 16385, 24577, 0, 0]
  const DEXT: seq<nat> := [16, 16, 16, 16, 17, 17, 18, 18, 19, 19, 20, 20, 21, 21, 22, 22,
                           23, 23, 24, 24, 25, 25, 26, 26, 27, 27, 28, 28, 29, 29, 64, 64]

  function MaxSymbols(t: CodeType): nat {
    match t
    case CODES => 19
    case LENS => 288
    case DISTS => 32
  }

  /** What a table says about a symbol: literal, end of block, base and extra bits, or invalid. */
  function SymbolEntry(t: CodeType, sym: nat, bits: nat): (e: Entry)
    requires sym < MaxSymbols(t)
    ensures e.bits == bits && !IsLink(e)
  {
    match t
    case CODES => Entry(0, bits, sym)
    case LENS =>
      if sym < 256 then Entry(0, bits, sym)
      else if sym == 256 then Entry(32 + 64, bits, 0)
      else Entry(LEXT[sym - 257], bits, LBASE[sym - 257])
    case DISTS => Entry(DEXT[sym], bits, DBASE[sym])
  }

  const INVALID := Entry(64, 1, 0)

  predicate IsLink(e: Entry) {
    1 <= e.op <= 15
  }

  /** The result of a lookup: an operation, its value and the bits to drop. */
  datatype Found = Found(op: nat, val: nat, len: nat) | OutOfTable

  /** Index with root bits; follow a link with the bits after them. */
  function Lookup(tab: seq<Entry>, root: nat, hold: nat): Found {
    var i := Low(hold, root);
    if i >= |tab| then OutOfTable
    else if IsLink(tab[i]) then
      var j := tab[i].val + Shr(Low(hold, tab[i].bits + tab[i].op), tab[i].bits);
      if j >= |tab| then OutOfTable else Found(tab[j].op, tab[j].val, tab[i].bits + tab[j].bits)
    else Found(tab[i].op, tab[i].val, tab[i].bits)
  }

  function FoundSymbol(t: CodeType, sym: nat, len: nat): Found
    requires sym < MaxSymbols(t)
  {
    Found(SymbolEntry(t, sym, len).op, SymbolEntry(t, sym, len).val, len)
  }

  /** Looking up anything that starts with n's code finds n. */
  ghost predicate Decodes(tab: seq<Entry>, root: nat, t: CodeType, lens: seq<nat>, n: nat)
    requires Used(lens, n) && n < MaxSymbols(t)
  {
    forall hold: nat :: Low(hold, lens[n]) == Huff(lens, n) ==> Lookup(tab, root, hold) == FoundSymbol(t, n, lens[n])
  }

  /** Symbol n is in the table: at every root slot its code is a prefix of, or
      at every such slot of the sub-table its first root bits link to. */
  ghost predicate Entered(tab: seq<Entry>, used: nat, t: CodeType, lens: seq<nat>, root: nat, n: nat)
    requires Used(lens, n) && n < MaxSymbols(t)
  {
    && used <= |tab| && Pow2(root) <= used
    && if lens[n] <= root then
         forall x :: 0 <= x < Pow2(root) && Low(x, lens[n]) == Huff(lens, n) ==> tab[x] == SymbolEntry(t, n, lens[n])
       else
         && var e := tab[Low(Huff(lens, n), root)];
         && IsLink(e) && e.bits == root && lens[n] <= root + e.op
         && Pow2(root) <= e.val && e.val + Pow2(e.op) <= used
         && forall x :: e.val <= x < e.val + Pow2(e.op) && Low(x - e.val, lens[n] - root) == Shr(Huff(lens, n), root)
              ==> tab[x] == SymbolEntry(t, n, lens[n] - root)
  }

  lemma EnteredDecodes(tab: seq<Entry>, used: nat, t: CodeType, lens: seq<nat>, root: nat, n: nat)
    requires Used(lens, n) && n < MaxSymbols(t)
    requires Entered(tab, used, t, lens, root, n)
    ensures Decodes(tab[..used], root, t, lens, n)
  {
    hide Pow2, Low, Shr, Huff, SymbolEntry;
    forall hold: nat | Low(hold, lens[n]) == Huff(lens, n)
      ensures Lookup(tab[..used], root, hold) == FoundSymbol(t, n, lens[n])
    {
      if lens[n] <= root {
        LowSplit(hold, lens[n], root - lens[n]);
        assert tab[Low(hold, root)] == SymbolEntry(t, n, lens[n]);
      } else {
        LinkDecodes(tab, used, t, lens, root, n, hold);
      }
    }
  }

  lemma LinkDecodes(tab: seq<Entry>, used: nat, t: CodeType, lens: seq<nat>, root: nat, n: nat, hold: nat)
    requires Used(lens, n) && n < MaxSymbols(t) && root < lens[n]
    requires Entered(tab, used, t, lens, root, n) && Low(hold, lens[n]) == Huff(lens, n)
    ensures Lookup(tab[..used], root, hold) == FoundSymbol(t, n, lens[n])
  {
    hide Pow2, Low, Shr, Huff, SymbolEntry, Lookup;
    SameSymbol(t, n, lens[n] - root, lens[n]);
    var e, h := tab[Low(hold, root)], Shr(hold, root);
    LowSplit(hold, root, lens[n] - root);
    LowSplit(hold, root, e.op);
    LowSplit(h, lens[n] - root, e.op - (lens[n] - root));
    var j := e.val + Low(h, e.op);
    assert tab[j] == SymbolEntry(t, n, lens[n] - root);
    LookupLink(tab[..used], root, hold, Low(hold, root), j);
  }

  lemma SameSymbol(t: CodeType, n: nat, a: nat, b: nat)
    requires n < MaxSymbols(t)
    ensures SymbolEntry(t, n, b) == SymbolEntry(t, n, a).(bits := b)
  {
  }

  lemma LookupLink(tab: seq<Entry>, root: nat, hold: nat, i: nat, j: nat)
    requires i == Low(hold, root) < |tab| && IsLink(tab[i])
    requires j == tab[i].val + Shr(Low(hold, tab[i].bits + tab[i].op), tab[i].bits) < |tab|
    ensures Lookup(tab, root, hold) == Found(tab[j].op, tab[j].val, tab[i].bits + tab[j].bits)
  {
  }

  /** The slots of a table [lo, lo + size) that a code fills, and no others, hold e. */
  ghost predicate FilledFrom(tab: seq<Entry>, tab': seq<Entry>, lo: nat, size: nat, bits: nat, index: nat, e: Entry) {
    && |tab'| == |tab|
    && forall x :: 0 <= x < |tab| ==> tab'[x] == if lo <= x < lo + size && Low(x - lo, bits) == index then e else tab[x]
  }

  ghost predicate SameHead(lens: seq<nat>, m: nat, n: nat, root: nat)
    requires Used(lens, m) && Used(lens, n)
  {
    root < lens[m] && root < lens[n] && Head(lens, m, root) == Head(lens, n, root)
  }

  /** A sub-table of curr bits has room for every later code with the same root bits. */
  ghost predicate Roomy(lens: seq<nat>, root: nat, k: nat, curr: nat)
    requires k < Symbols(lens)
  {
    forall j :: k <= j < Symbols(lens) && SameHead(lens, SymAt(lens, j), SymAt(lens, k), root) ==> LenAt(lens, j) <= root + curr
  }

  /** The table being filled when symbol k is about to be entered. */
  ghost predicate Current(tab: seq<Entry>, used: nat, lens: seq<nat>, root: nat, k: nat, next: nat, curr: nat, drop: nat, low: int)
    requires k < Symbols(lens)
  {
    && next + Pow2(curr) == used <= |tab|
    && if LenAt(lens, k) <= root then
         drop == 0 && curr == root && next == 0 && low == -1
       else
         && drop == root && Pow2(root) <= next
         && low == Low(Huff(lens, SymAt(lens, k)), root)
         && 1 <= curr <= 15 && LenAt(lens, k) <= root + curr
         && Roomy(lens, root, k, curr)
         && low < Pow2(root) && tab[low] == Entry(curr, root, next)
  }

  ghost predicate SymbolsFit(t: CodeType, lens: seq<nat>) {
    ValidLens(lens) && |lens| <= MaxSymbols(t) && Kraft(lens) <= UNIT
  }

  ghost predicate AllEntered(tab: seq<Entry>, used: nat, t: CodeType, lens: seq<nat>, root: nat, k: nat)
    requires SymbolsFit(t, lens) && k <= Symbols(lens)
  {
    forall j: nat :: j < k ==> Entered(tab, used, t, lens, root, SymAt(lens, j))
  }

  /** The sub-tables of earlier groups lie below the current one. */
  ghost predicate OthersBelow(tab: seq<Entry>, lens: seq<nat>, root: nat, k: nat, next: nat, low: int)
    requires k <= Symbols(lens) && Pow2(root) <= |tab|
  {
    forall j: nat :: j < k && LenAt(lens, j) > root ==>
      var p := Low(Huff(lens, SymAt(lens, j)), root);
      p == low || tab[p].val + Pow2(tab[p].op) <= next
  }

  /** Two codes with the same root bits fill different slots of their sub-table. */
  lemma SubSlotsApart(lens: seq<nat>, m: nat, n: nat, root: nat, x: nat)
    requires Used(lens, m) && Used(lens, n) && m != n && Kraft(lens) <= UNIT
    requires root < lens[m] && root < lens[n]
    requires Low(Huff(lens, m), root) == Low(Huff(lens, n), root)
    ensures !(Low(x, lens[m] - root) == Shr(Huff(lens, m), root) && Low(x, lens[n] - root) == Shr(Huff(lens, n), root))
  {
    hide Pow2, Low, Shr, Huff, Kraft;
    var low := Low(Huff(lens, m), root);
    HeadBound(lens, m, root);
    var hold := low + Pow2(root) * x;
    LowShr(x, low, root);
    LowSplit(hold, root, lens[m] - root);
    LowSplit(hold, root, lens[n] - root);
    LowPlusShr(Huff(lens, m), root);
    LowPlusShr(Huff(lens, n), root);
    HuffPrefixFree(lens, m, n, hold);
  }

  lemma SlotsApart(lens: seq<nat>, m: nat, n: nat, root: nat, x: nat)
    requires Used(lens, m) && Used(lens, n) && m != n && Kraft(lens) <= UNIT
    requires lens[m] <= root
    ensures lens[n] <= root && Low(x, lens[n]) == Huff(lens, n) ==> Low(x, lens[m]) != Huff(lens, m)
    ensures lens[n] > root && x == Low(Huff(lens, n), root) ==> Low(x, lens[m]) != Huff(lens, m)
  {
    HuffPrefixFree(lens, m, n, x);
    if lens[n] > root && x == Low(Huff(lens, n), root) {
      var h := Huff(lens, n);
      LowSplit(h, lens[m], root - lens[m]);
      LsbBound(Code(lens, n));
      LowSmall(h, lens[n]);
      HuffPrefixFree(lens, m, n, h);
    }
  }

  /** Entering symbol k leaves the earlier symbols where they are. */
  lemma EnterKeeps(tab: seq<Entry>, tab': seq<Entry>, used: nat, t: CodeType, lens: seq<nat>, root: nat,
                   j: nat, k: nat, next: nat, curr: nat, drop: nat, low: int)
    requires SymbolsFit(t, lens) && j < k < Symbols(lens)
    requires Entered(tab, used, t, lens, root, SymAt(lens, j))
    requires Current(tab, used, lens, root, k, next, curr, drop, low)
    requires OthersBelow(tab, lens, root, k, next, low)
    requires FilledFrom(tab, tab', next, Pow2(curr), LenAt(lens, k) - drop, Shr(Huff(lens, SymAt(lens, k)), drop),
                        SymbolEntry(t, SymAt(lens, k), LenAt(lens, k) - drop))
    ensures Entered(tab', used, t, lens, root, SymAt(lens, j))
  {
    hide Pow2, Low, Shr, Huff, SymbolEntry, StartOf, Kraft, Begin, Pos;
    var m, n := SymAt(lens, j), SymAt(lens, k);
    BeginMono(lens, j, k);
    assert m != n;
    if lens[m] <= root {
      forall x | 0 <= x < Pow2(root) && Low(x, lens[m]) == Huff(lens, m)
        ensures tab'[x] == SymbolEntry(t, m, lens[m])
      {
        SlotsApart(lens, m, n, root, x);
        if drop == 0 {
          ShrZero(Huff(lens, n));
        }
      }
    } else {
      var p := Low(Huff(lens, m), root);
      var e := tab[p];
      assert tab'[p] == e;
      forall x | e.val <= x < e.val + Pow2(e.op) && Low(x - e.val, lens[m] - root) == Shr(Huff(lens, m), root)
        ensures tab'[x] == SymbolEntry(t, m, lens[m] - root)
      {
        if p == low {
          SubSlotsApart(lens, m, n, root, x - e.val);
        }
      }
    }
  }

  lemma ShrZero(v: nat)
    ensures Shr(v, 0) == v
  {
    LowPlusShr(v, 0);
  }

  lemma EnterNew(tab: seq<Entry>, tab': seq<Entry>, used: nat, t: CodeType, lens: seq<nat>, root: nat,
                 k: nat, next: nat, curr: nat, drop: nat, low: int)
    requires SymbolsFit(t, lens) && k < Symbols(lens) && Pow2(root) <= used
    requires Current(tab, used, lens, root, k, next, curr, drop, low)
    requires FilledFrom(tab, tab', next, Pow2(curr), LenAt(lens, k) - drop, Shr(Huff(lens, SymAt(lens, k)), drop),
                        SymbolEntry(t, SymAt(lens, k), LenAt(lens, k) - drop))
    ensures Entered(tab', used, t, lens, root, SymAt(lens, k))
    ensures LenAt(lens, k) > root ==> tab'[low] == tab[low]
  {
    hide Pow2, Low, Shr, Huff, SymbolEntry, StartOf, Kraft, Begin, Pos, Roomy;
    ShrZero(Huff(lens, SymAt(lens, k)));
    HeadBound(lens, SymAt(lens, k), root);
  }

  lemma HeadBound(lens: seq<nat>, n: nat, root: nat)
    requires Used(lens, n)
    ensures Low(Huff(lens, n), root) < Pow2(root)
  {
  }

  // ---- what inflate_table promises ----

  function TopLength(lens: seq<nat>, l: nat): nat {
    if l == 0 || Count(lens, l) != 0 then l else TopLength(lens, l - 1)
  }

  function MaxLen(lens: seq<nat>): nat {
    TopLength(lens, MAXBITS)
  }

  function LowLength(lens: seq<nat>, l: nat, max: nat): (r: nat)
    requires l <= max
    ensures l <= r <= max
    decreases max - l
  {
    if l < max && Count(lens, l) == 0 then LowLength(lens, l + 1, max) else l
  }

  /** The requested index bits, forced within the code lengths. */
  function RootBits(lens: seq<nat>, bits: nat): nat
    requires MaxLen(lens) >= 1
  {
    var max := MaxLen(lens);
    var r := if bits > max then max else bits;
    var min := LowLength(lens, 1, max);
    if r < min then min else r
  }

  /** Over-subscribed, or incomplete where that is not allowed. */
  predicate Rejected(t: CodeType, lens: seq<nat>) {
    Kraft(lens) > UNIT || (0 < Kraft(lens) < UNIT && (t == CODES || MaxLen(lens) != 1))
  }

  lemma {:induction false} TopLengthIs(lens: seq<nat>, l: nat, i: nat)
    requires l <= MAXBITS && 1 <= i <= l
    ensures TopLength(lens, l) <= l
    ensures Count(lens, i) != 0 ==> i <= TopLength(lens, l)
    ensures TopLength(lens, l) == 0 || Count(lens, TopLength(lens, l)) != 0
  {
    if l > 1 && Count(lens, l) == 0 {
      TopLengthIs(lens, l - 1, if i < l then i else 1);
    }
  }

  lemma LenAtMost(lens: seq<nat>, k: nat)
    requires k < Symbols(lens)
    ensures LenAt(lens, k) <= MaxLen(lens) <= MAXBITS
  {
    CountWithin(lens, SymAt(lens, k));
    TopLengthIs(lens, MAXBITS, LenAt(lens, k));
  }

  /** The look-ahead that sizes a sub-table. */
  ghost function CurrFrom(lens: seq<nat>, root: nat, k: nat, c: nat): (r: nat)
    requires k < Symbols(lens) && root + c <= MAXBITS
    ensures c <= r && root + r <= MAXBITS
    ensures root + r >= MaxLen(lens) || StartOf(lens, root + r + 1) - Begin(lens, k) >= Width(root)
    decreases MAXBITS - c
  {
    if root + c >= MAXBITS || root + c >= MaxLen(lens) || StartOf(lens, root + c + 1) - Begin(lens, k) >= Width(root)
    then TopLengthIs(lens, MAXBITS, 1); c
    else CurrFrom(lens, root, k, c + 1)
  }

  ghost predicate NewGroup(lens: seq<nat>, root: nat, k: nat)
    requires 1 <= k < Symbols(lens)
  {
    LenAt(lens, k) > root && !SameHead(lens, SymAt(lens, k - 1), SymAt(lens, k), root)
  }

  /** Entries allocated by the time symbol k is entered. */
  ghost function UsedUpTo(lens: seq<nat>, root: nat, k: nat): nat
    requires k < Symbols(lens)
  {
    if k == 0 then Pow2(root)
    else UsedUpTo(lens, root, k - 1)
         + if NewGroup(lens, root, k) then Pow2(CurrFrom(lens, root, k, LenAt(lens, k) - root)) else 0
  }

  ghost function TableSize(lens: seq<nat>, root: nat): nat
    requires Symbols(lens) > 0
  {
    UsedUpTo(lens, root, Symbols(lens) - 1)
  }

  lemma {:induction false} UsedGrows(lens: seq<nat>, root: nat, j: nat, k: nat)
    requires j <= k < Symbols(lens)
    ensures UsedUpTo(lens, root, j) <= UsedUpTo(lens, root, k)
    decreases k
  {
    if j < k {
      UsedGrows(lens, root, j, k - 1);
    }
  }

  function Room(t: CodeType): nat {
    match t
    case CODES => 128
    case LENS => ENOUGH_LENS
    case DISTS => ENOUGH_DISTS
  }

  /** A table that decodes a set of lengths: every symbol is found from its code;
      an empty set, and the other half of a lone one-bit code, decode as invalid.
      A link is followed only once all root bits are there. */
  ghost predicate TableFor(tab: seq<Entry>, root: nat, t: CodeType, lens: seq<nat>)
    requires |lens| <= MaxSymbols(t)
  {
    if MaxLen(lens) == 0 then root == 1 && tab == [INVALID, INVALID]
    else
      && (forall n :: Used(lens, n) ==> Decodes(tab, root, t, lens, n))
      && (Kraft(lens) < UNIT ==> root == 1 && |tab| == 2 && MaxLen(lens) == 1 && tab[1] == INVALID)
      && LinksWhole(tab, root)
  }

  ghost predicate LinksWhole(tab: seq<Entry>, root: nat) {
    forall i :: 0 <= i < |tab| && i < Pow2(root) && IsLink(tab[i]) ==> tab[i].bits == root
  }

  // ---- sub-tables ----

  lemma BeginAbove(lens: seq<nat>, j: nat)
    requires j < Symbols(lens)
    ensures StartOf(lens, LenAt(lens, j)) <= Begin(lens, j)
  {
  }

  lemma RoomyCurr(lens: seq<nat>, root: nat, k: nat, c: nat)
    requires Kraft(lens) <= UNIT && k < Symbols(lens) && LenAt(lens, k) <= root + c <= MAXBITS
    requires root + c >= MaxLen(lens) || StartOf(lens, root + c + 1) - Begin(lens, k) >= Width(root)
    ensures Roomy(lens, root, k, c)
  {
    hide Kraft, StartOf, Begin, Head, Width, Pow2, Offs, MaxLen;
    forall j | k <= j < Symbols(lens) && SameHead(lens, SymAt(lens, j), SymAt(lens, k), root)
      ensures LenAt(lens, j) <= root + c
    {
      LenAtMost(lens, j);
      HeadApart(lens, k, j, root);
      if LenAt(lens, j) > root + c {
        StartOfMono(lens, root + c + 1, LenAt(lens, j));
        BeginAbove(lens, j);
      }
    }
  }

  /** Linking a new sub-table for symbol k from the root table. */
  lemma NewSubTable(tab: seq<Entry>, used: nat, t: CodeType, lens: seq<nat>, root: nat, k: nat, curr: nat)
    requires SymbolsFit(t, lens) && 1 <= k < Symbols(lens) && 1 <= curr <= 15
    requires AllEntered(tab, used, t, lens, root, k) && Pow2(root) <= used && 1 <= root
    requires NewGroup(lens, root, k) && Roomy(lens, root, k, curr) && LenAt(lens, k) <= root + curr
    requires used + Pow2(curr) <= |tab|
    ensures var low := Low(Huff(lens, SymAt(lens, k)), root);
      var tab' := tab[low := Entry(curr, root, used)];
      && AllEntered(tab', used + Pow2(curr), t, lens, root, k)
      && Current(tab', used + Pow2(curr), lens, root, k, used, curr, root, low)
      && OthersBelow(tab', lens, root, k, used, low)
  {
    hide Pow2, Low, Shr, Huff, SymbolEntry, StartOf, Kraft, Begin, Pos, Entered, Head, SameHead;
    var n := SymAt(lens, k);
    var low := Low(Huff(lens, n), root);
    var tab' := tab[low := Entry(curr, root, used)];
    HeadHuff(lens, n, n, root);
    forall j: nat | j < k
      ensures Entered(tab', used + Pow2(curr), t, lens, root, SymAt(lens, j))
      ensures LenAt(lens, j) > root ==> Low(Huff(lens, SymAt(lens, j)), root) != low
      ensures LenAt(lens, j) > root ==> var e := tab[Low(Huff(lens, SymAt(lens, j)), root)]; e.val + Pow2(e.op) <= used
    {
      assert Entered(tab, used, t, lens, root, SymAt(lens, j));
      LinkKeeps(tab, used, t, lens, root, j, k, curr);
    }
  }

  lemma LinkKeeps(tab: seq<Entry>, used: nat, t: CodeType, lens: seq<nat>, root: nat, j: nat, k: nat, curr: nat)
    requires SymbolsFit(t, lens) && j < k < Symbols(lens) && used + Pow2(curr) <= |tab|
    requires Entered(tab, used, t, lens, root, SymAt(lens, j)) && NewGroup(lens, root, k)
    requires Low(Huff(lens, SymAt(lens, k)), root) < Pow2(root)
    ensures var low := Low(Huff(lens, SymAt(lens, k)), root);
      && Entered(tab[low := Entry(curr, root, used)], used + Pow2(curr), t, lens, root, SymAt(lens, j))
      && (LenAt(lens, j) > root ==> Low(Huff(lens, SymAt(lens, j)), root) != low)
    ensures LenAt(lens, j) > root ==> var e := tab[Low(Huff(lens, SymAt(lens, j)), root)]; e.val + Pow2(e.op) <= used
  {
    hide Pow2, Low, Shr, Huff, SymbolEntry, StartOf, Kraft, Begin, Pos, Head;
    var m, n := SymAt(lens, j), SymAt(lens, k);
    BeginMono(lens, j, k);
    assert m != n;
    if lens[m] <= root {
      SlotsApart(lens, m, n, root, Low(Huff(lens, n), root));
    } else {
      HeadHuff(lens, m, n, root);
      if Head(lens, m, root) == Head(lens, n, root) {
        BeginMono(lens, j, k - 1);
        BeginMono(lens, k - 1, k);
        HeadContiguous(lens, j, k - 1, k, root);
      }
    }
  }

  /** Entering symbol k in the current table. */
  lemma EnterSymbol(tab: seq<Entry>, tab': seq<Entry>, used: nat, t: CodeType, lens: seq<nat>, root: nat,
                    k: nat, next: nat, curr: nat, drop: nat, low: int)
    requires SymbolsFit(t, lens) && k < Symbols(lens) && Pow2(root) <= used
    requires AllEntered(tab, used, t, lens, root, k)
    requires Current(tab, used, lens, root, k, next, curr, drop, low)
    requires OthersBelow(tab, lens, root, k, next, low)
    requires FilledFrom(tab, tab', next, Pow2(curr), LenAt(lens, k) - drop, Shr(Huff(lens, SymAt(lens, k)), drop),
                        SymbolEntry(t, SymAt(lens, k), LenAt(lens, k) - drop))
    ensures AllEntered(tab', used, t, lens, root, k + 1)
  {
    hide Pow2, Low, Shr, Huff, SymbolEntry, StartOf, Kraft, Begin, Pos, Entered, FilledFrom;
    EnterNew(tab, tab', used, t, lens, root, k, next, curr, drop, low);
    forall j: nat | j < k
      ensures Entered(tab', used, t, lens, root, SymAt(lens, j))
    {
      assert Entered(tab, used, t, lens, root, SymAt(lens, j));
      EnterKeeps(tab, tab', used, t, lens, root, j, k, next, curr, drop, low);
    }
  }

  lemma EnterBelow(tab: seq<Entry>, tab': seq<Entry>, used: nat, t: CodeType, lens: seq<nat>, root: nat,
                   k: nat, next: nat, curr: nat, drop: nat, low: int)
    requires SymbolsFit(t, lens) && k < Symbols(lens) && Pow2(root) <= used
    requires Current(tab, used, lens, root, k, next, curr, drop, low)
    requires OthersBelow(tab, lens, root, k, next, low)
    requires |tab'| == |tab| && (LenAt(lens, k) > root ==> forall x :: 0 <= x < Pow2(root) ==> tab'[x] == tab[x])
    ensures OthersBelow(tab', lens, root, k + 1, next, low)
  {
    hide Pow2, Low, Shr, Huff, StartOf, Kraft, Begin, Pos;
    forall j: nat | j < k + 1 && LenAt(lens, j) > root
      ensures Low(Huff(lens, SymAt(lens, j)), root) < Pow2(root)
      ensures j < k ==> LenAt(lens, k) > root
    {
      HeadHuff(lens, SymAt(lens, j), SymAt(lens, j), root);
      BeginMono(lens, j, k);
    }
  }

  /** Symbol k+1 goes on in the current table unless it starts a new group. */
  lemma SameTable(tab: seq<Entry>, tab': seq<Entry>, used: nat, lens: seq<nat>, root: nat,
                  k: nat, next: nat, curr: nat, drop: nat, low: int)
    requires k + 1 < Symbols(lens) && Kraft(lens) <= UNIT
    requires Current(tab, used, lens, root, k, next, curr, drop, low)
    requires |tab'| == |tab| && forall x :: 0 <= x < Pow2(root) && LenAt(lens, k) > root ==> tab'[x] == tab[x]
    ensures LenAt(lens, k + 1) > root ==> (Low(Huff(lens, SymAt(lens, k + 1)), root) == low <==> !NewGroup(lens, root, k + 1))
    ensures LenAt(lens, k + 1) <= root || !NewGroup(lens, root, k + 1)
      ==> Current(tab', used, lens, root, k + 1, next, curr, drop, low)
  {
    hide Pow2, Low, Shr, Huff, StartOf, Kraft, Begin, Pos, Code;
    BeginMono(lens, k, k + 1);
    var n, m := SymAt(lens, k), SymAt(lens, k + 1);
    if lens[m] > root && lens[n] > root {
      HeadHuff(lens, n, m, root);
    }
  }

  // ---- the loops of inflate_table ----

  method CountLengths(lens: seq<nat>) returns (count: array<nat>)
    requires ValidLens(lens)
    ensures fresh(count) && count.Length == MAXBITS + 1
    ensures forall l :: 0 <= l <= MAXBITS ==> count[l] == Count(lens, l)
  {
    count := new nat[MAXBITS + 1];
    for len := 0 to MAXBITS + 1
      invariant forall l :: 0 <= l < len ==> count[l] == 0
    {
      count[len] := 0;
    }
    for sym := 0 to |lens|
      invariant forall l :: 0 <= l <= MAXBITS ==> count[l] == Count(lens[..sym], l)
    {
      forall l | 0 <= l <= MAXBITS
        ensures Count(lens[..sym + 1], l) == Count(lens[..sym], l) + if lens[sym] == l then 1 else 0
      {
        CountStep(lens, l, sym);
      }
      count[lens[sym]] := count[lens[sym]] + 1;
    }
    assert lens[..|lens|] == lens;
  }

  /** The over-subscription check: the code space left, or negative. */
  method CodeSpaceLeft(count: array<nat>, ghost lens: seq<nat>) returns (left: int)
    requires count.Length == MAXBITS + 1 && forall l :: 0 <= l <= MAXBITS ==> count[l] == Count(lens, l)
    ensures Kraft(lens) > UNIT ==> left < 0
    ensures Kraft(lens) <= UNIT ==> left == UNIT - Kraft(lens)
  {
    left := 1;
    Pow2Values();
    for len := 1 to MAXBITS + 1
      invariant left >= 0
      invariant left * Width(len - 1) == UNIT - StartOf(lens, len)
    {
      LeftStep(left, Width(len), count[len]);
      left := left * 2;
      left := left - count[len];
      if left < 0 {
        NegativeProduct(left, Width(len));
        StartOfMono(lens, len + 1, MAXBITS + 1);
        return;
      }
    }
  }

  lemma LeftStep(left: int, w: nat, c: nat)
    ensures (left * 2 - c) * w == left * (2 * w) - c * w
  {
  }

  lemma NegativeProduct(a: int, w: nat)
    requires w >= 1
    ensures a < 0 <==> a * w < 0
    ensures a <= 0 <==> a * w <= 0
  {
  }

  ghost predicate SortedWork(lens: seq<nat>, work: seq<nat>) {
    && Symbols(lens) <= |work|
    && forall n :: Used(lens, n) ==> Pos(lens, n) < |work| && work[Pos(lens, n)] == n
  }

  /** Counting sort by length, then by symbol. */
  method SortSymbols(lens: seq<nat>, count: array<nat>) returns (work: array<nat>)
    requires ValidLens(lens)
    requires count.Length == MAXBITS + 1 && forall l :: 0 <= l <= MAXBITS ==> count[l] == Count(lens, l)
    ensures fresh(work) && SortedWork(lens, work[..])
  {
    var offs := Offsets(lens, count);
    SymbolsBound(lens, MAXBITS + 1);
    work := new nat[|lens|];
    NonePlaced(lens, offs[..], work[..]);
    PlaceSymbols(lens, offs, work);
  }

  /** Put every used symbol where its length has the next place. */
  method PlaceSymbols(lens: seq<nat>, offs: array<nat>, work: array<nat>)
    requires ValidLens(lens) && offs != work && offs.Length == MAXBITS + 1 && Symbols(lens) <= work.Length
    requires NextFree(lens, offs[..], 0) && PlacedBelow(lens, work[..], 0)
    modifies offs, work
    ensures PlacedBelow(lens, work[..], |lens|)
  {
    hide NextFree, PlacedBelow, Offs, Count, Pow2, Symbols;
    for sym := 0 to |lens|
      invariant NextFree(lens, offs[..], sym)
      invariant PlacedBelow(lens, work[..], sym)
    {
      if lens[sym] != 0 {
        ghost var o, v := offs[..], work[..];
        PlaceNext(lens, o, v, sym);
        work[offs[lens[sym]]] := sym;
        offs[lens[sym]] := offs[lens[sym]] + 1;
        assert work[..] == v[o[lens[sym]] := sym] && offs[..] == o[lens[sym] := o[lens[sym]] + 1];
      } else {
        PlaceNone(lens, offs[..], work[..], sym);
      }
    }
  }

  /** Where the symbols of each length begin. */
  method Offsets(lens: seq<nat>, count: array<nat>) returns (offs: array<nat>)
    requires count.Length == MAXBITS + 1 && forall l :: 0 <= l <= MAXBITS ==> count[l] == Count(lens, l)
    ensures fresh(offs) && offs.Length == MAXBITS + 1 && forall l :: 1 <= l <= MAXBITS ==> offs[l] == Offs(lens, l)
  {
    hide Count;
    offs := new nat[MAXBITS + 1];
    offs[1] := 0;
    for len := 1 to MAXBITS
      invariant forall l :: 1 <= l <= len ==> offs[l] == Offs(lens, l)
    {
      offs[len + 1] := offs[len] + count[len];
    }
  }

  lemma NonePlaced(lens: seq<nat>, offs: seq<nat>, work: seq<nat>)
    requires |offs| == MAXBITS + 1 && forall l :: 1 <= l <= MAXBITS ==> offs[l] == Offs(lens, l)
    ensures NextFree(lens, offs, 0) && PlacedBelow(lens, work, 0)
  {
    forall l | 1 <= l <= MAXBITS
      ensures Count(lens[..0], l) == 0
    {
    }
  }

  ghost predicate NextFree(lens: seq<nat>, offs: seq<nat>, sym: nat)
    requires |offs| == MAXBITS + 1 && sym <= |lens|
  {
    forall l :: 1 <= l <= MAXBITS ==> offs[l] == Offs(lens, l) + Count(lens[..sym], l)
  }

  ghost predicate PlacedBelow(lens: seq<nat>, work: seq<nat>, sym: nat) {
    forall n :: Used(lens, n) && n < sym ==> Pos(lens, n) < |work| && work[Pos(lens, n)] == n
  }

  lemma PlaceNext(lens: seq<nat>, offs: seq<nat>, work: seq<nat>, sym: nat)
    requires |offs| == MAXBITS + 1 && Used(lens, sym) && Symbols(lens) <= |work|
    requires NextFree(lens, offs, sym) && PlacedBelow(lens, work, sym)
    ensures offs[lens[sym]] < |work|
    ensures NextFree(lens, offs[lens[sym] := offs[lens[sym]] + 1], sym + 1)
    ensures PlacedBelow(lens, work[offs[lens[sym]] := sym], sym + 1)
  {
    PosBound(lens, sym);
    forall l | 1 <= l <= MAXBITS
      ensures Count(lens[..sym + 1], l) == Count(lens[..sym], l) + if lens[sym] == l then 1 else 0
    {
      CountStep(lens, l, sym);
    }
    forall n | Used(lens, n) && n < sym
      ensures Pos(lens, n) != Pos(lens, sym)
    {
      PosInjective(lens, n, sym);
    }
  }

  lemma PlaceNone(lens: seq<nat>, offs: seq<nat>, work: seq<nat>, sym: nat)
    requires |offs| == MAXBITS + 1 && sym < |lens| && lens[sym] == 0
    requires NextFree(lens, offs, sym) && PlacedBelow(lens, work, sym)
    ensures NextFree(lens, offs, sym + 1) && PlacedBelow(lens, work, sym + 1)
  {
    forall l | 1 <= l <= MAXBITS
      ensures Count(lens[..sym + 1], l) == Count(lens[..sym], l)
    {
      CountStep(lens, l, sym);
    }
  }

  lemma {:induction false} SymbolsBound(lens: seq<nat>, l: nat)
    ensures Offs(lens, l) <= |lens|
  {
    if lens == [] {
      NoneIn(l);
    } else {
      SymbolsBound(lens[..|lens| - 1], l);
      OffsDrop(lens, l);
    }
  }

  lemma {:induction false} NoneIn(l: nat)
    ensures Offs([], l) == 0
  {
    if l > 1 { NoneIn(l - 1); }
  }

  lemma {:induction false} OffsDrop(lens: seq<nat>, l: nat)
    requires lens != []
    ensures Offs(lens, l) == Offs(lens[..|lens| - 1], l) + if 1 <= lens[|lens| - 1] < l then 1 else 0
  {
    if l > 1 { OffsDrop(lens, l - 1); }
  }

  /** Replicate an entry over the indices whose low bits are the code. */
  method Replicate(table: array<Entry>, at: nat, next: nat, index: nat, bits: nat, curr: nat, here: Entry)
    requires bits <= curr && index < Pow2(bits) && at + next + Pow2(curr) <= table.Length
    modifies table
    ensures table[..at] == old(table[..at])
    ensures FilledFrom(old(table[at..]), table[at..], next, Pow2(curr), bits, index, here)
  {
    var incr := Pow2(bits);
    var fill: nat := Pow2(curr);
    ghost var m: nat := Pow2(curr - bits);
    Pow2Add(curr - bits, bits);
    MulComm(m, incr);
    while fill != 0
      invariant fill == incr * m <= Pow2(curr)
      invariant table[..at] == old(table[..at])
      invariant forall y :: at <= y < table.Length ==>
        table[y] == if at + next + fill <= y < at + next + Pow2(curr) && Low(y - at - next, bits) == index
                    then here else old(table[y])
      decreases m
    {
      SlotsOfRow(m, incr, bits, index);
      m := m - 1;
      fill := fill - incr;
      table[at + next + index + fill] := here;
    }
  }

  /** Each row of 2^bits slots holds exactly one slot of a given residue. */
  lemma SlotsOfRow(m: nat, incr: nat, bits: nat, index: nat)
    requires m == 0 ==> incr * m != 0
    requires incr == Pow2(bits) && index < incr
    ensures m >= 1 && incr * m == incr * (m - 1) + incr
    ensures forall y: nat :: incr * (m - 1) <= y < incr * m ==> (Low(y, bits) == index <==> y == incr * (m - 1) + index)
  {
    assert incr * m == incr * (m - 1) + incr;
    hide Pow2, Low;
    forall y: nat | incr * (m - 1) <= y < incr * m
      ensures Low(y, bits) == index <==> y == incr * (m - 1) + index
    {
      LowShr(m - 1, y - incr * (m - 1), bits);
    }
  }

  ghost predicate CountsLeft(count: seq<nat>, lens: seq<nat>, k: nat, len: nat)
    requires |count| == MAXBITS + 1
  {
    forall l :: len <= l <= MAXBITS ==> count[l] == if l == len then Offs(lens, len + 1) - k else Count(lens, l)
  }

  lemma LeftCount(count: seq<nat>, lens: seq<nat>, k: nat, len: nat, l: nat)
    requires |count| == MAXBITS + 1 && CountsLeft(count, lens, k, len) && len <= l <= MAXBITS
    ensures count[l] == if l == len then Offs(lens, len + 1) - k else Count(lens, l)
  {
  }

  /** How many bits the next sub-table needs. */
  method SubTableBits(count: array<nat>, ghost lens: seq<nat>, root: nat, ghost k: nat, len: nat, max: nat) returns (curr: nat)
    requires count.Length == MAXBITS + 1 && k < Symbols(lens) && len == LenAt(lens, k) > root
    requires max == MaxLen(lens) && Offs(lens, len) <= k < Offs(lens, len + 1)
    requires CountsLeft(count[..], lens, k, len)
    ensures curr == CurrFrom(lens, root, k, len - root)
  {
    hide Looking, Pow2, Width, StartOf, Begin, CountsLeft, Count, Offs;
    curr := len - root;
    var left: int := Pow2(curr);
    LenAtMost(lens, k);
    LookStart(lens, root, k, len);
    while curr + root < max
      invariant len <= curr + root <= max
      invariant left > 0
      invariant Looking(lens, root, k, len, curr + root, left)
      invariant CurrFrom(lens, root, k, len - root) == CurrFrom(lens, root, k, curr)
      decreases max - curr
    {
      LeftCount(count[..], lens, k, len, curr + root);
      LookMore(lens, root, k, len, curr + root, left, count[curr + root]);
      left := left - count[curr + root];
      if left <= 0 {
        break;
      }
      curr := curr + 1;
      left := left * 2;
    }
  }

  /** Code space used by the codes from symbol k on that are shorter than l. */
  ghost function TakenBelow(lens: seq<nat>, k: nat, len: nat, l: nat): int
    requires k < Symbols(lens) && 1 <= l <= MAXBITS + 1
  {
    if l == len then 0 else StartOf(lens, l) - Begin(lens, k)
  }

  /** left counts the codes of length l that still fit in the sub-table. */
  ghost predicate Looking(lens: seq<nat>, root: nat, k: nat, len: nat, l: nat, left: int)
    requires k < Symbols(lens) && 1 <= l <= MAXBITS && root <= MAXBITS
  {
    left * Width(l) == Width(root) - TakenBelow(lens, k, len, l)
  }

  lemma LookStart(lens: seq<nat>, root: nat, k: nat, len: nat)
    requires k < Symbols(lens) && root < len <= MAXBITS
    ensures Looking(lens, root, k, len, len, Pow2(len - root))
  {
    hide Pow2, StartOf, Begin;
    Pow2Add(len - root, MAXBITS - len);
  }

  lemma LookMore(lens: seq<nat>, root: nat, k: nat, len: nat, l: nat, left: int, c: int)
    requires k < Symbols(lens) && len == LenAt(lens, k) <= l < MAXBITS && root <= MAXBITS
    requires Offs(lens, len) <= k < Offs(lens, len + 1)
    requires c == if l == len then Offs(lens, len + 1) - k else Count(lens, l)
    requires Looking(lens, root, k, len, l, left)
    ensures left - c <= 0 <==> StartOf(lens, l + 1) - Begin(lens, k) >= Width(root)
    ensures Looking(lens, root, k, len, l + 1, (left - c) * 2)
  {
    LookStep(lens, k, len, l, left, c);
    assert Width(l) == 2 * Width(l + 1);
    hide Pow2, Width, StartOf, Begin;
    NegativeProduct(left - c, Width(l));
    LeftStep(left - c, Width(l + 1), 0);
  }

  lemma LookStep(lens: seq<nat>, k: nat, len: nat, l: nat, left: int, c: int)
    requires k < Symbols(lens) && len == LenAt(lens, k) <= l <= MAXBITS
    requires Offs(lens, len) <= k < Offs(lens, len + 1)
    requires c == if l == len then Offs(lens, len + 1) - k else Count(lens, l)
    ensures (left - c) * Width(l) == left * Width(l) + TakenBelow(lens, k, len, l) - (StartOf(lens, l + 1) - Begin(lens, k))
  {
    BeginWithin(lens, k, len);
    Distribute(k - Offs(lens, len), Offs(lens, len + 1) - k, Width(len));
    hide Pow2, Width;
    Distribute(left - c, c, Width(l));
  }

  // ---- inflate_table ----

  predicate TooBig(t: CodeType, used: nat) {
    (t == LENS && used > ENOUGH_LENS) || (t == DISTS && used > ENOUGH_DISTS)
  }

  /** The whole state of the filling loop when symbol k is about to be entered. */
  ghost predicate Filling(tab: seq<Entry>, used: nat, t: CodeType, lens: seq<nat>, root: nat, k: nat,
                          next: nat, curr: nat, drop: nat, low: int)
    requires SymbolsFit(t, lens)
  {
    && k < Symbols(lens) && Pow2(root) <= used <= |tab| && 1 <= root <= MAXBITS
    && used == UsedUpTo(lens, root, k) && !TooBig(t, used)
    && AllEntered(tab, used, t, lens, root, k)
    && Current(tab, used, lens, root, k, next, curr, drop, low)
    && OthersBelow(tab, lens, root, k, next, low)
  }

  /** Where symbol k sits in the sorted list. */
  ghost predicate Scanning(count: seq<nat>, lens: seq<nat>, k: nat, len: nat)
    requires |count| == MAXBITS + 1
  {
    && k < Symbols(lens) && len == LenAt(lens, k)
    && Offs(lens, len) <= k < Offs(lens, len + 1)
    && CountsLeft(count, lens, k, len)
  }

  lemma ShrHuffBound(lens: seq<nat>, n: nat, drop: nat)
    requires Used(lens, n) && drop <= lens[n]
    ensures Shr(Huff(lens, n), drop) < Pow2(lens[n] - drop)
  {
    LsbSplit(Code(lens, n), drop);
    LsbBound(Code(lens, n)[drop..]);
  }

  /** Moving on to the next symbol keeps the look-ahead counts right. */
  lemma ScanNext(count: seq<nat>, lens: seq<nat>, k: nat, len: nat)
    requires |count| == MAXBITS + 1 && Scanning(count, lens, k, len)
    ensures count[len] >= 1
    ensures count[len] > 1 ==> k + 1 < Symbols(lens) && Scanning(count[len := count[len] - 1], lens, k + 1, len)
    ensures count[len] == 1 && len == MaxLen(lens) ==> k + 1 == Symbols(lens)
    ensures count[len] == 1 && len < MaxLen(lens) ==>
      k + 1 < Symbols(lens) && Scanning(count[len := 0], lens, k + 1, LenAt(lens, k + 1))
  {
    hide Count, StartOf, Pow2, Begin;
    LenAtMost(lens, k);
    BeginWithin(lens, k + 1, len);
    if count[len] == 1 {
      if len < MaxLen(lens) {
        ScanAgain(count, lens, k, len);
      } else {
        NoneAbove(lens, MAXBITS + 1);
      }
    }
  }

  /** The last code of a length is followed by the first of a longer one. */
  lemma ScanAgain(count: seq<nat>, lens: seq<nat>, k: nat, len: nat)
    requires |count| == MAXBITS + 1 && Scanning(count, lens, k, len) && count[len] == 1 && len < MaxLen(lens)
    ensures k + 1 < Symbols(lens) && Scanning(count[len := 0], lens, k + 1, LenAt(lens, k + 1))
  {
    hide Count, StartOf, Pow2, Begin;
    LenAtMost(lens, k);
    BeginWithin(lens, k + 1, len);
    TopLengthIs(lens, MAXBITS, 1);
    OffsMono(lens, MaxLen(lens), MaxLen(lens) + 1);
    OffsMono(lens, len + 1, MaxLen(lens));
    OffsMono(lens, MaxLen(lens) + 1, MAXBITS + 1);
    var m := SymAt(lens, k + 1);
    PosBound(lens, m);
    OffsMono(lens, len + 1, lens[m]);
  }

  lemma {:induction false} NoneAbove(lens: seq<nat>, l: nat)
    requires MaxLen(lens) < l <= MAXBITS + 1
    ensures Offs(lens, l) == Offs(lens, MaxLen(lens) + 1)
  {
    if l > MaxLen(lens) + 1 {
      NoneAbove(lens, l - 1);
      TopLengthIs(lens, MAXBITS, l - 1);
    }
  }

  /** Without a new group, the same table goes on. */
  lemma FillOn(tab: seq<Entry>, tab': seq<Entry>, used: nat, t: CodeType, lens: seq<nat>, root: nat, k: nat,
               next: nat, curr: nat, drop: nat, low: int)
    requires SymbolsFit(t, lens) && Filling(tab, used, t, lens, root, k, next, curr, drop, low)
    requires FilledFrom(tab, tab', next, Pow2(curr), LenAt(lens, k) - drop, Shr(Huff(lens, SymAt(lens, k)), drop),
                        SymbolEntry(t, SymAt(lens, k), LenAt(lens, k) - drop))
    ensures AllEntered(tab', used, t, lens, root, k + 1)
    ensures k + 1 < Symbols(lens) && LenAt(lens, k + 1) > root
      ==> (Low(Huff(lens, SymAt(lens, k + 1)), root) == low <==> !NewGroup(lens, root, k + 1))
    ensures k + 1 < Symbols(lens) && (LenAt(lens, k + 1) <= root || !NewGroup(lens, root, k + 1))
      ==> Filling(tab', used, t, lens, root, k + 1, next, curr, drop, low)
  {
    hide Entered, Huff, SymbolEntry, Low, Shr, Pow2, StartOf, Kraft, Begin, Pos, Roomy, SameHead;
    EnterSymbol(tab, tab', used, t, lens, root, k, next, curr, drop, low);
    EnterBelow(tab, tab', used, t, lens, root, k, next, curr, drop, low);
    if k + 1 < Symbols(lens) {
      SameTable(tab, tab', used, lens, root, k, next, curr, drop, low);
    }
  }

  /** With a new group, a sub-table is linked and becomes the current one. */
  lemma FillNew(tab: seq<Entry>, used: nat, t: CodeType, lens: seq<nat>, root: nat, k: nat, curr: nat)
    requires SymbolsFit(t, lens) && 1 <= k < Symbols(lens) && Pow2(root) <= used <= |tab| && 1 <= root <= MAXBITS
    requires AllEntered(tab, used, t, lens, root, k) && used == UsedUpTo(lens, root, k - 1)
    requires NewGroup(lens, root, k) && curr == CurrFrom(lens, root, k, LenAt(lens, k) - root)
    requires !TooBig(t, used + Pow2(curr)) && used + Pow2(curr) <= |tab|
    ensures var low := Low(Huff(lens, SymAt(lens, k)), root);
      && low < |tab|
      && Filling(tab[low := Entry(curr, root, used)], used + Pow2(curr), t, lens, root, k, used, curr, root, low)
  {
    hide Entered, CurrFrom, AllEntered, OthersBelow, Current, Pow2, Symbols, Huff, SymbolEntry, Low, Shr, StartOf, Kraft, Begin, Pos, Roomy, SameHead;
    RoomyCurr(lens, root, k, curr);
    HeadBound(lens, SymAt(lens, k), root);
    UsedStep(lens, root, k);
    NewSubTable(tab, used, t, lens, root, k, curr);
  }

  lemma FillStart(tab: seq<Entry>, t: CodeType, lens: seq<nat>, root: nat)
    requires SymbolsFit(t, lens) && 0 < Symbols(lens) && 1 <= root <= MAXBITS
    requires LenAt(lens, 0) <= root && Pow2(root) <= |tab| && !TooBig(t, Pow2(root))
    ensures Filling(tab, Pow2(root), t, lens, root, 0, 0, root, 0, -1)
  {
  }

  /** Build the entry for a symbol. */
  method MakeEntry(t: CodeType, sym: nat, bits: nat) returns (here: Entry)
    requires sym < MaxSymbols(t)
    ensures here == SymbolEntry(t, sym, bits)
  {
    var end: int := match t case CODES => 19 case LENS => 256 case DISTS => -1;
    if sym < end {
      here := Entry(0, bits, sym);
    } else if sym > end {
      if t == LENS {
        here := Entry(LEXT[sym - 257], bits, LBASE[sym - 257]);
      } else {
        here := Entry(DEXT[sym], bits, DBASE[sym]);
      }
    } else {
      here := Entry(32 + 64, bits, 0);
    }
  }

  /** Go to the next symbol, update count and len; done after the last one. */
  method NextSymbol(lens: seq<nat>, count: array<nat>, work: array<nat>, k: nat, len: nat, max: nat)
    returns (done: bool, len': nat)
    requires ValidLens(lens) && SortedWork(lens, work[..]) && max == MaxLen(lens) && count != work
    requires count.Length == MAXBITS + 1 && Scanning(count[..], lens, k, len)
    modifies count
    ensures done ==> k + 1 == Symbols(lens)
    ensures !done ==> k + 1 < Symbols(lens) && Scanning(count[..], lens, k + 1, len')
  {
    hide SortedWork, Scanning, MaxLen;
    ScanNext(count[..], lens, k, len);
    ScanBounds(count[..], lens, k, len);
    count[len] := count[len] - 1;
    len' := len;
    if count[len] == 0 {
      if len == max {
        return true, len;
      }
      WorkAt(lens, work[..], k + 1);
      len' := lens[work[k + 1]];
    }
    done := false;
  }

  lemma WorkAt(lens: seq<nat>, work: seq<nat>, k: nat)
    requires SortedWork(lens, work) && k < Symbols(lens)
    ensures k < |work| && work[k] == SymAt(lens, k)
  {
    assert Pos(lens, SymAt(lens, k)) == k;
  }

  lemma ScanBounds(count: seq<nat>, lens: seq<nat>, k: nat, len: nat)
    requires |count| == MAXBITS + 1 && Scanning(count, lens, k, len)
    ensures len == LenAt(lens, k) <= MaxLen(lens) <= MAXBITS && k < Symbols(lens)
  {
    LenAtMost(lens, k);
  }

  /** Open a sub-table for the group that symbol k starts. */
  method OpenSubTable(t: CodeType, ghost lens: seq<nat>, count: array<nat>, table: array<Entry>, at: nat,
                      root: nat, ghost k: nat, len: nat, max: nat, huff: nat, next: nat)
    returns (full: bool, curr: nat, used: nat, low: nat)
    requires SymbolsFit(t, lens) && at + Room(t) <= table.Length && max == MaxLen(lens) && 1 <= root <= MAXBITS
    requires count.Length == MAXBITS + 1 && Scanning(count[..], lens, k, len)
    requires 1 <= k && AllEntered(table[at..], next, t, lens, root, k) && next == UsedUpTo(lens, root, k - 1)
    requires Pow2(root) <= next && NewGroup(lens, root, k) && huff == Huff(lens, SymAt(lens, k))
    requires t != CODES
    modifies table
    ensures table[..at] == old(table[..at])
    ensures full ==> TooBig(t, UsedUpTo(lens, root, k))
    ensures !full ==> used <= Room(t) && Filling(table[at..], used, t, lens, root, k, next, curr, root, low)
  {
    hide Entered, Huff, SymbolEntry, Low, Shr, Pow2, StartOf, Kraft, Begin, Pos, Roomy, SameHead, AllEntered, Filling, MaxLen;
    ScanBounds(count[..], lens, k, len);
    curr := SubTableBits(count, lens, root, k, len, max);
    UsedStep(lens, root, k);
    used := next + Pow2(curr);
    low := Low(huff, root);
    if TooBig(t, used) {
      full := true;
      return;
    }
    FillNew(table[at..], next, t, lens, root, k, curr);
    ghost var tab := table[at..];
    table[at + low] := Entry(curr, root, next);
    assert table[at..] == tab[low := Entry(curr, root, next)];
    full := false;
  }

  /** Enter symbol k at the indices it owns in the current table. */
  method EnterOne(t: CodeType, lens: seq<nat>, table: array<Entry>, at: nat, ghost used: nat, ghost root: nat, ghost k: nat,
                  sym: nat, huff: nat, next: nat, curr: nat, drop: nat, ghost low: int)
    requires SymbolsFit(t, lens) && at <= table.Length && Filling(table[at..], used, t, lens, root, k, next, curr, drop, low)
    requires sym == SymAt(lens, k) && huff == Huff(lens, sym)
    modifies table
    ensures table[..at] == old(table[..at])
    ensures AllEntered(table[at..], used, t, lens, root, k + 1)
    ensures k + 1 < Symbols(lens) && LenAt(lens, k + 1) > root
      ==> (Low(Huff(lens, SymAt(lens, k + 1)), root) == low <==> !NewGroup(lens, root, k + 1))
    ensures k + 1 < Symbols(lens) && (LenAt(lens, k + 1) <= root || !NewGroup(lens, root, k + 1))
      ==> Filling(table[at..], used, t, lens, root, k + 1, next, curr, drop, low)
  {
    hide Entered, Huff, SymbolEntry, Low, Shr, Pow2, StartOf, Kraft, Begin, Pos, Roomy, SameHead, AllEntered, OthersBelow, UsedUpTo;
    ghost var tab := table[at..];
    ShrHuffBound(lens, sym, drop);
    var here := MakeEntry(t, sym, lens[sym] - drop);
    Replicate(table, at, next, Shr(huff, drop), lens[sym] - drop, curr, here);
    FillOn(tab, table[at..], used, t, lens, root, k, next, curr, drop, low);
  }

  lemma FillingBounds(tab: seq<Entry>, used: nat, t: CodeType, lens: seq<nat>, root: nat, k: nat,
                      next: nat, curr: nat, drop: nat, low: int)
    requires SymbolsFit(t, lens) && Filling(tab, used, t, lens, root, k, next, curr, drop, low)
    ensures used == UsedUpTo(lens, root, k) == next + Pow2(curr) && !TooBig(t, used)
    ensures Pow2(root) <= used
    ensures LenAt(lens, k) <= root ==> next == 0 && drop == 0
    ensures drop <= LenAt(lens, k)
  {
  }

  /** The filling loop: enter every symbol, opening sub-tables as needed. */
  method FillTables(t: CodeType, lens: seq<nat>, count: array<nat>, work: array<nat>, table: array<Entry>, at: nat,
                    root: nat, min: nat, max: nat)
    returns (full: bool, used: nat, huff: nat, len: nat, next: nat, drop: nat)
    requires SymbolsFit(t, lens) && SortedWork(lens, work[..]) && count != work
    requires at + Room(t) <= table.Length && max == MaxLen(lens) && min <= root <= max && 1 <= root <= MAXBITS
    requires count.Length == MAXBITS + 1 && Scanning(count[..], lens, 0, min)
    requires t == CODES ==> max <= root <= 7
    modifies count, table
    ensures table[..at] == old(table[..at])
    ensures 0 < Symbols(lens)
    ensures full <==> TooBig(t, TableSize(lens, root))
    ensures !full ==>
      && used == TableSize(lens, root) <= Room(t)
      && AllEntered(table[at..], used, t, lens, root, Symbols(lens))
      && huff == Lsb(Succ(Code(lens, SymAt(lens, Symbols(lens) - 1))))
      && len == LenAt(lens, Symbols(lens) - 1)
      && (len <= root ==> next == 0 && drop == 0)
  {
    hide Entered, Huff, SymbolEntry, Low, Shr, Pow2, StartOf, Kraft, Begin, Pos, AllEntered, Filling, UsedUpTo, MaxLen,
      Scanning, SortedWork, NewGroup;
    ScanBounds(count[..], lens, 0, min);
    huff, len := 0, min;
    var sym := 0;
    next, drop := 0, 0;
    var curr := root;
    var low: int := -1;
    used := Pow2(root);
    FirstHuff(lens);
    UsedZero(lens, root);
    if TooBig(t, used) {
      UsedGrows(lens, root, 0, Symbols(lens) - 1);
      full := true;
      return;
    }
    if t == CODES {
      Pow2Mono(root, 7);
      Pow2Values();
    }
    FillStart(table[at..], t, lens, root);
    full := false;
    while true
      invariant SortedWork(lens, work[..])
      invariant Scanning(count[..], lens, sym, len) && sym < Symbols(lens) && len == LenAt(lens, sym)
      invariant Filling(table[at..], used, t, lens, root, sym, next, curr, drop, low)
      invariant huff == Huff(lens, SymAt(lens, sym))
      invariant used <= Room(t)
      invariant table[..at] == old(table[..at])
      decreases Symbols(lens) - sym
    {
      WorkAt(lens, work[..], sym);
      HuffIsLsb(lens, work[sym]);
      FillingBounds(table[at..], used, t, lens, root, sym, next, curr, drop, low);
      EnterOne(t, lens, table, at, used, root, sym, work[sym], huff, next, curr, drop, low);
      huff := Increment(huff, len, Code(lens, work[sym]));
      var done, len' := NextSymbol(lens, count, work, sym, len, max);
      if done {
        break;
      }
      NextCode(lens, sym);
      sym, len := sym + 1, len';
      ScanBounds(count[..], lens, sym, len);
      UsedSame(lens, root, sym);
      if len > root && Low(huff, root) != low {
        NoSmallGroups(t, lens, root, sym);
        drop := root;
        next := next + Pow2(curr);
        full, curr, used, low := OpenSubTable(t, lens, count, table, at, root, sym, len, max, huff, next);
        if full {
          UsedGrows(lens, root, sym, Symbols(lens) - 1);
          return;
        }
      }
    }
  }

  lemma UsedZero(lens: seq<nat>, root: nat)
    requires 0 < Symbols(lens)
    ensures UsedUpTo(lens, root, 0) == Pow2(root)
  {
  }

  lemma UsedSame(lens: seq<nat>, root: nat, k: nat)
    requires 1 <= k < Symbols(lens)
    ensures !NewGroup(lens, root, k) ==> UsedUpTo(lens, root, k) == UsedUpTo(lens, root, k - 1)
  {
  }

  /** The code-length code never needs a sub-table. */
  lemma NoSmallGroups(t: CodeType, lens: seq<nat>, root: nat, k: nat)
    requires 1 <= k < Symbols(lens) && (t == CODES ==> MaxLen(lens) <= root)
    ensures NewGroup(lens, root, k) ==> t != CODES
  {
    LenAtMost(lens, k);
  }

  lemma HuffIsLsb(lens: seq<nat>, n: nat)
    requires Used(lens, n)
    ensures Huff(lens, n) == Lsb(Code(lens, n))
  {
  }

  lemma UsedStep(lens: seq<nat>, root: nat, k: nat)
    requires 1 <= k < Symbols(lens) && NewGroup(lens, root, k)
    ensures UsedUpTo(lens, root, k) == UsedUpTo(lens, root, k - 1) + Pow2(CurrFrom(lens, root, k, LenAt(lens, k) - root))
  {
  }

  /** The return value of inflate_table. */
  ghost function Outcome(t: CodeType, lens: seq<nat>, bits: nat): int {
    if Rejected(t, lens) then -1
    else if MaxLen(lens) >= 1 && Symbols(lens) > 0 && TooBig(t, TableSize(lens, RootBits(lens, bits))) then 1
    else 0
  }

  /** Build the decoding table of a code.  The result is -1 exactly for the
      rejected sets, 1 exactly when a valid table would need more entries than
      were allotted, and otherwise 0 with a table that decodes the code. */
  method InflateTable(t: CodeType, lens: seq<nat>, table: array<Entry>, at: nat, bits: nat)
    returns (ret: int, used: nat, root: nat)
    requires ValidLens(lens) && |lens| <= MaxSymbols(t) && at + Room(t) <= table.Length
    requires t == CODES ==> bits == 7 && forall n :: 0 <= n < |lens| ==> lens[n] <= 7
    modifies table
    ensures table[..at] == old(table[..at])
    ensures ret == Outcome(t, lens, bits)
    ensures ret == 0 ==> used <= Room(t) && TableFor(table[at..at + used], root, t, lens)
    ensures ret == 0 && MaxLen(lens) >= 1 ==> root == RootBits(lens, bits) <= MAXBITS
  {
    hide *;
    InvalidIs();
    var count := CountLengths(lens);
    var min, max;
    min, max, root := LengthRange(lens, count, bits);
    used := 0;
    if max == 0 {
      EmptyTable(lens, t, bits);
      table[at] := Entry(64, 1, 0);
      table[at + 1] := Entry(64, 1, 0);
      assert table[at..at + 2] == [INVALID, INVALID];
      return 0, 2, 1;
    }
    var left := CodeSpaceLeft(count, lens);
    Verdict(t, lens, left, bits);
    if left < 0 {
      return -1, 0, root;
    }
    if left > 0 && (t == CODES || max != 1) {
      return -1, 0, root;
    }
    var work := SortSymbols(lens, count);
    if t == CODES { ShortLengths(lens, max); }
    var full;
    full, used := BuildTables(t, lens, count, work, table, at, root, min, max);
    ret := if full then 1 else 0;
  }

  /** Bound the code lengths and force root to be within them. */
  method LengthRange(lens: seq<nat>, count: array<nat>, bits: nat) returns (min: nat, max: nat, root: nat)
    requires count.Length == MAXBITS + 1 && forall l :: 0 <= l <= MAXBITS ==> count[l] == Count(lens, l)
    ensures max == MaxLen(lens) <= MAXBITS
    ensures max >= 1 ==>
      && root == RootBits(lens, bits) && 1 <= min <= root <= max
      && (bits >= max ==> root == max) && (max == 1 ==> root == 1)
      && Scanning(count[..], lens, 0, min)
  {
    hide Pow2, StartOf, Scanning;
    root := bits;
    max := MAXBITS;
    while max >= 1
      invariant 0 <= max <= MAXBITS && TopLength(lens, MAXBITS) == TopLength(lens, max)
    {
      if count[max] != 0 { break; }
      max := max - 1;
    }
    if root > max { root := max; }
    min := 1;
    if max == 0 {
      return;
    }
    while min < max
      invariant 1 <= min <= max && LowLength(lens, 1, max) == LowLength(lens, min, max)
      invariant forall l :: 1 <= l < min ==> Count(lens, l) == 0
    {
      if count[min] != 0 { break; }
      min := min + 1;
    }
    if root < min { root := min; }
    ScanStart(count[..], lens, min, max);
  }

  lemma Verdict(t: CodeType, lens: seq<nat>, left: int, bits: nat)
    requires MaxLen(lens) >= 1
    requires Kraft(lens) > UNIT ==> left < 0
    requires Kraft(lens) <= UNIT ==> left == UNIT - Kraft(lens)
    ensures Symbols(lens) > 0
    ensures Outcome(t, lens, bits) == -1 <==> left < 0 || (left > 0 && (t == CODES || MaxLen(lens) != 1))
    ensures Outcome(t, lens, bits) == 1 ==> TooBig(t, TableSize(lens, RootBits(lens, bits)))
    ensures Outcome(t, lens, bits) == 0 ==> !TooBig(t, TableSize(lens, RootBits(lens, bits)))
    ensures Outcome(t, lens, bits) in {-1, 0, 1}
    ensures left >= 0 ==> Kraft(lens) <= UNIT && (left == 0 <==> Kraft(lens) == UNIT)
  {
    MaxLenUsed(lens);
  }

  /** Fill the tables, then the slot that a lone one-bit code leaves. */
  method BuildTables(t: CodeType, lens: seq<nat>, count: array<nat>, work: array<nat>, table: array<Entry>, at: nat,
                     root: nat, min: nat, max: nat)
    returns (full: bool, used: nat)
    requires ValidLens(lens) && |lens| <= MaxSymbols(t) && Kraft(lens) <= UNIT
    requires SortedWork(lens, work[..]) && count != work
    requires at + Room(t) <= table.Length && max == MaxLen(lens) && min <= root <= max && 1 <= root <= MAXBITS
    requires count.Length == MAXBITS + 1 && Scanning(count[..], lens, 0, min)
    requires t == CODES ==> max <= root <= 7
    requires Kraft(lens) == UNIT || (max == 1 && root == 1)
    modifies count, table
    ensures table[..at] == old(table[..at])
    ensures 0 < Symbols(lens)
    ensures full <==> TooBig(t, TableSize(lens, root))
    ensures !full ==> used <= Room(t) && TableFor(table[at..at + used], root, t, lens)
  {
    hide *;
    InvalidIs();
    Fits(t, lens);
    var huff, len, next, drop;
    full, used, huff, len, next, drop := FillTables(t, lens, count, work, table, at, root, min, max);
    if full {
      return;
    }
    RoomInTable(t, table.Length, at);
    ghost var tab := table[at..];
    TableDone(tab, used, t, lens, root, huff);
    if huff != 0 {
      table[at + next + huff] := Entry(64, len - drop, 0);
      assert table[at..] == tab[1 := INVALID];
    }
    assert table[at..at + used] == table[at..][..used];
  }

  lemma Fits(t: CodeType, lens: seq<nat>)
    requires ValidLens(lens) && |lens| <= MaxSymbols(t) && Kraft(lens) <= UNIT
    ensures SymbolsFit(t, lens)
  {
  }

  lemma InvalidIs()
    ensures INVALID == Entry(64, 1, 0)
  {
  }

  lemma RoomInTable(t: CodeType, length: nat, at: nat)
    requires at + Room(t) <= length
    ensures at + 128 <= length
  {
  }

  lemma NoLengths(lens: seq<nat>)
    requires MaxLen(lens) == 0
    ensures Kraft(lens) == 0
  {
    forall l | 1 <= l < MAXBITS + 1
      ensures Count(lens, l) == 0
    {
      TopLengthIs(lens, MAXBITS, l);
    }
    NoneBelow(lens, MAXBITS + 1);
  }

  lemma EmptyTable(lens: seq<nat>, t: CodeType, bits: nat)
    requires |lens| <= MaxSymbols(t) && MaxLen(lens) == 0
    ensures TableFor([INVALID, INVALID], 1, t, lens) && Outcome(t, lens, bits) == 0 && Room(t) >= 128
  {
    NoLengths(lens);
  }

  lemma MaxLenUsed(lens: seq<nat>)
    requires MaxLen(lens) >= 1
    ensures Symbols(lens) > 0 && Kraft(lens) > 0
    ensures Count(lens, MaxLen(lens)) > 0
  {
    var l := MaxLen(lens);
    TopLengthIs(lens, MAXBITS, 1);
    OffsMono(lens, l, MAXBITS + 1);
    StartOfMono(lens, l, MAXBITS + 1);
    MulMono(1, Count(lens, l), Width(l));
  }

  lemma ScanStart(count: seq<nat>, lens: seq<nat>, min: nat, max: nat)
    requires |count| == MAXBITS + 1 && forall l :: 0 <= l <= MAXBITS ==> count[l] == Count(lens, l)
    requires 1 <= min <= max == MaxLen(lens) && Count(lens, min) > 0
    requires forall l :: 1 <= l < min ==> Count(lens, l) == 0
    ensures Scanning(count, lens, 0, min)
  {
    TopLengthIs(lens, MAXBITS, 1);
    NoneBelow(lens, min);
    BeginWithin(lens, 0, min);
  }

  lemma ShortLengths(lens: seq<nat>, max: nat)
    requires forall n :: 0 <= n < |lens| ==> lens[n] <= 7
    requires max == MaxLen(lens) >= 1
    ensures max <= 7
  {
    MaxLenUsed(lens);
    TopLengthIs(lens, MAXBITS, 1);
    var n := NthOfLength(lens, max, 0);
  }

  /** After the last symbol the table is right, up to the one slot an incomplete set leaves. */
  lemma TableDone(tab: seq<Entry>, used: nat, t: CodeType, lens: seq<nat>, root: nat, huff: nat)
    requires SymbolsFit(t, lens) && 0 < Symbols(lens) && 1 <= root && used <= |tab|
    requires AllEntered(tab, used, t, lens, root, Symbols(lens)) && used == TableSize(lens, root)
    requires huff == Lsb(Succ(Code(lens, SymAt(lens, Symbols(lens) - 1))))
    requires Kraft(lens) == UNIT || (MaxLen(lens) == 1 && root == 1)
    requires MaxLen(lens) >= 1
    ensures huff == 0 ==> TableFor(tab[..used], root, t, lens)
    ensures huff != 0 ==> huff == 1 && used == 2 && LenAt(lens, Symbols(lens) - 1) == 1
    ensures huff != 0 ==> TableFor(tab[1 := INVALID][..used], root, t, lens)
  {
    hide Entered, Huff, Pow2, StartOf, Begin, Kraft, MaxLen, Pos, AllEntered, SymbolEntry, Low, TableSize, LinksWhole, Lsb, Succ, Code;
    LastHuff(lens, Symbols(lens) - 1);
    LinksAreWhole(tab, used, t, lens, root);
    forall n | Used(lens, n)
      ensures Entered(tab, used, t, lens, root, n)
      ensures huff == 0 ==> Decodes(tab[..used], root, t, lens, n)
    {
      EnteredAll(tab, used, t, lens, root, n);
      EnteredDecodes(tab, used, t, lens, root, n);
    }
    if huff != 0 {
      LoneCode(lens);
      LsbBound(Succ(Code(lens, SymAt(lens, 0))));
      Pow2Values();
      forall n | Used(lens, n)
        ensures Decodes(tab[1 := INVALID][..used], root, t, lens, n)
      {
        SymAtPos(lens, n);
        FirstHuff(lens);
        KeepsZero(tab, used, t, lens, n);
        EnteredDecodes(tab[1 := INVALID], used, t, lens, root, n);
      }
    }
  }

  lemma LinksAreWhole(tab: seq<Entry>, used: nat, t: CodeType, lens: seq<nat>, root: nat)
    requires SymbolsFit(t, lens) && 0 < Symbols(lens) && 1 <= root && used <= |tab|
    requires AllEntered(tab, used, t, lens, root, Symbols(lens)) && used == TableSize(lens, root)
    requires Kraft(lens) == UNIT || (MaxLen(lens) == 1 && root == 1)
    ensures Kraft(lens) == UNIT ==> LinksWhole(tab[..used], root)
    ensures used == 2 && root == 1 && LenAt(lens, Symbols(lens) - 1) == 1 ==> LinksWhole(tab[1 := INVALID][..used], root)
  {
    hide AllEntered, Pow2, StartOf, Begin, Kraft, Pos, TableSize, LinksWhole, LenAt;
    if Kraft(lens) == UNIT {
      LinksOfComplete(tab, used, t, lens, root);
    }
    if used == 2 && root == 1 && LenAt(lens, Symbols(lens) - 1) == 1 {
      LinksOfLone(tab, used, t, lens);
    }
  }

  lemma LinksOfComplete(tab: seq<Entry>, used: nat, t: CodeType, lens: seq<nat>, root: nat)
    requires SymbolsFit(t, lens) && 0 < Symbols(lens) && used <= |tab|
    requires AllEntered(tab, used, t, lens, root, Symbols(lens)) && Kraft(lens) == UNIT
    ensures LinksWhole(tab[..used], root)
  {
    hide Entered, Huff, Pow2, StartOf, Begin, Kraft, Pos, AllEntered, SymbolEntry, Low, Code, ToBits;
    forall i | 0 <= i < used && i < Pow2(root) && IsLink(tab[..used][i])
      ensures tab[..used][i].bits == root
    {
      var n := Complete(lens, ToBits(i, MAXBITS));
      ToBitsPrefix(i, MAXBITS, lens[n]);
      LowBits(i, Code(lens, n));
      HuffIsLsb(lens, n);
      EnteredAll(tab, used, t, lens, root, n);
      LinkIsWhole(tab, used, t, lens, root, n, i);
    }
  }

  lemma LinkIsWhole(tab: seq<Entry>, used: nat, t: CodeType, lens: seq<nat>, root: nat, n: nat, i: nat)
    requires Used(lens, n) && n < MaxSymbols(t) && Entered(tab, used, t, lens, root, n)
    requires i < used <= |tab| && i < Pow2(root) && Low(i, lens[n]) == Huff(lens, n) && IsLink(tab[i])
    ensures tab[i].bits == root
  {
    hide Huff, SymbolEntry, Low, Pow2;
    if lens[n] > root {
      LowSplit(i, root, lens[n] - root);
      LowSmall(i, root);
    }
  }

  lemma LinksOfLone(tab: seq<Entry>, used: nat, t: CodeType, lens: seq<nat>)
    requires SymbolsFit(t, lens) && 0 < Symbols(lens) && 2 == used <= |tab|
    requires AllEntered(tab, used, t, lens, 1, Symbols(lens)) && Kraft(lens) <= UNIT
    requires LenAt(lens, Symbols(lens) - 1) == 1
    ensures LinksWhole(tab[1 := INVALID][..used], 1)
  {
    hide Entered, Pow2, StartOf, Begin, Kraft, Pos, AllEntered, SymbolEntry, Huff;
    BeginMono(lens, 0, Symbols(lens) - 1);
    var n := SymAt(lens, 0);
    FirstHuff(lens);
    EnteredAll(tab, used, t, lens, 1, n);
    assert INVALID == Entry(64, 1, 0);
    ZeroSlot(tab, used, t, lens, n);
  }

  lemma ZeroSlot(tab: seq<Entry>, used: nat, t: CodeType, lens: seq<nat>, n: nat)
    requires Used(lens, n) && n < MaxSymbols(t) && lens[n] == 1 && Huff(lens, n) == 0 && Entered(tab, used, t, lens, 1, n)
    ensures used <= |tab| && 0 < used && !IsLink(tab[0])
  {
    assert Low(0, 1) == 0;
  }

  lemma EnteredAll(tab: seq<Entry>, used: nat, t: CodeType, lens: seq<nat>, root: nat, n: nat)
    requires SymbolsFit(t, lens) && AllEntered(tab, used, t, lens, root, Symbols(lens)) && Used(lens, n)
    ensures Entered(tab, used, t, lens, root, n)
  {
    SymAtPos(lens, n);
    assert Entered(tab, used, t, lens, root, SymAt(lens, Pos(lens, n)));
  }

  lemma KeepsZero(tab: seq<Entry>, used: nat, t: CodeType, lens: seq<nat>, n: nat)
    requires Used(lens, n) && n < MaxSymbols(t) && lens[n] == 1 && Huff(lens, n) == 0
    requires Entered(tab, used, t, lens, 1, n)
    ensures Entered(tab[1 := INVALID], used, t, lens, 1, n)
  {
    Pow2Values();
    assert Low(1, 1) == 1;
  }

  /** An accepted incomplete set is a single one-bit code. */
  lemma LoneCode(lens: seq<nat>)
    requires MaxLen(lens) == 1 && Kraft(lens) < UNIT
    ensures Symbols(lens) == 1 && LenAt(lens, 0) == 1 && TableSize(lens, 1) == 2
  {
    MaxLenUsed(lens);
    NoneAbove(lens, MAXBITS + 1);
    Pow2Values();
    StartOfMono(lens, 2, MAXBITS + 1);
    assert Offs(lens, 2) == Count(lens, 1) && StartOf(lens, 2) == Count(lens, 1) * Width(1);
    assert Width(1) == 16384;
    LenAtMost(lens, 0);
  }

  /** A complete code's table decodes every bit buffer, in at most two lookups,
      to the one symbol whose code the buffer starts with. */
  lemma DecodesEverything(tab: seq<Entry>, root: nat, t: CodeType, lens: seq<nat>, hold: nat) returns (n: nat)
    requires |lens| <= MaxSymbols(t) && TableFor(tab, root, t, lens) && Kraft(lens) == UNIT
    ensures Used(lens, n) && Code(lens, n) <= ToBits(hold, MAXBITS)
    ensures Lookup(tab, root, hold) == FoundSymbol(t, n, lens[n])
  {
    if MaxLen(lens) == 0 { NoLengths(lens); }
    n := Complete(lens, ToBits(hold, MAXBITS));
    ToBitsPrefix(hold, MAXBITS, lens[n]);
    LowBits(hold, Code(lens, n));
    assert Decodes(tab, root, t, lens, n);
  }
}
