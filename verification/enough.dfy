/** The decoding tables fit: a complete code of 286 literal and length symbols, or of
    30 distance symbols, never needs more than ENOUGH_LENS or ENOUGH_DISTS entries. */
module EnoughEntries {
  import opened Bits
  import opened Canonical
  import opened SortedSymbols
  import opened HuffBits
  import opened DecodingTables

  // ---- one sub-table ----

  /** A symbol that starts where a slot of the root table does, and its number of root slots. */
  ghost predicate SlotStart(lens: seq<nat>, root: nat, k: nat, q: nat) {
    Kraft(lens) == UNIT && root < MAXBITS && k < Symbols(lens) && LenAt(lens, k) > root && Begin(lens, k) == q * Width(root)
  }

  /** The symbols of one root slot share their first root bits. */
  lemma SameSlot(lens: seq<nat>, root: nat, k: nat, q: nat, j: nat)
    requires SlotStart(lens, root, k, q) && k <= j < Symbols(lens) && Begin(lens, j) < Begin(lens, k) + Width(root)
    ensures LenAt(lens, j) > root && Head(lens, SymAt(lens, j), root) == Head(lens, SymAt(lens, k), root)
  {
    BeginMono(lens, k, j);
    var a, b := Code(lens, SymAt(lens, k)), Code(lens, SymAt(lens, j));
    CodeVal(lens, SymAt(lens, k));
    CodeVal(lens, SymAt(lens, j));
    ValSplit(a, root);
    hide Code, Val, Msb, Width, Pow2, Start, StartOf, Kraft;
    SlotVal(a, root, q);
    PrefixInterval(a[..root], b);
  }

  /** A value at the start of a slot is that of its first bits. */
  lemma SlotVal(a: seq<bool>, root: nat, q: nat)
    requires root <= |a| <= MAXBITS && Val(a[..root]) <= q * Width(root) < Val(a[..root]) + Width(root)
    ensures Val(a[..root]) == q * Width(root)
  {
    hide Pow2, Msb;
    OneMultiple(Msb(a[..root]), q, Width(root));
  }

  lemma OneMultiple(x: nat, q: nat, w: nat)
    requires x * w <= q * w < x * w + w
    ensures x == q
  {
    if x < q { StepBelow(x, q, w); } else if q < x { StepBelow(q, x, w); }
  }

  /** The look-ahead at length root + c: room is what is left of the slot, in codes of that length. */
  ghost predicate Ahead(lens: seq<nat>, root: nat, k: nat, c: nat, room: int) {
    && root + c <= MAXBITS && k < Symbols(lens) && k <= Offs(lens, root + c + 1) && LenAt(lens, k) <= root + c
    && StartOf(lens, root + c + 1) - Begin(lens, k) == Width(root) - room * Width(root + c)
  }

  /** How many symbols the slot has at least, for the lengths up to root + c. */
  ghost predicate Many(lens: seq<nat>, root: nat, k: nat, c: nat, room: int)
    requires k < Symbols(lens)
  {
    var a := LenAt(lens, k) - root;
    a >= 1 && a <= c && Offs(lens, root + c + 1) - k + room >= Pow2(a) + c - a && Offs(lens, root + c + 1) + room >= Offs(lens, root + c)
    && Offs(lens, root + c + 1) + room > k
  }

  lemma AheadFirst(lens: seq<nat>, root: nat, k: nat, q: nat) returns (c: nat, room: int)
    requires SlotStart(lens, root, k, q)
    ensures c == LenAt(lens, k) - root && Ahead(lens, root, k, c, room) && Many(lens, root, k, c, room)
  {
    var l := LenAt(lens, k);
    c := l - root;
    PosBound(lens, SymAt(lens, k));
    BeginWithin(lens, k, l);
    var n := Offs(lens, l + 1) - k;
    room := Pow2(c) - n;
    Pow2Add(c, MAXBITS - l);
    hide Pow2, Kraft, Symbols, Count, Begin;
    FirstArith(k - Offs(lens, l), n, Width(l), Pow2(c));
  }

  lemma FirstArith(x: nat, n: nat, w: nat, p: nat)
    ensures (x + n) * w - x * w == p * w - (p - n) * w
  {
    Distribute(x, n, w);
    DistributeMinus(p, n, w);
  }

  lemma DistributeMinus(p: int, n: int, w: int)
    ensures (p - n) * w == p * w - n * w
  {
  }

  /** One more length. */
  lemma AheadNext(lens: seq<nat>, root: nat, k: nat, c: nat, room: int)
    requires Ahead(lens, root, k, c, room) && Many(lens, root, k, c, room) && room >= 1 && root + c < MAXBITS
    ensures Ahead(lens, root, k, c + 1, 2 * room - Count(lens, root + c + 1))
    ensures Many(lens, root, k, c + 1, 2 * room - Count(lens, root + c + 1))
  {
    var l := root + c + 1;
    var n := Count(lens, l);
    assert StartOf(lens, l + 1) == StartOf(lens, l) + n * Width(l);
    assert Offs(lens, l + 1) == Offs(lens, l) + n;
    assert Width(l - 1) == 2 * Width(l);
    hide Pow2, StartOf, Offs, Width, Count, Begin, Symbols;
    NextArith(room, n, Width(l));
  }

  lemma NextArith(room: int, n: int, w: int)
    ensures room * (2 * w) - n * w == (2 * room - n) * w
  {
  }

  /** Where the slot is full. */
  lemma SlotFull(lens: seq<nat>, root: nat, k: nat, c: nat, room: int) returns (next: nat)
    requires Ahead(lens, root, k, c, room) && Many(lens, root, k, c, room) && room <= 0 && 1 <= root
    ensures k < next <= Symbols(lens) && next == Offs(lens, root + c + 1) + room
    ensures Begin(lens, next) == Begin(lens, k) + Width(root)
    ensures next < Symbols(lens) ==> LenAt(lens, next) >= root + c
  {
    var l := root + c;
    next := Offs(lens, l + 1) + room;
    BeginWithin(lens, next, l);
    assert StartOf(lens, l + 1) == StartOf(lens, l) + Count(lens, l) * Width(l);
    assert Offs(lens, l + 1) == Offs(lens, l) + Count(lens, l);
    hide Pow2, StartOf, Offs, Width, Count, Begin, Symbols, Many;
    FullArith(Count(lens, l), room, Width(l));
  }

  lemma FullArith(n: int, room: int, w: int)
    ensures n * w + room * w == (n + room) * w
  {
  }

  /** The look-ahead stops when the slot is full, also at the greatest length. */
  lemma StopsFull(lens: seq<nat>, root: nat, k: nat, q: nat, c: nat, room: int)
    requires SlotStart(lens, root, k, q) && Ahead(lens, root, k, c, room)
    requires root + c >= MAXBITS || root + c >= MaxLen(lens) || StartOf(lens, root + c + 1) - Begin(lens, k) >= Width(root)
    ensures room <= 0
  {
    hide Pow2, StartOf, Offs, Width, Symbols, MaxLen, Begin;
    LenAtMost(lens, k);
    if root + c >= MAXBITS || root + c >= MaxLen(lens) {
      NoneLonger(lens, root + c + 1);
      SlotInside(lens, root, k, q);
    }
    Positive(room, Width(root + c));
  }

  lemma Positive(room: int, w: int)
    requires w >= 1
    ensures room >= 1 ==> room * w >= 1
  {
  }

  lemma {:induction false} NoneLonger(lens: seq<nat>, l: nat)
    requires MaxLen(lens) < l <= MAXBITS + 1
    ensures StartOf(lens, l) == Kraft(lens)
    decreases MAXBITS + 1 - l
  {
    if l <= MAXBITS {
      TopLengthIs(lens, MAXBITS, l);
      assert Count(lens, l) == 0;
      NoneLonger(lens, l + 1);
    }
  }

  /** A slot that has begun lies inside the code space. */
  lemma SlotInside(lens: seq<nat>, root: nat, k: nat, q: nat)
    requires SlotStart(lens, root, k, q)
    ensures q < Pow2(root) && Begin(lens, k) + Width(root) <= UNIT
  {
    BeginStep(lens, k);
    BeginMono(lens, k + 1, Symbols(lens));
    Pow2Add(root, MAXBITS - root);
    Pow2Values();
    hide Pow2, Begin, Symbols, Kraft;
    SlotsArith(q, Pow2(root), Width(root));
  }

  lemma SlotsArith(q: nat, p: nat, w: nat)
    requires w >= 1 && q * w < p * w
    ensures q < p && q * w + w <= p * w
  {
    if p <= q { MulMono(p, q, w); } else { StepBelow(q, p, w); }
  }

  // ---- all sub-tables ----

  /** A sub-table's slot, its size, and how many symbols it takes at least. */
  lemma Group(lens: seq<nat>, root: nat, k: nat, q: nat) returns (next: nat, curr: nat)
    requires SlotStart(lens, root, k, q) && 1 <= root
    ensures curr == CurrFrom(lens, root, k, LenAt(lens, k) - root) && LenAt(lens, k) - root <= curr <= MAXBITS - root
    ensures k < next <= Symbols(lens) && Begin(lens, next) == Begin(lens, k) + Width(root)
    ensures next - k >= Pow2(LenAt(lens, k) - root) + curr - (LenAt(lens, k) - root)
    ensures next < Symbols(lens) ==> LenAt(lens, next) >= root + curr
  {
    hide *;
    var c, room := AheadFirst(lens, root, k, q);
    next, curr := GroupFrom(lens, root, k, q, c, room);
  }

  lemma {:induction false} GroupFrom(lens: seq<nat>, root: nat, k: nat, q: nat, c: nat, room: int) returns (next: nat, curr: nat)
    requires SlotStart(lens, root, k, q) && 1 <= root && Ahead(lens, root, k, c, room) && Many(lens, root, k, c, room)
    ensures root + c <= MAXBITS && curr == CurrFrom(lens, root, k, c) && c <= curr <= MAXBITS - root
    ensures k < next <= Symbols(lens) && Begin(lens, next) == Begin(lens, k) + Width(root)
    ensures LenAt(lens, k) > root && next - k >= Pow2(LenAt(lens, k) - root) + curr - (LenAt(lens, k) - root)
    ensures next < Symbols(lens) ==> LenAt(lens, next) >= root + curr
    decreases MAXBITS - c
  {
    hide Pow2, StartOf, Offs, Width, Count, Begin, Symbols, Kraft, MaxLen;
    if root + c >= MAXBITS || root + c >= MaxLen(lens) || StartOf(lens, root + c + 1) - Begin(lens, k) >= Width(root) {
      StopsFull(lens, root, k, q, c, room);
      next := SlotFull(lens, root, k, c, room);
      curr := c;
    } else {
      GoesOn(lens, root, k, c, room);
      AheadNext(lens, root, k, c, room);
      next, curr := GroupFrom(lens, root, k, q, c + 1, 2 * room - Count(lens, root + c + 1));
    }
  }

  lemma GoesOn(lens: seq<nat>, root: nat, k: nat, c: nat, room: int)
    requires Ahead(lens, root, k, c, room) && StartOf(lens, root + c + 1) - Begin(lens, k) < Width(root)
    ensures room >= 1
  {
    hide Pow2, StartOf, Offs, Begin, Symbols;
    if room <= 0 { NotPositive(room, Width(root + c)); }
  }

  lemma NotPositive(room: int, w: int)
    requires w >= 1 && room <= 0
    ensures room * w <= 0
  {
  }

  /** Inside a slot no further sub-table is opened. */
  lemma {:induction false} UsedSpan(lens: seq<nat>, root: nat, k: nat, q: nat, j: nat)
    requires SlotStart(lens, root, k, q) && k <= j < Symbols(lens) && Begin(lens, j) < Begin(lens, k) + Width(root)
    ensures UsedUpTo(lens, root, j) == UsedUpTo(lens, root, k)
  {
    hide Begin, Symbols, Kraft, Width, Head, CurrFrom;
    if j > k {
      BeginMono(lens, j - 1, j);
      UsedSpan(lens, root, k, q, j - 1);
      SameSlot(lens, root, k, q, j - 1);
      SameSlot(lens, root, k, q, j);
      UsedSame(lens, root, j);
    }
  }

  /** How much larger a sub-table of a given depth can be than its number of symbols. */
  function Gain(x: nat): int {
    Pow2(x) - x
  }

  lemma {:induction false} GainMono(x: nat, y: nat)
    requires 1 <= x <= y
    ensures Gain(x) <= Gain(y) && (x < y ==> Gain(x) < Gain(y))
    decreases y
  {
    if x < y {
      GainMono(x, y - 1);
      Pow2Mono(1, y - 1);
    }
  }

  /** The entries of the sub-tables from symbol k on exceed the number of symbols by at
      most the gain of the greatest depth; by so much only if the parity fits. */
  ghost predicate Bounded(lens: seq<nat>, root: nat, k: nat, used: int)
    requires 1 <= root < MAXBITS && k < Symbols(lens) && LenAt(lens, k) > root
  {
    var a, n := LenAt(lens, k) - root, Symbols(lens) - k;
    var slack := n + Gain(MAXBITS - root) - Gain(a) - used;
    slack >= 0 && (slack == 0 ==> n % 2 == (MAXBITS - root - a) % 2)
  }

  lemma {:induction false} Groups(lens: seq<nat>, root: nat, k: nat, q: nat)
    requires SlotStart(lens, root, k, q) && 1 <= root && 1 <= k
    ensures Bounded(lens, root, k, TableSize(lens, root) - UsedUpTo(lens, root, k - 1))
    ensures q < Pow2(root) && Symbols(lens) - k >= 2 * (Pow2(root) - q)
    decreases Symbols(lens) - k
  {
    hide *;
    var next, curr := Group(lens, root, k, q);
    Opened(lens, root, k, q, next, curr);
    var a := Depth(lens, root, k, q);
    SlotInside(lens, root, k, q);
    if next == Symbols(lens) {
      LastSlot(lens, root, k, q, next);
      LastArith(lens, root, k, next, curr);
    } else {
      NextSlot(lens, root, k, q, next, curr);
      Groups(lens, root, next, q + 1);
      StepArith(lens, root, k, next, curr, TableSize(lens, root));
    }
  }

  lemma Depth(lens: seq<nat>, root: nat, k: nat, q: nat) returns (a: nat)
    requires SlotStart(lens, root, k, q)
    ensures root < MAXBITS && k < Symbols(lens) && LenAt(lens, k) > root && a == LenAt(lens, k) - root && Pow2(a) >= 2
  {
    a := LenAt(lens, k) - root;
    Pow2Mono(1, a);
    assert Pow2(1) == 2;
  }

  lemma Opened(lens: seq<nat>, root: nat, k: nat, q: nat, next: nat, curr: nat)
    requires SlotStart(lens, root, k, q) && 1 <= root && 1 <= k && k < next <= Symbols(lens)
    requires Begin(lens, next) == Begin(lens, k) + Width(root) && curr == CurrFrom(lens, root, k, LenAt(lens, k) - root)
    ensures UsedUpTo(lens, root, next - 1) <= UsedUpTo(lens, root, k - 1) + Pow2(curr)
  {
    hide Begin, Symbols, Kraft, Width, NewGroup, CurrFrom, Pow2;
    BeginMono(lens, next - 1, next);
    WidthPositive(lens, next - 1);
    UsedSpan(lens, root, k, q, next - 1);
  }

  lemma WidthPositive(lens: seq<nat>, k: nat)
    requires k < Symbols(lens)
    ensures Width(LenAt(lens, k)) >= 1
  {
  }

  lemma NextSlot(lens: seq<nat>, root: nat, k: nat, q: nat, next: nat, curr: nat)
    requires SlotStart(lens, root, k, q) && k < next < Symbols(lens) && Begin(lens, next) == Begin(lens, k) + Width(root)
    requires LenAt(lens, next) >= root + curr && curr >= 1
    ensures SlotStart(lens, root, next, q + 1)
  {
    hide Begin, Symbols, Kraft, Width;
    Distribute(q, 1, Width(root));
  }

  lemma LastSlot(lens: seq<nat>, root: nat, k: nat, q: nat, next: nat)
    requires SlotStart(lens, root, k, q) && next == Symbols(lens) && Begin(lens, next) == Begin(lens, k) + Width(root)
    ensures q + 1 == Pow2(root)
  {
    Pow2Add(root, MAXBITS - root);
    Pow2Values();
    hide Pow2, Symbols;
    Distribute(q, 1, Width(root));
    OneMultiple(q + 1, Pow2(root), Width(root));
  }

  lemma LastArith(lens: seq<nat>, root: nat, k: nat, next: nat, curr: nat)
    requires 1 <= root < MAXBITS && 1 <= k < next == Symbols(lens) && LenAt(lens, k) > root && curr <= MAXBITS - root
    requires LenAt(lens, k) - root <= curr && next - k >= Pow2(LenAt(lens, k) - root) + curr - (LenAt(lens, k) - root)
    requires UsedUpTo(lens, root, next - 1) <= UsedUpTo(lens, root, k - 1) + Pow2(curr)
    ensures Bounded(lens, root, k, TableSize(lens, root) - UsedUpTo(lens, root, k - 1))
  {
    hide UsedUpTo, Symbols, Pow2, Gain, LenAt;
    var a := LenAt(lens, k) - root;
    GainMono(a, curr);
    GainMono(curr, MAXBITS - root);
    GainIs(a);
    GainIs(curr);
    Even(a);
  }

  lemma GainIs(x: nat)
    ensures Gain(x) == Pow2(x) - x
  {
  }

  lemma Even(a: nat)
    requires a >= 1
    ensures Pow2(a) % 2 == 0
  {
  }

  lemma StepArith(lens: seq<nat>, root: nat, k: nat, next: nat, curr: nat, total: int)
    requires 1 <= root < MAXBITS && 1 <= k < next < Symbols(lens) && LenAt(lens, k) > root && curr <= MAXBITS - root
    requires LenAt(lens, k) - root <= curr && next - k >= Pow2(LenAt(lens, k) - root) + curr - (LenAt(lens, k) - root)
    requires LenAt(lens, next) > root && LenAt(lens, next) >= root + curr
    requires UsedUpTo(lens, root, next - 1) <= UsedUpTo(lens, root, k - 1) + Pow2(curr)
    requires Bounded(lens, root, next, total - UsedUpTo(lens, root, next - 1))
    ensures Bounded(lens, root, k, total - UsedUpTo(lens, root, k - 1))
  {
    hide UsedUpTo, Symbols, Pow2, Gain, LenAt;
    var a, b := LenAt(lens, k) - root, LenAt(lens, next) - root;
    GainMono(a, curr);
    GainMono(curr, b);
    GainIs(a);
    GainIs(curr);
    Even(a);
  }

  // ---- the short codes ----

  /** Codes of at most root bits fill whole slots. */
  lemma ShortSlots(lens: seq<nat>, root: nat) returns (q: nat)
    requires 1 <= root < MAXBITS
    ensures StartOf(lens, root + 1) == q * Width(root)
  {
    q := FirstCode(lens, root) + Count(lens, root);
    FirstCodeScaled(lens, root);
    Distribute(FirstCode(lens, root), Count(lens, root), Width(root));
  }

  lemma {:induction false} NoSubTables(lens: seq<nat>, root: nat, k: nat)
    requires k < Symbols(lens) && forall j :: 0 <= j <= k ==> LenAt(lens, j) <= root
    ensures UsedUpTo(lens, root, k) == Pow2(root)
  {
    hide Symbols, Pow2, LenAt, CurrFrom;
    if k > 0 { NoSubTables(lens, root, k - 1); }
  }

  lemma ShortBefore(lens: seq<nat>, root: nat, j: nat)
    requires 1 <= root < MAXBITS && j < Symbols(lens)
    ensures LenAt(lens, j) <= root <==> j < Offs(lens, root + 1)
  {
    var n := SymAt(lens, j);
    PosBound(lens, n);
    if lens[n] <= root { OffsMono(lens, lens[n] + 1, root + 1); } else { OffsMono(lens, root + 1, lens[n]); }
  }

  /** Where the first long code starts, and the table up to there. */
  lemma FirstLong(lens: seq<nat>, root: nat) returns (k: nat, q: nat)
    requires Kraft(lens) == UNIT && 1 <= root < MAXBITS && Offs(lens, root + 1) < Symbols(lens)
    ensures k == Offs(lens, root + 1) && SlotStart(lens, root, k, q)
    ensures k >= 1 ==> UsedUpTo(lens, root, k - 1) == Pow2(root)
  {
    k := Offs(lens, root + 1);
    q := ShortSlots(lens, root);
    OffsMono(lens, root, root + 1);
    BeginWithin(lens, k, root);
    ShortBefore(lens, root, k);
    assert StartOf(lens, root + 1) == StartOf(lens, root) + Count(lens, root) * Width(root);
    hide StartOf, Offs, Count, Pow2, Begin, Kraft;
    if k >= 1 {
      forall j | 0 <= j <= k - 1 ensures LenAt(lens, j) <= root { ShortBefore(lens, root, j); }
      NoSubTables(lens, root, k - 1);
    }
  }

  /** The whole table, given enough short codes. */
  lemma TableBound(lens: seq<nat>, root: nat) returns (a: nat, slack: int)
    requires Kraft(lens) == UNIT && 1 <= root < MAXBITS && Offs(lens, root + 1) >= 1
    ensures Symbols(lens) > 0
    ensures Offs(lens, root + 1) >= Symbols(lens) ==> TableSize(lens, root) == Pow2(root)
    ensures var n := Symbols(lens) - Offs(lens, root + 1); n > 0 ==>
      1 <= a < MAXBITS && 0 <= slack == Pow2(root) + n + Gain(MAXBITS - root) - Gain(a) - TableSize(lens, root)
      && (slack == 0 ==> n % 2 == (MAXBITS - root - a) % 2)
  {
    hide StartOf, Count, Pow2, Begin, Kraft, Gain;
    OffsMono(lens, root + 1, MAXBITS + 1);
    if Offs(lens, root + 1) < Symbols(lens) {
      var k, q := FirstLong(lens, root);
      Groups(lens, root, k, q);
      a := LenAt(lens, k) - root;
      slack := Pow2(root) + Symbols(lens) - k + Gain(MAXBITS - root) - Gain(a) - TableSize(lens, root);
    } else {
      a, slack := 0, 0;
      forall j | 0 <= j <= Symbols(lens) - 1 ensures LenAt(lens, j) <= root { ShortBefore(lens, root, j); }
      NoSubTables(lens, root, Symbols(lens) - 1);
    }
  }

  /** So few short codes leave many slots, and each takes two symbols. */
  lemma FewShort(lens: seq<nat>, root: nat, few: nat)
    requires Kraft(lens) == UNIT && 1 <= root < MAXBITS && 1 <= few <= 2 && Offs(lens, root + 1) == few < Symbols(lens)
    ensures few == 1 ==> Symbols(lens) > Pow2(root)
    ensures few == 2 ==> 2 * (Symbols(lens) - 2) >= Pow2(root)
  {
    hide Pow2, Begin, Kraft, Symbols, Offs, LenAt, Bounded, UsedUpTo, TableSize;
    var k, q := FirstLong(lens, root);
    Groups(lens, root, k, q);
    Begins(lens, few);
    Pow2Add(root, MAXBITS - root);
    Pow2Values();
    HalfSlots(q, Pow2(root), Width(root), few);
  }

  /** One or two codes that leave room take at most a half, or three quarters, of it. */
  lemma Begins(lens: seq<nat>, few: nat)
    requires Kraft(lens) == UNIT && 1 <= few <= 2 && few < Symbols(lens)
    ensures 4 * Begin(lens, few) <= (few + 1) * UNIT
  {
    BeginZero(lens);
    BeginStep(lens, 0);
    BeginStep(lens, 1);
    BeginMono(lens, few, Symbols(lens));
    BeginStep(lens, few);
    BeginMono(lens, few + 1, Symbols(lens));
    Pow2Values();
    WidthHalf(LenAt(lens, 0));
    WidthHalf(LenAt(lens, 1));
    if few == 2 { BeginMono(lens, 0, 1); }
  }

  lemma WidthHalf(l: nat)
    requires 1 <= l <= MAXBITS
    ensures 2 * Width(l) <= UNIT && (l >= 2 ==> 4 * Width(l) <= UNIT) && (l == 1 ==> 2 * Width(l) == UNIT)
  {
    Pow2Values();
    Pow2Mono(MAXBITS - l, 14);
    if l >= 2 { Pow2Mono(MAXBITS - l, 13); }
  }

  lemma HalfSlots(q: nat, p: nat, w: nat, few: nat)
    requires w >= 1 && 4 * (q * w) <= (few + 1) * (p * w)
    ensures 4 * q <= (few + 1) * p
  {
    MulAssoc(4, q, w);
    MulAssoc(few + 1, p, w);
    if 4 * q > (few + 1) * p { StepBelow((few + 1) * p, 4 * q, w); }
  }

  // ---- the two constants ----

  /** A code with no short codes at all is a large one. */
  lemma {:induction false} LongCodes(lens: seq<nat>, min: nat, k: nat)
    requires 1 <= min <= MAXBITS && k <= Symbols(lens) && forall j :: 0 <= j < Symbols(lens) ==> LenAt(lens, j) >= min
    ensures Begin(lens, k) <= k * Width(min)
  {
    hide Symbols, Begin, LenAt, Width;
    if k == 0 {
      BeginZero(lens);
    } else {
      LongCodes(lens, min, k - 1);
      BeginStep(lens, k - 1);
      WidthMono(min, LenAt(lens, k - 1));
      Distribute(k - 1, 1, Width(min));
    }
  }

  lemma WidthMono(a: nat, b: nat)
    requires a <= b <= MAXBITS
    ensures Width(b) <= Width(a)
  {
    Pow2Mono(MAXBITS - b, MAXBITS - a);
  }

  lemma ManySymbols(lens: seq<nat>, min: nat)
    requires Kraft(lens) == UNIT && 1 <= min <= MAXBITS && Offs(lens, min) == 0
    ensures Symbols(lens) >= Pow2(min)
  {
    forall j | 0 <= j < Symbols(lens) ensures LenAt(lens, j) >= min {
      AllLong(lens, min, j);
    }
    hide Symbols, LenAt, Begin, Kraft;
    LongCodes(lens, min, Symbols(lens));
    WholeSpace(lens);
    Pow2Add(min, MAXBITS - min);
    Pow2Values();
    hide Pow2;
    if Symbols(lens) < Pow2(min) { StepBelow(Symbols(lens), Pow2(min), Width(min)); }
  }

  lemma WholeSpace(lens: seq<nat>)
    ensures Begin(lens, Symbols(lens)) == Kraft(lens)
  {
  }

  lemma AllLong(lens: seq<nat>, min: nat, j: nat)
    requires 1 <= min <= MAXBITS && Offs(lens, min) == 0 && j < Symbols(lens)
    ensures LenAt(lens, j) >= min
  {
    var n := SymAt(lens, j);
    PosBound(lens, n);
    if lens[n] < min { OffsMono(lens, lens[n] + 1, min); }
  }

  /** The root of the table, and codes short enough for it. */
  lemma RootOf(lens: seq<nat>, bits: nat)
    requires Kraft(lens) == UNIT && 1 <= bits < MAXBITS && Symbols(lens) < Pow2(bits + 1)
    ensures 1 <= MaxLen(lens) <= MAXBITS && 1 <= RootBits(lens, bits) <= bits
    ensures RootBits(lens, bits) < bits ==> MaxLen(lens) == RootBits(lens, bits)
    ensures Offs(lens, RootBits(lens, bits) + 1) >= 1
  {
    MaxPositive(lens);
    var max := MaxLen(lens);
    var min := LowLength(lens, 1, max);
    LowIs(lens, 1, max);
    if min > bits {
      NoneShort(lens, bits + 1);
      ManySymbols(lens, bits + 1);
    }
    hide Kraft, Symbols, Pow2;
    OffsMono(lens, min + 1, RootBits(lens, bits) + 1);
    assert Offs(lens, min + 1) == Offs(lens, min) + Count(lens, min);
  }

  lemma MaxPositive(lens: seq<nat>)
    requires Kraft(lens) == UNIT
    ensures 1 <= MaxLen(lens) <= MAXBITS && Count(lens, MaxLen(lens)) != 0
  {
    TopLengthIs(lens, MAXBITS, 1);
    if MaxLen(lens) == 0 { NoneLonger(lens, 1); }
  }

  lemma {:induction false} LowIs(lens: seq<nat>, l: nat, max: nat)
    requires 1 <= l <= max && Count(lens, max) != 0
    ensures Count(lens, LowLength(lens, l, max)) != 0
    ensures forall i :: l <= i < LowLength(lens, l, max) ==> Count(lens, i) == 0
    decreases max - l
  {
    if l < max && Count(lens, l) == 0 { LowIs(lens, l + 1, max); }
  }

  lemma NoneShort(lens: seq<nat>, l: nat)
    requires 1 <= l <= MAXBITS && forall i :: 1 <= i < l ==> Count(lens, i) == 0
    ensures Offs(lens, l) == 0
  {
    NoneBelow(lens, l);
  }

  /** A table without sub-tables, or with a root of the requested size. */
  lemma TableCases(lens: seq<nat>, bits: nat) returns (root: nat, n: nat, a: nat, slack: int)
    requires Kraft(lens) == UNIT && 1 <= bits < MAXBITS && Symbols(lens) < Pow2(bits + 1)
    ensures Symbols(lens) > 0 && MaxLen(lens) >= 1 && root == RootBits(lens, bits) <= bits
    ensures n == 0 ==> TableSize(lens, root) == Pow2(root)
    ensures n > 0 ==> root == bits && n == Symbols(lens) - Offs(lens, bits + 1) && Offs(lens, bits + 1) >= 1
    ensures n > 0 ==>
      && 1 <= a < MAXBITS && 0 <= slack == Pow2(bits) + n + Gain(MAXBITS - bits) - Gain(a) - TableSize(lens, root)
      && (slack == 0 ==> n % 2 == (MAXBITS - bits - a) % 2)
  {
    hide Kraft, Symbols, Pow2, Gain, Offs, RootBits, MaxLen, UsedUpTo;
    RootOf(lens, bits);
    root := RootBits(lens, bits);
    a, slack := TableBound(lens, root);
    AtMax(lens, root);
    n := if Offs(lens, root + 1) >= Symbols(lens) then 0 else Symbols(lens) - Offs(lens, root + 1);
  }

  lemma AtMax(lens: seq<nat>, root: nat)
    requires 1 <= MaxLen(lens) <= MAXBITS
    ensures MaxLen(lens) == root ==> Offs(lens, root + 1) == Symbols(lens)
  {
    if MaxLen(lens) == root { NoneAbove(lens, MAXBITS + 1); }
  }

  /** inflate_table never runs out of room for a complete literal and length code. */
  lemma LensFit(lens: seq<nat>)
    requires Kraft(lens) == UNIT && |lens| <= 286
    ensures Outcome(LENS, lens, 9) == 0
  {
    hide Kraft, Symbols, Offs, RootBits, MaxLen, TableSize;
    SymbolsWithin(lens);
    Powers();
    var root, n, a, slack := TableCases(lens, 9);
    if n == 0 {
      Pow2Mono(root, 9);
    } else {
      var short := Symbols(lens) - n;
      if short == 1 { FewShort(lens, 9, 1); }
      GainMono(1, a);
      if a > 1 { GainMono(2, a); }
      assert TableSize(lens, root) <= ENOUGH_LENS;
    }
  }

  /** Nor for a complete distance code. */
  lemma DistsFit(lens: seq<nat>)
    requires Kraft(lens) == UNIT && |lens| <= 30
    ensures Outcome(DISTS, lens, 6) == 0
  {
    hide Kraft, Symbols, Offs, RootBits, MaxLen, TableSize;
    SymbolsWithin(lens);
    Powers();
    var root, n, a, slack := TableCases(lens, 6);
    if n == 0 {
      Pow2Mono(root, 6);
    } else {
      var short := Symbols(lens) - n;
      if short <= 2 { FewShort(lens, 6, short); }
      GainMono(1, a);
      if a > 1 { GainMono(2, a); }
      assert TableSize(lens, root) <= ENOUGH_DISTS;
    }
  }

  lemma Powers()
    ensures Pow2(9) == 512 && Pow2(10) == 1024 && Pow2(6) == 64 && Pow2(7) == 128
    ensures Gain(1) == 1 && Gain(2) == 2 && Gain(6) == 58 && Gain(9) == 503
  {
    Pow2Values();
  }

  lemma SymbolsWithin(lens: seq<nat>)
    ensures Symbols(lens) <= |lens|
  {
    SymbolsBound(lens, MAXBITS + 1);
  }
}
