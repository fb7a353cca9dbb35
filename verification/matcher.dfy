/** The match finder of the compressor: a sliding window, its hash chains, and the
    choice of literals and matches.  Every position is also known, in ghost state,
    as an offset in the whole input. */
module MatchFinder {
  import opened Bits
  import opened Tokens
  import opened RollingHash
  import opened HashChains
  import opened Matching

  const TWO32 := 0x1_0000_0000
  const NIL := 0
  const TOO_FAR := 4096

  /** The parameters of a compression level. */
  datatype Tuning = Tuning(good: nat, lazy: nat, nice: nat, chain: nat)

  const CONFIGURATION: seq<Tuning> := [
    Tuning(0, 0, 0, 0), Tuning(4, 4, 8, 4), Tuning(4, 5, 16, 8), Tuning(4, 6, 32, 32),
    Tuning(4, 4, 16, 16), Tuning(8, 16, 32, 32), Tuning(8, 16, 128, 128), Tuning(8, 32, 128, 256),
    Tuning(32, 128, 258, 1024), Tuning(32, 258, 258, 4096)]

  function Min(a: nat, b: nat): nat {
    if a < b then a else b
  }

  class Matcher {
    const wSize: nat
    const hp: Hashing
    const tune: Tuning
    const filtered: bool
    const window: array<nat>
    const prev: array<nat>
    const head: array<nat>

    var strstart: nat
    var lookahead: nat
    var insH: nat
    var insert: nat
    var matchStart: nat
    var matchLength: nat
    var prevLength: nat
    var prevMatch: nat
    var matchAvailable: bool
    var blockStart: int
    var highWater: nat
    var input: seq<nat>

    ghost var data: seq<nat>
    ghost var base: nat
    ghost var ins: set<nat>

    constructor (wBits: nat, memLevel: nat, tune: Tuning, filtered: bool)
      requires 8 <= wBits <= 15 && 1 <= memLevel <= 9
      ensures WindowOk() && Pending() && Rolling() && SlowOk() && !matchAvailable && lookahead == 0
      ensures matchLength == prevLength == MIN_MATCH - 1 && ins == {} && insert == 0
      ensures fresh(window) && fresh(prev) && fresh(head)
      ensures input == [] && data == [] && Pos() == 0 && BlockPos() == 0
      ensures this.tune == tune && this.filtered == filtered
    {
      Pow2Values();
      Pow2Values2();
      var bits := if wBits == 8 then 9 else wBits;
      var hash := Hashing(memLevel + 7, (memLevel + 7 + MIN_MATCH - 1) / MIN_MATCH);
      wSize, hp, this.tune, this.filtered := Pow2(bits), hash, tune, filtered;
      window := new nat[2 * Pow2(bits)];
      prev := new nat[Pow2(bits)];
      head := new nat[hash.Size()];
      strstart, lookahead, insH, insert := 0, 0, 0, 0;
      matchStart, matchLength, prevLength, prevMatch, matchAvailable := 0, MIN_MATCH - 1, MIN_MATCH - 1, 0, false;
      blockStart, highWater := 0, 0;
      input, data, base, ins := [], [], 0, {};
      new;
      ClearHash();
    }

    // ---- invariants ----

    ghost predicate Shape() {
      && 512 <= wSize <= 32768 && hp.Valid()
      && window.Length == 2 * wSize && prev.Length == wSize && head.Length == hp.Size()
      && window != prev && window != head && prev != head
    }

    function MaxDist(): nat
      requires wSize >= 512
    {
      wSize - MIN_LOOKAHEAD
    }

    /** The current position in the whole input. */
    ghost function Pos(): nat
      reads `base, `strstart
    {
      base + strstart
    }

    /** Where the current block began; the window may have lost it. */
    ghost function BlockPos(): int
      reads `base, `blockStart
    {
      base + blockStart
    }

    /** The window holds the latest input, up to the end of the lookahead. */
    ghost predicate WindowOk()
      reads `strstart, `lookahead, `data, `base, `input, window
    {
      Shape() && Holds(window[..], data, base, strstart + lookahead) && Bytes(data) && Bytes(input)
    }

    /** Strings before next may be inserted. */
    ghost predicate Hashed(next: nat, lim: nat)
      reads `data, `base, `ins, head, prev
    {
      prev.Length == wSize && Chains(hp, data, base, ins, head[..], prev[..], next, lim)
    }

    /** The hash key has taken in the first two bytes of the string at x. */
    ghost predicate ReadyAt(x: nat)
      reads `insH, `data, `base
    {
      base + x + 1 < |data| && hp.Rolled(insH, data[base + x], data[base + x + 1])
    }

    /** The last insert strings were too short to be inserted when they came. */
    ghost predicate Pending()
      reads `insert, `strstart, `data, `base, `ins, head, prev
    {
      insert <= 2 && insert <= strstart && Hashed(strstart - insert, strstart)
    }

    /** With a whole string ahead, the next insertion can be made. */
    ghost predicate Rolling()
      reads `lookahead, `insert, `strstart, `insH, `data, `base
    {
      lookahead >= MIN_MATCH ==> insert == 0 && ReadyAt(strstart)
    }

    ghost predicate Valid()
      reads `strstart, `lookahead, `insH, `insert, `prevLength, `data, `base, `ins, `input, window, head, prev
    {
      WindowOk() && Pending() && Rolling() && prevLength <= MAX_MATCH && tune.chain >= 4
    }

    /** How far the match found at the previous position reaches back. */
    function HeldDist(): nat
      reads `strstart, `matchStart
    {
      (strstart - 1 - matchStart) % TWO32
    }

    /** A match found at the previous position is one, even if its start has left
        the window; and it has not been emitted. */
    ghost predicate SlowOk()
      reads `strstart, `lookahead, `data, `base, `matchStart, `matchLength, `matchAvailable
    {
      && wSize >= 512 && MIN_MATCH - 1 <= matchLength <= MAX_MATCH && (matchAvailable ==> strstart >= 1)
      && (matchLength >= MIN_MATCH ==>
            matchAvailable && HeldDist() <= MaxDist() && MatchAt(data, base + strstart - 1, HeldDist(), matchLength))
    }

    /** CLEAR_HASH */
    method ClearHash()
      requires head.Length == hp.Size() && prev.Length == wSize > 0 && head != prev && insert <= strstart
      modifies head, `ins
      ensures ins == {} && Hashed(strstart - insert, strstart) && forall k :: 0 <= k < head.Length ==> head[k] == NIL
    {
      for k := 0 to head.Length
        invariant forall i :: 0 <= i < k ==> head[i] == NIL
      {
        head[k] := NIL;
      }
      ins := {};
      ChainsEmpty(hp, data, base, head[..], prev[..], strstart - insert, strstart);
    }

    /** Forget history. If nothing lies ahead, start again at the beginning of the window;
        what came before is then no longer part of the data. */
    method Forget()
      requires WindowOk() && Pending()
      modifies head, `ins, `strstart, `blockStart, `base, `insert, `data
      ensures WindowOk() && Pending() && ins == {}
      ensures if lookahead == 0 then strstart == blockStart == insert == base == 0 && data == []
        else strstart == old(strstart) && BlockPos() == old(BlockPos()) && insert == old(insert) && base == old(base) && data == old(data)
    {
      hide Chains;
      ClearHash();
      if lookahead == 0 {
        data, base := [], 0;
        strstart, blockStart, insert := 0, 0, 0;
        ChainsEmpty(hp, data, base, head[..], prev[..], 0, 0);
      }
    }

    // ---- the dictionary ----

    /** INSERT_STRING: put the string at str at the head of its chain. */
    method InsertString(str: nat, ghost lim: nat) returns (matchHead: nat)
      requires Shape() && Hashed(str, lim) && ReadyAt(str) && str + 2 < window.Length
      requires base + str + 3 <= |data| && window[str + 2] == data[base + str + 2]
      modifies `insH, `ins, head, prev
      ensures Hashed(str + 1, if lim <= str then str + 1 else lim) && ReadyAt(str + 1)
      ensures Entry(hp, data, base, ins, matchHead, KeyAt(hp, data, base + str)) && (matchHead != NIL ==> matchHead < str)
    {
      hide Hashing.Key, Hashing.Update, Hashing.Valid, Chains, Entry;
      ghost var p := base + str;
      hp.Roll(insH, data[p], data[p + 1], data[p + 2]);
      insH := hp.Update(insH, window[str + 2]);
      ghost var h, v := head[..], prev[..];
      HeadIs(hp, data, base, ins, h, v, str, lim);
      ChainsInsert(hp, data, base, ins, h, v, str, lim, insH);
      EntryMore(hp, data, base, ins, p, h[insH], insH);
      matchHead := head[insH];
      prev[str % wSize] := matchHead;
      head[insH] := str;
      ins := ins + {p};
      assert head[..] == h[insH := str] && prev[..] == v[str % wSize := matchHead];
    }

    // ---- fill_window ----

    /** Move the window indices of a table down by wSize. */
    method SlideTable(a: array<nat>)
      modifies a
      ensures a[..] == SlidAll(old(a[..]), wSize)
    {
      ghost var was := a[..];
      var n := a.Length;
      while n > 0
        invariant 0 <= n <= a.Length
        invariant forall i :: 0 <= i < n ==> a[i] == was[i]
        invariant forall i :: n <= i < a.Length ==> a[i] == Slid(was[i], wSize)
      {
        n := n - 1;
        var m := a[n];
        a[n] := if m >= wSize then m - wSize else NIL;
      }
    }

    /** Move the upper half of the window to the lower one. */
    method CopyDown()
      requires Shape()
      modifies window
      ensures window[..wSize] == old(window[wSize..])
    {
      for i := 0 to wSize
        invariant forall k :: 0 <= k < i ==> window[k] == old(window[wSize + k])
        invariant forall k :: wSize <= k < 2 * wSize ==> window[k] == old(window[k])
      {
        window[i] := window[wSize + i];
      }
    }

    /** Make room in the upper half; positions in the whole input stay. */
    method Slide()
      requires WindowOk() && Pending() && strstart >= wSize + MaxDist()
      modifies `matchStart, `strstart, `blockStart, `base, window, head, prev
      ensures WindowOk() && Pending() && strstart == old(strstart) - wSize
      ensures Pos() == old(Pos()) && BlockPos() == old(BlockPos()) && HeldDist() == old(HeldDist())
    {
      hide Chains, Hashing.Valid, Holds, Bytes, SlidAll;
      Room();
      ghost var h, v, win := head[..], prev[..], window[..];
      ChainsSlide(hp, data, base, ins, h, v, strstart - insert, strstart);
      CopyDown();
      HoldsMoved(win, window[..], data, base, strstart + lookahead, wSize);
      HeldMoves(strstart, matchStart, wSize);
      matchStart := (matchStart - wSize) % TWO32;
      strstart := strstart - wSize;
      blockStart := blockStart - wSize;
      base := base + wSize;
      SlideTable(head);
      SlideTable(prev);
    }

    /** read_buf: copy input behind the lookahead, as much as there is room for. */
    method ReadInput(more: nat)
      requires WindowOk() && Pending() && strstart + lookahead + more == 2 * wSize
      modifies `lookahead, `input, `data, window
      ensures WindowOk() && Pending() && lookahead == old(lookahead) + Min(more, |old(input)|)
      ensures old(data) <= data && data + input == old(data + input) && |input| == |old(input)| - Min(more, |old(input)|)
    {
      var len := if |input| > more then more else |input|;
      var at := strstart + lookahead;
      ghost var win := window[..];
      for i := 0 to len
        modifies window
        invariant forall k :: 0 <= k < at ==> window[k] == win[k]
        invariant forall k :: 0 <= k < i ==> window[at + k] == input[k]
      {
        window[at + i] := input[i];
      }
      HoldsMore(win, window[..], data, base, at, input, len);
      ChainsMoreData(hp, data, data + input[..len], base, ins, head[..], prev[..], strstart - insert, strstart);
      hide Chains;
      data := data + input[..len];
      input := input[len..];
      lookahead := lookahead + len;
    }

    /** Start the hash key again, and insert the strings that were too short before. */
    method InsertPending()
      requires WindowOk() && Pending()
      modifies `insH, `insert, `ins, head, prev
      ensures WindowOk() && Pending() && Rolling() && (old(insert) == 0 ==> insert == 0 && ins == old(ins))
    {
      hide Hashing.Update, Hashing.Valid, Chains, Holds;
      if lookahead + insert >= MIN_MATCH {
        var str := strstart - insert;
        ghost var n := strstart + lookahead;
        HoldsThree(window[..], data, base, n, str);
        hp.RollStart(window[str], window[str + 1]);
        insH := window[str];
        insH := hp.Update(insH, window[str + 1]);
        InsertTooShort();
      }
    }

    /** Insert the strings that were too short before, as far as they are whole now. */
    method InsertTooShort()
      requires WindowOk() && Pending() && lookahead + insert >= MIN_MATCH && ReadyAt(strstart - insert)
      modifies `insH, `insert, `ins, head, prev
      ensures WindowOk() && Pending() && Rolling() && (old(insert) == 0 ==> insert == 0 && ins == old(ins))
    {
      hide Chains, Holds, Hashing.Valid, Hashing.Update, Bytes, Entry, KeyAt;
      var str := strstart - insert;
      ghost var n := strstart + lookahead;
      while insert > 0
        invariant insert <= 2 && str + insert == strstart && Hashed(str, strstart) && ReadyAt(str)
        invariant insert > 0 ==> lookahead + insert >= MIN_MATCH
        invariant old(insert) == 0 ==> insert == 0 && ins == old(ins)
      {
        HoldsThree(window[..], data, base, n, str);
        var older := InsertString(str, strstart);
        str := str + 1;
        insert := insert - 1;
        if lookahead + insert < MIN_MATCH { break; }
      }
    }

    /** Zero what the match finder may read beyond the input. */
    method ZeroAhead()
      requires WindowOk()
      modifies `highWater, window
      ensures WindowOk() && highWater >= Min(2 * wSize, strstart + lookahead + MAX_MATCH) 
    {
      ghost var win := window[..];
      if highWater < 2 * wSize {
        var curr := strstart + lookahead;
        if highWater < curr {
          var init := Min(2 * wSize - curr, MAX_MATCH);
          Zero(curr, init);
          highWater := curr + init;
        } else if highWater < curr + MAX_MATCH {
          var init := Min(curr + MAX_MATCH - highWater, 2 * wSize - highWater);
          Zero(highWater, init);
          highWater := highWater + init;
        }
      }
    }

    method Zero(at: nat, n: nat)
      requires WindowOk() && strstart + lookahead <= at && at + n <= 2 * wSize
      modifies window
      ensures WindowOk() && forall k :: at <= k < at + n ==> window[k] == 0
    {
      ghost var win := window[..];
      for i := 0 to n
        invariant forall k :: 0 <= k < at ==> window[k] == win[k]
        invariant forall k :: at <= k < at + i ==> window[k] == 0
      {
        window[at + i] := 0;
      }
      assert window[..strstart + lookahead] == win[..strstart + lookahead];
    }

    lemma Room()
      requires WindowOk()
      ensures Shape() && strstart + lookahead <= 2 * wSize && base + strstart + lookahead == |data|
    {
    }

    /** Slide if there is no room, and read some input: one turn of FillWindow. */
    method FillOnce() returns (again: bool)
      requires WindowOk() && Pending() && lookahead < MIN_LOOKAHEAD
      modifies `matchStart, `strstart, `blockStart, `base, `lookahead, `input, `data, `insH, `insert, `ins, window, head, prev
      ensures WindowOk() && Pending() && (old(Rolling()) ==> Rolling())
      ensures if again then lookahead < MIN_LOOKAHEAD && |input| < |old(input)|
        else strstart <= 2 * wSize - MIN_LOOKAHEAD && (lookahead >= MIN_LOOKAHEAD || input == [])
      ensures Pos() == old(Pos()) && BlockPos() == old(BlockPos()) && HeldDist() == old(HeldDist())
      ensures old(data) <= data && data + input == old(data + input) && |input| + lookahead == |old(input)| + old(lookahead)
      ensures (old(insert) == 0 ==> insert == 0 && ins == old(ins)) && (strstart == old(strstart) || strstart >= MaxDist())
    {
      hide Chains, Holds, Bytes, Hashing.Valid, MatchAt;
      Room();
      var more := 2 * wSize - lookahead - strstart;
      if strstart >= wSize + MaxDist() {
        Slide();
        more := more + wSize;
      }
      if |input| == 0 {
        again := false;
      } else {
        Room();
        ReadInput(more);
        InsertPending();
        again := lookahead < MIN_LOOKAHEAD && |input| != 0;
      }
    }

    /** Fill the window when the lookahead becomes insufficient. */
    method FillWindow()
      requires WindowOk() && Pending() && lookahead < MIN_LOOKAHEAD
      modifies `matchStart, `strstart, `blockStart, `base, `lookahead, `input, `data, `insH, `insert, `ins, `highWater
      modifies window, head, prev
      ensures WindowOk() && Pending() && (old(Rolling()) ==> Rolling())
      ensures strstart <= 2 * wSize - MIN_LOOKAHEAD && (lookahead >= MIN_LOOKAHEAD || input == [])
      ensures Pos() == old(Pos()) && BlockPos() == old(BlockPos()) && HeldDist() == old(HeldDist())
      ensures old(data) <= data && data + input == old(data + input) && |input| + lookahead == |old(input)| + old(lookahead)
      ensures old(SlowOk()) ==> SlowOk()
      ensures (old(insert) == 0 ==> insert == 0 && ins == old(ins)) && (strstart == old(strstart) || strstart >= MaxDist())
    {
      hide *;
      ghost var slow := SlowOk();
      Wide();
      var again := true;
      while again
        invariant WindowOk() && Pending() && (old(Rolling()) ==> Rolling())
        invariant if again then lookahead < MIN_LOOKAHEAD else strstart <= 2 * wSize - MIN_LOOKAHEAD && (lookahead >= MIN_LOOKAHEAD || input == [])
        invariant Pos() == old(Pos()) && BlockPos() == old(BlockPos()) && HeldDist() == old(HeldDist())
        invariant old(data) <= data && data + input == old(data + input) && |input| + lookahead == |old(input)| + old(lookahead)
        invariant strstart == old(strstart) || strstart >= MaxDist()
        invariant old(insert) == 0 ==> insert == 0 && ins == old(ins)
        decreases |input|, again
      {
        again := FillOnce();
      }
      ZeroAhead();
      if slow { StillHeld(); }
    }

    lemma Wide()
      requires WindowOk()
      ensures wSize >= 512 && window != head && window != prev
    {
    }

    /** More input and a slide leave the match found before one. */
    twostate lemma StillHeld()
      requires old(SlowOk())
      requires Pos() == old(Pos()) && HeldDist() == old(HeldDist()) && old(data) <= data && matchLength == old(matchLength)
      requires matchAvailable == old(matchAvailable) && (strstart == old(strstart) || strstart >= MaxDist())
      ensures SlowOk()
    {
      hide MatchAt;
      if matchLength >= MIN_MATCH {
        MatchStays(old(data), data, Pos() - 1, HeldDist(), matchLength);
      }
    }

    // ---- longest_match ----

    /** How far the strings at c and strstart agree, from the fourth byte on. The
        limit is only looked at after every eighth comparison. */
    method CompareBytes(c: nat) returns (len: nat)
      requires Shape() && c < strstart && strstart + MAX_MATCH < window.Length && Same(window[..], c, strstart, 3)
      ensures 3 <= len <= MAX_MATCH && Same(window[..], c, strstart, len) && NoLonger(window[..], c, strstart, len)
    {
      hide Same;
      ghost var win := window[..];
      len := 2;
      var more := true;
      while more
        invariant 2 <= len <= MAX_MATCH && (more || len >= 3)
        invariant if more then len < MAX_MATCH && Same(win, c, strstart, len + 1)
          else Same(win, c, strstart, len) && NoLonger(win, c, strstart, len)
        decreases MAX_MATCH - len, more
      {
        len := len + 1;
        if len < MAX_MATCH { SameSnoc(win, c, strstart, len); }
        if window[strstart + len] != window[c + len] {
          more := false;
        } else if (len - 2) % 8 == 0 && len >= MAX_MATCH {
          more := false;
        }
      }
    }

    /** The first checks of longest_match: whether the string at c can be longer than
        best. They do not look at the third byte. */
    method Promising(c: nat, best: nat, scanEnd1: nat, scanEnd: nat) returns (ok: bool)
      requires WindowOk() && c < strstart && strstart + MAX_MATCH < window.Length && 1 <= best <= MAX_MATCH && lookahead >= MIN_MATCH
      requires scanEnd1 == window[strstart + best - 1] && scanEnd == window[strstart + best]
      requires KeyAt(hp, data, base + c) == KeyAt(hp, data, base + strstart)
      ensures if ok then Same(window[..], c, strstart, 3) else NoLonger(window[..], c, strstart, best)
    {
      hide KeyAt, Holds, Same, NoLonger;
      ok := !(window[c + best] != scanEnd || window[c + best - 1] != scanEnd1
              || window[c] != window[strstart] || window[c + 1] != window[strstart + 1]);
      if ok { FirstThree(c); } else { Unpromising(window[..], c, strstart, best); }
    }

    /** Strings with the same key and the same first two bytes agree on three. */
    lemma FirstThree(c: nat)
      requires WindowOk() && c < strstart && strstart + MAX_MATCH < window.Length && lookahead >= MIN_MATCH
      requires KeyAt(hp, data, base + c) == KeyAt(hp, data, base + strstart)
      requires window[c] == window[strstart] && window[c + 1] == window[strstart + 1]
      ensures Same(window[..], c, strstart, 3)
    {
      hide KeyAt, Holds, Same;
      HoldsThree(window[..], data, base, strstart + lookahead, c);
      HoldsThree(window[..], data, base, strstart + lookahead, strstart);
      SameThird(hp, data, base + c, base + strstart);
      ThreeSame(window[..], c, strstart);
    }

    /** Compare with the string at c; it becomes the match if it is longer than best. */
    method TryCandidate(c: nat, best: nat, scanEnd1: nat, scanEnd: nat) returns (longer: bool, len: nat)
      requires WindowOk() && c < strstart && strstart + MAX_MATCH < window.Length && 1 <= best <= MAX_MATCH && lookahead >= MIN_MATCH
      requires scanEnd1 == window[strstart + best - 1] && scanEnd == window[strstart + best]
      requires KeyAt(hp, data, base + c) == KeyAt(hp, data, base + strstart)
      modifies `matchStart
      ensures best <= len <= MAX_MATCH && longer == (len > best) && NoLonger(window[..], c, strstart, len)
      ensures if longer then matchStart == c && Same(window[..], c, strstart, len) else matchStart == old(matchStart)
    {
      hide KeyAt, Holds, Same, Bytes, NoLonger;
      longer, len := false, best;
      var ok := Promising(c, best, scanEnd1, scanEnd);
      if ok {
        len := CompareBytes(c);
        if len > best {
          matchStart := c;
          longer := true;
        } else {
          NoLongerThan(window[..], c, strstart, len, best);
          len := best;
        }
      }
    }

    /** Candidates older than this are too far away. */
    function Limit(): nat
      requires wSize >= 512
      reads `strstart
    {
      if strstart > MaxDist() then strstart - MaxDist() else NIL
    }

    /** How many candidates are tried: fewer if there is a good match already. */
    function ChainLength(): (n: nat)
      requires tune.chain >= 4
      reads `prevLength
      ensures n >= 1
    {
      if prevLength >= tune.good then tune.chain / 4 else tune.chain
    }

    /** Try a candidate of the chain; its link leads to an older one. */
    method TryNext(c: nat, best: nat, scanEnd1: nat, scanEnd: nat, ghost key: nat) returns (longer: bool, len: nat)
      requires WindowOk() && c < strstart && strstart + MAX_MATCH < window.Length && 1 <= best <= MAX_MATCH && lookahead >= MIN_MATCH
      requires scanEnd1 == window[strstart + best - 1] && scanEnd == window[strstart + best]
      requires Hashed(strstart + 1, strstart + 1) && key == KeyAt(hp, data, Pos())
      requires c != NIL && Entry(hp, data, base, ins, c, key) && c + wSize >= strstart + 1
      modifies `matchStart
      ensures best <= len <= MAX_MATCH && longer == (len > best) && NoLonger(window[..], c, strstart, len)
      ensures if longer then matchStart == c && Same(window[..], c, strstart, len) else matchStart == old(matchStart)
      ensures prev[c % wSize] < c && Entry(hp, data, base, ins, prev[c % wSize], key)
    {
      hide Chains, Entry, KeyAt, Holds, Same, Bytes, NoLonger, Hashing.Valid;
      EntryKey(hp, data, base, ins, c, key);
      longer, len := TryCandidate(c, best, scanEnd1, scanEnd);
      FollowLink(hp, data, base, ins, head[..], prev[..], strstart + 1, strstart + 1, c, key);
    }

    /** The longest match for the string at strstart among the candidates of its
        chain; only matches longer than prevLength count. */
    method LongestMatch(curMatch: nat) returns (len: nat, ghost tried: seq<nat>)
      requires WindowOk() && Hashed(strstart + 1, strstart + 1) && 1 <= prevLength <= MAX_MATCH && tune.chain >= 4
      requires strstart <= 2 * wSize - MIN_LOOKAHEAD && lookahead >= MIN_MATCH
      requires Entry(hp, data, base, ins, curMatch, KeyAt(hp, data, Pos()))
      requires curMatch != NIL && curMatch < strstart && strstart - curMatch <= MaxDist()
      modifies `matchStart
      ensures len <= lookahead && len <= MAX_MATCH
      ensures if len > prevLength
        then matchStart < strstart && strstart - matchStart <= MaxDist() && MatchAt(data, Pos(), strstart - matchStart, len)
        else len == Min(prevLength, lookahead)
      ensures var all := Candidates(prev[..], curMatch, Limit(), ChainLength());
        tried <= all && (len >= Min(tune.nice, lookahead) || tried == all)
      ensures NoneLongerThan(data, base, strstart, tried, len)
    {
      hide Chains, Entry, KeyAt, Holds, Same, MatchAt, Bytes, Hashing.Valid, Candidates, NoLonger, NoneLongerThan, WindowOk, Hashed;
      Room();
      ghost var win, chain := window[..], prev[..];
      ghost var key := KeyAt(hp, data, Pos());
      var chainLength := tune.chain;
      var best := prevLength;
      var niceMatch := tune.nice;
      var limit := if strstart > MaxDist() then strstart - MaxDist() else NIL;
      var scanEnd1, scanEnd := window[strstart + best - 1], window[strstart + best];
      if prevLength >= tune.good { chainLength := chainLength / 4; }
      if niceMatch > lookahead { niceMatch := lookahead; }
      ghost var all := Candidates(chain, curMatch, limit, chainLength);
      tried := [];
      var cur := curMatch;
      var more := true;
      while more
        invariant prevLength <= best <= MAX_MATCH
        invariant more ==> scanEnd1 == window[strstart + best - 1] && scanEnd == window[strstart + best]
        invariant best > prevLength ==> matchStart < strstart && strstart - matchStart <= MaxDist() && Same(win, matchStart, strstart, best)
        invariant more ==> chainLength >= 1 && cur != NIL && limit <= cur < strstart && Entry(hp, data, base, ins, cur, key)
        invariant more ==> all == tried + Candidates(chain, cur, limit, chainLength)
        invariant !more ==> tried <= all && (best >= niceMatch || tried == all)
        invariant AllNoLonger(win, tried, strstart, best)
        decreases if more then chainLength else 0
      {
        ghost var was := best;
        var longer;
        longer, best := TryNext(cur, best, scanEnd1, scanEnd, key);
        Tried(win, tried, cur, strstart, was, best);
        FirstCandidate(chain, cur, limit, chainLength, tried);
        tried := tried + [cur];
        if longer && best >= niceMatch {
          more := false;
        } else {
          if longer { scanEnd1, scanEnd := window[strstart + best - 1], window[strstart + best]; }
          cur := prev[cur % wSize];
          if cur > limit {
            chainLength := chainLength - 1;
            more := chainLength != 0;
          } else {
            more := false;
          }
        }
      }
      if best > prevLength { MatchFound(matchStart, best); }
      NoneFound(tried, best);
      len := if best <= lookahead then best else lookahead;
    }

    lemma MatchFound(c: nat, best: nat)
      requires WindowOk() && c < strstart && Same(window[..], c, strstart, best)
      ensures MatchAt(data, Pos(), strstart - c, Min(best, lookahead))
    {
      hide Holds, Same, MatchAt, Bytes;
      SameIsMatch(window[..], data, base, strstart + lookahead, c, strstart, best);
    }

    lemma NoneFound(tried: seq<nat>, best: nat)
      requires WindowOk() && AllNoLonger(window[..], tried, strstart, best)
      ensures NoneLongerThan(data, base, strstart, tried, Min(best, lookahead))
    {
      hide Holds, NoneLongerThan, AllNoLonger, Bytes;
      NoneLonger(window[..], data, base, strstart + lookahead, tried, strstart, best);
    }

    // ---- one turn of each strategy ----

    /** The string at strstart, if it is whole, has been entered; n is the end of the input. */
    ghost predicate Entered(n: nat)
      reads `insert, `strstart, `insH, `data, `base, `ins, head, prev
    {
      && insert <= 2 && insert <= strstart && Hashed(strstart + 1 - insert, strstart + 1)
      && (strstart + MIN_MATCH <= n ==> insert == 0 && ReadyAt(strstart + 1))
    }

    /** Enter the string at strstart and look up the head of its chain. */
    method EnterString() returns (hashHead: nat)
      requires WindowOk() && Pending() && Rolling() && strstart + 2 < window.Length
      modifies `insH, `ins, head, prev
      ensures Entered(strstart + lookahead)
      ensures Entry(hp, data, base, ins, hashHead, KeyAt(hp, data, Pos()))
      ensures hashHead != NIL ==> hashHead < strstart && lookahead >= MIN_MATCH
    {
      hide Chains, Holds, KeyAt, Entry, Hashing.Valid;
      hashHead := NIL;
      if lookahead >= MIN_MATCH {
        HoldsThree(window[..], data, base, strstart + lookahead, strstart);
        hashHead := InsertString(strstart, strstart);
      } else {
        ChainsLater(hp, data, base, ins, head[..], prev[..], strstart - insert, strstart, strstart + 1 - insert, strstart + 1);
        NilEntry(hp, data, base, ins, KeyAt(hp, data, Pos()));
      }
    }

    /** Enter the strings inside a match, all of them whole. */
    method EnterMatch(ghost n: nat)
      requires Shape() && Holds(window[..], data, base, n) && Bytes(data) && Entered(n) && strstart + matchLength + MIN_MATCH <= n
      modifies `insH, `ins, `strstart, `matchLength, head, prev
      ensures Entered(n) && strstart == old(strstart) + old(matchLength) && matchLength == 0
    {
      hide Chains, Holds, Hashing.Valid, Bytes;
      while matchLength != 0
        invariant Entered(n) && strstart + matchLength == old(strstart) + old(matchLength)
      {
        EnterNext(n);
        matchLength := matchLength - 1;
      }
    }

    /** Enter the next string, which is whole. */
    method EnterNext(ghost n: nat)
      requires Shape() && Holds(window[..], data, base, n) && Bytes(data) && Entered(n) && strstart + 1 + MIN_MATCH <= n
      modifies `insH, `ins, `strstart, head, prev
      ensures Entered(n) && strstart == old(strstart) + 1
    {
      hide Chains, Holds, Hashing.Valid, Bytes;
      strstart := strstart + 1;
      HoldsThree(window[..], data, base, n, strstart);
      var older := InsertString(strstart, strstart);
    }

    /** Pass over a string that is not whole. */
    method EnterNone(ghost n: nat)
      requires Shape() && Entered(n) && strstart + 1 + MIN_MATCH > n
      modifies `strstart
      ensures Entered(n) && strstart == old(strstart) + 1
    {
      hide Chains;
      strstart := strstart + 1;
      ChainsLater(hp, data, base, ins, head[..], prev[..], strstart - insert, strstart, strstart + 1 - insert, strstart + 1);
    }

    /** Enter the strings inside a match as far as they are whole. */
    method EnterUpTo(maxInsert: nat, ghost n: nat)
      requires Shape() && Holds(window[..], data, base, n) && Bytes(data) && Entered(n) && maxInsert + MIN_MATCH == n
      modifies `insH, `ins, `strstart, `prevLength, head, prev
      ensures Entered(n) && strstart == old(strstart) + old(prevLength) && prevLength == 0
    {
      hide Chains, Holds, Hashing.Valid, Bytes;
      while prevLength != 0
        invariant Entered(n) && strstart + prevLength == old(strstart) + old(prevLength)
      {
        if strstart + 1 <= maxInsert { EnterNext(n); } else { EnterNone(n); }
        prevLength := prevLength - 1;
      }
    }

    /** Skip a match without entering its strings, and start the hash key again. */
    method SkipMatch()
      requires WindowOk() && Entered(strstart + lookahead) && matchLength >= 1 && strstart + matchLength + 1 < window.Length
      requires matchLength <= lookahead
      modifies `insH, `strstart, `lookahead, `matchLength
      ensures WindowOk() && Pending() && Rolling() && matchLength == 0
      ensures strstart == old(strstart) + old(matchLength) && strstart + lookahead == old(strstart) + old(lookahead)
    {
      hide Chains, Holds, Hashing.Valid, Bytes, Hashing.Update;
      ghost var next := strstart + matchLength;
      ChainsLater(hp, data, base, ins, head[..], prev[..], strstart + 1 - insert, strstart + 1, next - insert, next);
      lookahead := lookahead - matchLength;
      strstart := strstart + matchLength;
      matchLength := 0;
      insH := window[strstart];
      insH := hp.Update(insH, window[strstart + 1]);
      if lookahead >= MIN_MATCH {
        HoldsThree(window[..], data, base, strstart + lookahead, strstart);
        hp.RollStart(window[strstart], window[strstart + 1]);
      }
    }

    /** The match just found at strstart, if long enough, is one. */
    ghost predicate Found()
      reads `strstart, `lookahead, `data, `base, `matchStart, `matchLength
    {
      && wSize >= 512 && matchLength <= MAX_MATCH
      && (matchLength >= MIN_MATCH ==>
            matchLength <= lookahead && matchStart < strstart && strstart - matchStart <= MaxDist()
            && MatchAt(data, base + strstart, strstart - matchStart, matchLength))
    }

    /** Find the longest match, discarding those not longer than prevLength. */
    method FindMatch(hashHead: nat)
      requires WindowOk() && Entered(strstart + lookahead) && 1 <= prevLength <= MAX_MATCH && tune.chain >= 4
      requires strstart <= 2 * wSize - MIN_LOOKAHEAD && lookahead >= MIN_MATCH
      requires Entry(hp, data, base, ins, hashHead, KeyAt(hp, data, Pos()))
      requires hashHead != NIL && hashHead < strstart && strstart - hashHead <= MaxDist()
      modifies `matchStart, `matchLength
      ensures if matchLength > prevLength then Found() else matchLength == Min(prevLength, lookahead)
    {
      hide Chains, Holds, Hashing.Valid, Bytes, Entry, KeyAt, MatchAt, Candidates, NoneLongerThan;
      ghost var tried;
      matchLength, tried := LongestMatch(hashHead);
    }

    /** One turn of deflate_fast: a match if there is one, else a literal. */
    method FastStep() returns (t: Token)
      requires Valid() && lookahead > 0 && strstart <= 2 * wSize - MIN_LOOKAHEAD && matchLength < MIN_MATCH && prevLength == MIN_MATCH - 1
      modifies `insH, `ins, `strstart, `lookahead, `matchStart, `matchLength, head, prev
      ensures Valid() && matchLength < MIN_MATCH && strstart + lookahead == old(strstart + lookahead)
      ensures Covers(data, old(Pos()), t, Pos()) && lookahead < old(lookahead) && strstart <= old(strstart) + MAX_MATCH
    {
      hide Chains, Holds, Hashing.Valid, Bytes, Entry, KeyAt, MatchAt, Covers;
      var hashHead := EnterString();
      if hashHead != NIL && strstart - hashHead <= MaxDist() {
        FindMatch(hashHead);
      }
      if matchLength >= MIN_MATCH {
        t := TakeMatch();
      } else {
        t := TakeLiteral();
      }
    }

    method TakeMatch() returns (t: Token)
      requires WindowOk() && Entered(strstart + lookahead) && Found() && matchLength >= MIN_MATCH
      requires strstart <= 2 * wSize - MIN_LOOKAHEAD
      modifies `insH, `ins, `strstart, `lookahead, `matchLength, head, prev
      ensures WindowOk() && Pending() && Rolling() && matchLength == 0 && strstart + lookahead == old(strstart + lookahead)
      ensures Covers(data, old(Pos()), t, Pos()) && lookahead < old(lookahead) && strstart <= old(strstart) + MAX_MATCH
    {
      hide Chains, Holds, Hashing.Valid, Bytes, MatchAt, Covers;
      t := Match(matchLength, strstart - matchStart);
      MatchCovers(data, Pos(), strstart - matchStart, matchLength);
      if matchLength <= tune.lazy && lookahead - matchLength >= MIN_MATCH {
        KeepMatch();
      } else {
        SkipMatch();
      }
    }

    /** Pass over a match, entering its strings. */
    method KeepMatch()
      requires WindowOk() && Entered(strstart + lookahead) && 1 <= matchLength && matchLength + MIN_MATCH <= lookahead
      modifies `insH, `ins, `strstart, `lookahead, `matchLength, head, prev
      ensures WindowOk() && Pending() && Rolling() && matchLength == 0
      ensures strstart == old(strstart) + old(matchLength) && strstart + lookahead == old(strstart) + old(lookahead)
    {
      hide Chains, Holds, Hashing.Valid, Bytes;
      ghost var n := strstart + lookahead;
      lookahead := lookahead - matchLength;
      matchLength := matchLength - 1;
      EnterMatch(n);
      strstart := strstart + 1;
    }

    method TakeLiteral() returns (t: Token)
      requires WindowOk() && Entered(strstart + lookahead) && lookahead > 0
      modifies `strstart, `lookahead
      ensures WindowOk() && Pending() && Rolling() && strstart == old(strstart) + 1 && lookahead == old(lookahead) - 1
      ensures Covers(data, old(Pos()), t, Pos())
    {
      hide Chains, Holds, Hashing.Valid, Covers;
      Room();
      HoldsAt(window[..], data, base, strstart + lookahead, strstart);
      LitCovers(data, Pos());
      t := Lit(window[strstart]);
      lookahead := lookahead - 1;
      strstart := strstart + 1;
    }

    /** The first half of a turn of deflate_slow: keep the previous match and look
        for a longer one here. */
    method SlowFind()
      requires Valid() && SlowOk() && lookahead > 0 && strstart <= 2 * wSize - MIN_LOOKAHEAD
      modifies `insH, `ins, `matchStart, `matchLength, `prevLength, `prevMatch, head, prev
      ensures SlowFound()
    {
      hide Chains, Holds, Hashing.Valid, Bytes, Entry, KeyAt, MatchAt;
      var hashHead := EnterString();
      prevLength, prevMatch := matchLength, matchStart;
      FindLazily(hashHead);
    }

    ghost predicate SlowFound()
      reads `strstart, `lookahead, `insert, `insH, `data, `base, `ins, `input, `matchStart, `matchLength
      reads `prevMatch, `prevLength, `matchAvailable, window, head, prev
    {
      && WindowOk() && Entered(strstart + lookahead) && Held() && lookahead > 0 && tune.chain >= 4
      && (matchLength == MIN_MATCH - 1 || (matchLength > prevLength && Found()) || (matchLength <= prevLength && prevLength >= MIN_MATCH))
    }

    lemma FoundWindow()
      requires SlowFound()
      ensures WindowOk() && (matchAvailable ==> strstart >= 1)
    {
    }

    /** Look for a match unless the previous one is long enough; very short ones
        that are far away are dropped. */
    method FindLazily(hashHead: nat)
      requires WindowOk() && Entered(strstart + lookahead) && MIN_MATCH - 1 <= prevLength <= MAX_MATCH && tune.chain >= 4
      requires strstart <= 2 * wSize - MIN_LOOKAHEAD
      requires Entry(hp, data, base, ins, hashHead, KeyAt(hp, data, Pos()))
      requires hashHead != NIL ==> hashHead < strstart && lookahead >= MIN_MATCH
      modifies `matchStart, `matchLength
      ensures matchLength == MIN_MATCH - 1 || (matchLength > prevLength && Found()) || (matchLength <= prevLength && prevLength >= MIN_MATCH)
    {
      hide Chains, Holds, Hashing.Valid, Bytes, Entry, KeyAt, MatchAt;
      matchLength := MIN_MATCH - 1;
      if hashHead != NIL && prevLength < tune.lazy && strstart - hashHead <= MaxDist() {
        FindMatch(hashHead);
        if matchLength <= 5 && (filtered || (matchLength == MIN_MATCH && (strstart - matchStart) % TWO32 > TOO_FAR)) {
          matchLength := MIN_MATCH - 1;
        }
      }
    }

    /** The match kept from the previous position, in prevLength and prevMatch, is one. */
    ghost predicate Held()
      reads `strstart, `data, `base, `prevMatch, `prevLength, `matchAvailable
    {
      && wSize >= 512 && MIN_MATCH - 1 <= prevLength <= MAX_MATCH && (matchAvailable ==> strstart >= 1)
      && (prevLength >= MIN_MATCH ==>
            matchAvailable && (strstart - 1 - prevMatch) % TWO32 <= MaxDist()
            && MatchAt(data, base + strstart - 1, (strstart - 1 - prevMatch) % TWO32, prevLength))
    }

    /** Output the match kept from the previous position. */
    method TakeHeld() returns (t: Token)
      requires SlowFound() && prevLength >= MIN_MATCH
      modifies `insH, `ins, `strstart, `lookahead, `matchLength, `prevLength, `matchAvailable, head, prev
      ensures Valid() && SlowOk() && old(matchAvailable) && !matchAvailable && strstart + lookahead == old(strstart + lookahead)
      ensures Covers(data, old(Pos()) - 1, t, Pos()) && lookahead < old(lookahead) && strstart <= old(strstart) + MAX_MATCH
    {
      hide Chains, Holds, Hashing.Valid, Bytes, MatchAt, Covers;
      ghost var n, pos := strstart + lookahead, Pos() - 1;
      Room();
      var maxInsert := strstart + lookahead - MIN_MATCH;
      var distance := (strstart - 1 - prevMatch) % TWO32;
      t := Match(prevLength, distance);
      MatchCovers(data, pos, distance, prevLength);
      MatchEnds(data, pos, distance, prevLength);
      lookahead := lookahead - (prevLength - 1);
      prevLength := prevLength - 2;
      EnterUpTo(maxInsert, n);
      matchAvailable := false;
      matchLength := MIN_MATCH - 1;
      strstart := strstart + 1;
    }

    /** The previous byte, as a literal. */
    method HeldLiteral() returns (t: Token)
      requires SlowFound() && matchAvailable
      ensures Covers(data, Pos() - 1, t, Pos())
    {
      hide Holds, Covers;
      Room();
      HoldsAt(window[..], data, base, strstart + lookahead, strstart - 1);
      LitCovers(data, Pos() - 1);
      t := Lit(window[strstart - 1]);
    }

    /** Go on to the next position, keeping the byte and the match found here. */
    method Advance()
      requires SlowFound() && !(prevLength >= MIN_MATCH && matchLength <= prevLength)
      modifies `strstart, `lookahead, `matchAvailable
      ensures Valid() && SlowOk() && matchAvailable && strstart == old(strstart) + 1 && lookahead == old(lookahead) - 1
    {
      hide Hashed, ReadyAt, Holds, Bytes, Hashing.Valid, MatchAt;
      Room();
      if matchLength >= MIN_MATCH { HeldIs(strstart, matchStart); }
      matchAvailable := true;
      strstart := strstart + 1;
      lookahead := lookahead - 1;
    }

    /** Where the emitted tokens end: up to one byte is held back. */
    ghost function EmittedTo(): int
      reads `base, `strstart, `matchAvailable
    {
      if matchAvailable then Pos() - 1 else Pos()
    }

    /** The byte held back when the input ends. */
    method LastLiteral() returns (t: Token)
      requires Valid() && SlowOk() && matchAvailable && lookahead == 0
      modifies `matchAvailable
      ensures Valid() && SlowOk() && !matchAvailable && EmittedTo() == Pos()
      ensures Covers(data, old(EmittedTo()), t, EmittedTo())
    {
      hide Chains, Holds, Covers, MatchAt, Bytes;
      Room();
      if matchLength >= MIN_MATCH { MatchEnds(data, Pos() - 1, HeldDist(), matchLength); }
      HoldsAt(window[..], data, base, strstart + lookahead, strstart - 1);
      LitCovers(data, Pos() - 1);
      t := Lit(window[strstart - 1]);
      matchAvailable := false;
    }

    /** When the input ends, the last strings stay to be inserted. */
    method LeavePending()
      requires WindowOk() && Pending() && lookahead == 0
      modifies `insert
      ensures Pending() && Rolling() && insert == Min(strstart, MIN_MATCH - 1)
    {
      hide Chains, Holds;
      Room();
      insert := if strstart < MIN_MATCH - 1 then strstart else MIN_MATCH - 1;
      ChainsAtEnd(hp, data, base, ins, head[..], prev[..], old(strstart - insert), strstart - insert, strstart);
    }

    /** Without a dictionary no strings stay to be inserted. */
    method LeaveNone()
      requires Pending()
      modifies `insert
      ensures Pending() && insert == 0
    {
      hide HashChains.Chains;
      ChainsLater(hp, data, base, ins, head[..], prev[..], strstart - insert, strstart, strstart, strstart);
      insert := 0;
    }

    /** How often the byte before strstart is repeated, given that it is three times. */
    method RunLength() returns (len: nat)
      requires Shape() && strstart >= 1 && strstart + MAX_MATCH < window.Length && Same(window[..], strstart - 1, strstart, 3)
      ensures 3 <= len <= MAX_MATCH && Same(window[..], strstart - 1, strstart, len)
    {
      hide Same;
      ghost var win, s := window[..], strstart;
      var byte := window[strstart - 1];
      len := 2;
      var more := true;
      SameByte(win, s - 1, s, 3, 0);
      SameByte(win, s - 1, s, 3, 1);
      SameByte(win, s - 1, s, 3, 2);
      while more
        invariant 2 <= len <= MAX_MATCH && (more || len >= 3)
        invariant if more then len < MAX_MATCH && Same(win, s - 1, s, len + 1) && win[s + len] == byte else Same(win, s - 1, s, len)
        decreases MAX_MATCH - len, more
      {
        len := len + 1;
        if len < MAX_MATCH { SameSnoc(win, s - 1, s, len); }
        if byte != window[strstart + len] {
          more := false;
        } else if (len - 2) % 8 == 0 && len >= MAX_MATCH {
          more := false;
        }
      }
    }

    /** See how many times the previous byte repeats. */
    method FindRun()
      requires WindowOk() && strstart + MAX_MATCH < window.Length
      modifies `matchLength
      ensures matchLength == 0 || (MIN_MATCH <= matchLength <= MAX_MATCH && matchLength <= lookahead && MatchAt(data, Pos(), 1, matchLength))
    {
      hide WindowOk, Same, MatchAt;
      ghost var win := window[..];
      Room();
      matchLength := 0;
      if lookahead >= MIN_MATCH && strstart > 0 {
        var byte := window[strstart - 1];
        if byte == window[strstart] && byte == window[strstart + 1] && byte == window[strstart + 2] {
          ThreeSame(win, strstart - 1, strstart);
          matchLength := RunLength();
          MatchFound(strstart - 1, matchLength);
          if matchLength > lookahead { matchLength := lookahead; }
        }
      }
    }

    /** One turn of deflate_rle: matches of distance one only. */
    method RleStep() returns (t: Token)
      requires WindowOk() && Pending() && lookahead > 0 && strstart + MAX_MATCH < window.Length
      modifies `strstart, `lookahead, `matchLength
      ensures WindowOk() && Pending() && strstart + lookahead == old(strstart + lookahead) && lookahead < old(lookahead)
      ensures Covers(data, old(Pos()), t, Pos()) && strstart <= old(strstart) + MAX_MATCH
    {
      hide Chains, Holds, Bytes, MatchAt, Covers;
      FindRun();
      if matchLength >= MIN_MATCH {
        MatchCovers(data, Pos(), 1, matchLength);
        t := Match(matchLength, 1);
        Move(matchLength);
        matchLength := 0;
      } else {
        Room();
        HoldsAt(window[..], data, base, strstart + lookahead, strstart);
        LitCovers(data, Pos());
        t := Lit(window[strstart]);
        Move(1);
      }
    }

    /** Pass over bytes without entering their strings. */
    method Move(len: nat)
      requires Pending() && len <= lookahead
      modifies `strstart, `lookahead
      ensures Pending() && strstart == old(strstart) + len && lookahead == old(lookahead) - len
    {
      hide Chains;
      ChainsLater(hp, data, base, ins, head[..], prev[..], strstart - insert, strstart, strstart + len - insert, strstart + len);
      lookahead := lookahead - len;
      strstart := strstart + len;
    }

    /** Give bytes back to the lookahead, when nothing is in the dictionary. */
    method StepBack(at: nat)
      requires Pending() && ins == {} && insert == 0 && at <= strstart
      modifies `strstart, `lookahead
      ensures Pending() && strstart == at && strstart + lookahead == old(strstart) + old(lookahead)
    {
      hide Chains;
      ChainsNone(hp, data, base, head[..], prev[..], strstart, strstart, at);
      lookahead := lookahead + (strstart - at);
      strstart := at;
    }

    /** One turn of deflate_huff: literals only. */
    method HuffStep() returns (t: Token)
      requires WindowOk() && Pending() && lookahead > 0
      modifies `strstart, `lookahead, `matchLength
      ensures WindowOk() && Pending() && strstart == old(strstart) + 1 && lookahead == old(lookahead) - 1
      ensures Covers(data, old(Pos()), t, Pos())
    {
      hide Chains, Holds, Covers;
      Room();
      HoldsAt(window[..], data, base, strstart + lookahead, strstart);
      LitCovers(data, Pos());
      matchLength := 0;
      t := Lit(window[strstart]);
      Move(1);
    }
  }

  lemma NilEntry(hp: Hashing, data: seq<nat>, base: nat, ins: set<nat>, key: nat)
    ensures Entry(hp, data, base, ins, 0, key)
  {
  }

  lemma MatchEnds(data: seq<nat>, pos: nat, d: nat, len: nat)
    requires MatchAt(data, pos, d, len)
    ensures pos + len <= |data|
  {
  }

  lemma HeldIs(strstart: nat, matchStart: nat)
    requires matchStart < strstart <= 65536
    ensures (strstart - matchStart) % TWO32 == strstart - matchStart
  {
  }

  /** A difference in one of the bytes looked at first. */
  lemma Unpromising(win: seq<nat>, c: nat, s: nat, best: nat)
    requires 1 <= best && c + best < |win| && s + best < |win|
    requires win[c + best] != win[s + best] || win[c + best - 1] != win[s + best - 1] || win[c] != win[s] || win[c + 1] != win[s + 1]
    ensures NoLonger(win, c, s, best)
  {
    hide Same;
    if Same(win, c, s, best + 1) {
      SameByte(win, c, s, best + 1, best);
      SameByte(win, c, s, best + 1, best - 1);
      SameByte(win, c, s, best + 1, 0);
      SameByte(win, c, s, best + 1, 1);
    }
  }

  lemma ThreeSame(win: seq<nat>, c: nat, s: nat)
    requires c + 3 <= |win| && s + 3 <= |win| && win[c] == win[s] && win[c + 1] == win[s + 1] && win[c + 2] == win[s + 2]
    ensures Same(win, c, s, 3)
  {
  }

  lemma EntryKey(hp: Hashing, data: seq<nat>, base: nat, ins: set<nat>, q: nat, key: nat)
    requires Entry(hp, data, base, ins, q, key) && q != 0
    ensures KeyAt(hp, data, base + q) == key
  {
  }

  predicate AllNoLonger(win: seq<nat>, tried: seq<nat>, s: nat, best: nat) {
    forall i :: 0 <= i < |tried| ==> NoLonger(win, tried[i], s, best)
  }

  lemma Tried(win: seq<nat>, tried: seq<nat>, c: nat, s: nat, best: nat, more: nat)
    requires best <= more && AllNoLonger(win, tried, s, best) && NoLonger(win, c, s, more)
    ensures AllNoLonger(win, tried + [c], s, more)
  {
    hide NoLonger;
    forall i | 0 <= i < |tried| ensures NoLonger(win, tried[i], s, more) { NoLongerThan(win, tried[i], s, best, more); }
  }

  lemma FirstCandidate(chain: seq<nat>, cur: nat, limit: nat, n: nat, tried: seq<nat>)
    requires |chain| > 0 && n > 0
    ensures var next := chain[cur % |chain|];
      tried + Candidates(chain, cur, limit, n) ==
        tried + [cur] + if next <= limit || n == 1 then [] else Candidates(chain, next, limit, n - 1)
  {
  }

  /** Cut to the lookahead, equal strings in the window are a match in the input. */
  lemma SameIsMatch(win: seq<nat>, data: seq<nat>, base: nat, n: nat, c: nat, s: nat, best: nat)
    requires Holds(win, data, base, n) && c < s <= n && Same(win, c, s, best)
    ensures MatchAt(data, base + s, s - c, Min(best, n - s))
  {
    SameShorter(win, c, s, best, Min(best, n - s));
    WindowMatch(win, data, base, n, c, s, Min(best, n - s));
  }

  lemma NoneLonger(win: seq<nat>, data: seq<nat>, base: nat, n: nat, tried: seq<nat>, s: nat, best: nat)
    requires Holds(win, data, base, n) && s <= n && AllNoLonger(win, tried, s, best)
    ensures NoneLongerThan(data, base, s, tried, Min(best, n - s))
  {
    forall i | 0 <= i < |tried|
      ensures NoneAt(data, base, s, tried[i], Min(best, n - s))
    {
      NoneLongerAt(win, data, base, n, tried[i], s, best);
    }
  }

  lemma NoneLongerAt(win: seq<nat>, data: seq<nat>, base: nat, n: nat, c: nat, s: nat, best: nat)
    requires Holds(win, data, base, n) && s <= n && NoLonger(win, c, s, best)
    ensures NoneAt(data, base, s, c, Min(best, n - s))
  {
    forall k: nat | k <= MAX_MATCH && Reaches(data, base, s, c, k)
      ensures k <= Min(best, n - s)
    {
      MatchInWindow(win, data, base, n, c, s, k);
      if k > best { SameShorter(win, c, s, k, best + 1); }
    }
  }

  lemma HeadIs(hp: Hashing, data: seq<nat>, base: nat, ins: set<nat>, head: seq<nat>, prev: seq<nat>, str: nat, lim: nat)
    requires Chains(hp, data, base, ins, head, prev, str, lim) && base + str + 3 <= |data|
    ensures |prev| > 0 && Slot(base + str, base, |prev|) == str % |prev|
    ensures KeyAt(hp, data, base + str) == hp.Key(data[base + str], data[base + str + 1], data[base + str + 2]) < |head|
    ensures var q := head[KeyAt(hp, data, base + str)];
      (q != 0 ==> q < str) && Entry(hp, data, base, ins, q, KeyAt(hp, data, base + str))
  {
    HeadLinks(hp, data, base, ins, head, prev, str, lim);
  }

  lemma HoldsMoved(win: seq<nat>, now: seq<nat>, data: seq<nat>, base: nat, n: nat, w: nat)
    requires Holds(win, data, base, n) && w <= n && w <= |now| && n - w <= w && now[..w] == win[w..]
    ensures Holds(now, data, base + w, n - w)
  {
    assert now[..n - w] == now[..w][..n - w];
    assert win[w..][..n - w] == win[..n][w..];
  }

  lemma HoldsMore(win: seq<nat>, now: seq<nat>, data: seq<nat>, base: nat, n: nat, input: seq<nat>, len: nat)
    requires Holds(win, data, base, n) && |now| == |win| && n + len <= |win| && len <= |input| && Bytes(data) && Bytes(input)
    requires forall k :: 0 <= k < n ==> now[k] == win[k]
    requires forall k :: 0 <= k < len ==> now[n + k] == input[k]
    ensures Holds(now, data + input[..len], base, n + len) && Bytes(data + input[..len]) && Bytes(input[len..])
    ensures data + input[..len] + input[len..] == data + input
  {
    assert now[..n + len] == win[..n] + input[..len];
    assert (data + input[..len])[base..] == data[base..] + input[..len];
  }

  lemma HoldsThree(win: seq<nat>, data: seq<nat>, base: nat, n: nat, i: nat)
    requires Holds(win, data, base, n) && i + 2 < n && Bytes(data)
    ensures i + 2 < |win| && base + i + 3 <= |data| && win[i] == data[base + i] < 256
    ensures win[i + 1] == data[base + i + 1] && win[i + 2] == data[base + i + 2]
  {
    HoldsAt(win, data, base, n, i);
    HoldsAt(win, data, base, n, i + 1);
    HoldsAt(win, data, base, n, i + 2);
  }

  /** The distance to a match start survives a slide, whether or not it wraps. */
  lemma HeldMoves(strstart: nat, matchStart: nat, w: nat)
    requires w <= strstart
    ensures (strstart - w - 1 - (matchStart - w) % TWO32) % TWO32 == (strstart - 1 - matchStart) % TWO32
  {
    var k := (matchStart - w) / TWO32;
    assert (matchStart - w) % TWO32 == matchStart - w - k * TWO32;
    WrapAdd(strstart - 1 - matchStart, k);
  }

  lemma WrapAdd(x: int, k: int)
    ensures (x + k * TWO32) % TWO32 == x % TWO32
  {
  }

  lemma Pow2Values2()
    ensures Pow2(11) == 2048 && Pow2(12) == 4096
  {
  }
}
