/** Code lengths sent in compressed form: the run-length coder of scan_tree and
    send_tree, and its decoding (section 3.2.7 of RFC 1951). */
module CodeLengths {
  import opened Bits
  import opened Canonical
  import opened HuffBits
  import opened BitOutput
  import opened Sums

  const REP_3_6 := 16
  const REPZ_3_10 := 17
  const REPZ_11_138 := 18
  const BL_CODES := 19
  const GUARD := 0xffff

  /** One symbol of the code-length alphabet with its repeat count. */
  datatype ClToken = Len(l: nat) | Rep(n: nat) | Zeros3(n: nat) | Zeros11(n: nat) {
    function Symbol(): nat {
      match this
      case Len(l) => l
      case Rep(_) => REP_3_6
      case Zeros3(_) => REPZ_3_10
      case Zeros11(_) => REPZ_11_138
    }

    function ExtraBits(): nat {
      match this
      case Len(_) => 0
      case Rep(_) => 2
      case Zeros3(_) => 3
      case Zeros11(_) => 7
    }

    function ExtraValue(): int {
      match this
      case Len(_) => 0
      case Rep(n) => n - 3
      case Zeros3(n) => n - 3
      case Zeros11(n) => n - 11
    }

    /** The symbol is in the alphabet and the count fits its extra bits. */
    ghost predicate Fits() {
      Symbol() < BL_CODES && (Len? ==> l <= MAXBITS) && 0 <= ExtraValue() < Pow2(ExtraBits())
    }
  }

  function Repeat(x: nat, n: nat): (s: seq<nat>)
    ensures |s| == n && forall i :: 0 <= i < n ==> s[i] == x
  {
    seq(n, i => x)
  }

  datatype Lengths = Lengths(lens: seq<nat>) | BadRepeat

  /** Expanding tokens after the lengths already known; only a repeat of nothing fails. */
  function Expand(acc: seq<nat>, toks: seq<ClToken>): Lengths {
    if toks == [] then Lengths(acc)
    else
      match Expand(acc, toks[..|toks| - 1])
      case BadRepeat => BadRepeat
      case Lengths(a) => ExpandOne(a, toks[|toks| - 1])
  }

  function ExpandOne(acc: seq<nat>, t: ClToken): Lengths {
    match t
    case Len(l) => Lengths(acc + [l])
    case Rep(n) => if acc == [] then BadRepeat else Lengths(acc + Repeat(acc[|acc| - 1], n))
    case Zeros3(n) => Lengths(acc + Repeat(0, n))
    case Zeros11(n) => Lengths(acc + Repeat(0, n))
  }

  function Occurs(toks: seq<ClToken>, sym: nat): nat {
    if toks == [] then 0
    else Occurs(toks[..|toks| - 1], sym) + if toks[|toks| - 1].Symbol() == sym then 1 else 0
  }

  function MaxCount(next: nat, prev: int): nat {
    if next == 0 then 138 else if next == prev then 6 else 7
  }

  function MinCount(next: nat, prev: int): nat {
    if next == 0 then 3 else if next == prev then 3 else 4
  }

  function LenTokens(l: nat, n: nat): seq<ClToken> {
    seq(n, i => Len(l))
  }

  /** The tokens for count times cur after prev. */
  function Flush(cur: nat, prev: int, count: nat): seq<ClToken>
    requires count >= 1
  {
    if count < MinCount(cur, prev) then LenTokens(cur, count)
    else if cur != 0 then (if cur != prev then [Len(cur), Rep(count - 1)] else [Rep(count)])
    else if count <= 10 then [Zeros3(count)]
    else [Zeros11(count)]
  }

  datatype RunState = RunState(toks: seq<ClToken>, prev: int, count: nat)

  /** The run-length coder after n lengths. */
  function Run(lens: seq<nat>, n: nat): RunState
    requires n <= |lens|
  {
    if n == 0 then RunState([], -1, 0)
    else
      var s, cur := Run(lens, n - 1), lens[n - 1];
      if s.count + 1 < MaxCount(cur, s.prev) && n < |lens| && lens[n] == cur then RunState(s.toks, s.prev, s.count + 1)
      else RunState(s.toks + Flush(cur, s.prev, s.count + 1), cur, 0)
  }

  function Encode(lens: seq<nat>): seq<ClToken> {
    Run(lens, |lens|).toks
  }

  // ---- decoding undoes encoding ----

  lemma {:induction false} ExpandConcat(acc: seq<nat>, a: seq<ClToken>, b: seq<ClToken>)
    ensures Expand(acc, a + b) == match Expand(acc, a) case BadRepeat => BadRepeat case Lengths(l) => Expand(l, b)
  {
    if b == [] {
      assert a + b == a;
    } else {
      var b' := b[..|b| - 1];
      ExpandConcat(acc, a, b');
      assert (a + b)[..|a + b| - 1] == a + b';
    }
  }

  lemma {:induction false} ExpandLens(acc: seq<nat>, l: nat, n: nat)
    ensures Expand(acc, LenTokens(l, n)) == Lengths(acc + Repeat(l, n))
  {
    if n == 0 {
      assert acc + Repeat(l, 0) == acc;
    } else {
      ExpandLens(acc, l, n - 1);
      assert LenTokens(l, n)[..n - 1] == LenTokens(l, n - 1);
      assert acc + Repeat(l, n) == acc + Repeat(l, n - 1) + [l];
    }
  }

  lemma ExpandSingle(acc: seq<nat>, t: ClToken)
    ensures Expand(acc, [t]) == ExpandOne(acc, t)
  {
    assert [t][..0] == [];
  }

  /** The run that a flush stands for comes back, whatever preceded it. */
  lemma ExpandFlush(acc: seq<nat>, cur: nat, prev: int, count: nat)
    requires count >= 1 && (prev == cur ==> acc != [] && acc[|acc| - 1] == prev)
    ensures Expand(acc, Flush(cur, prev, count)) == Lengths(acc + Repeat(cur, count))
  {
    if count < MinCount(cur, prev) {
      ExpandLens(acc, cur, count);
    } else if cur != 0 && cur != prev {
      ExpandSingle(acc, Len(cur));
      ExpandSingle(acc + [cur], Rep(count - 1));
      assert [Len(cur)] + [Rep(count - 1)] == [Len(cur), Rep(count - 1)];
      ExpandConcat(acc, [Len(cur)], [Rep(count - 1)]);
      assert acc + [cur] + Repeat(cur, count - 1) == acc + Repeat(cur, count);
    } else {
      ExpandSingle(acc, Flush(cur, prev, count)[0]);
    }
  }

  /** What the coder knows: everything but the current run has been sent. */
  ghost predicate RunOk(acc: seq<nat>, lens: seq<nat>, n: nat, s: RunState)
    requires n <= |lens|
  {
    && s.count <= n && Expand(acc, s.toks) == Lengths(acc + lens[..n - s.count])
    && (s.prev >= 0 ==> n > s.count && s.prev == lens[n - s.count - 1]) && s.prev >= -1
    && (s.count > 0 ==> n < |lens| && lens[n] == lens[n - 1] && s.count < MaxCount(lens[n], s.prev))
    && (forall i :: n - s.count <= i < n ==> lens[i] == lens[n - 1])
    && (forall i :: 0 <= i < |s.toks| ==> s.toks[i].Fits())
  }

  lemma FlushFits(cur: nat, prev: int, count: nat)
    requires cur <= MAXBITS && 1 <= count <= MaxCount(cur, prev)
    ensures forall i :: 0 <= i < |Flush(cur, prev, count)| ==> Flush(cur, prev, count)[i].Fits()
    ensures |Flush(cur, prev, count)| <= count
  {
    Pow2Values();
  }

  lemma {:induction false} RunInvariant(acc: seq<nat>, lens: seq<nat>, n: nat)
    requires n <= |lens| && ValidLens(lens)
    ensures RunOk(acc, lens, n, Run(lens, n)) && |Run(lens, n).toks| + Run(lens, n).count <= n
  {
    if n == 0 {
      assert acc + lens[..0] == acc;
    } else {
      RunInvariant(acc, lens, n - 1);
      var s, cur := Run(lens, n - 1), lens[n - 1];
      hide Run, Flush;
      RunCount(acc, lens, n, s);
      if s.count + 1 < MaxCount(cur, s.prev) && n < |lens| && lens[n] == cur {
        RunOn(acc, lens, n, s);
      } else {
        RunFlushed(acc, lens, n, s);
        FlushFits(cur, s.prev, s.count + 1);
      }
      RunNext(lens, n);
    }
  }

  lemma RunNext(lens: seq<nat>, n: nat)
    requires 1 <= n <= |lens|
    ensures var s, cur := Run(lens, n - 1), lens[n - 1];
      Run(lens, n) == if s.count + 1 < MaxCount(cur, s.prev) && n < |lens| && lens[n] == cur
        then RunState(s.toks, s.prev, s.count + 1) else RunState(s.toks + Flush(cur, s.prev, s.count + 1), cur, 0)
  {
  }

  lemma RunCount(acc: seq<nat>, lens: seq<nat>, n: nat, s: RunState)
    requires 1 <= n <= |lens| && RunOk(acc, lens, n - 1, s)
    ensures s.count + 1 <= MaxCount(lens[n - 1], s.prev)
    ensures forall i :: n - s.count - 1 <= i < n ==> lens[i] == lens[n - 1]
  {
    hide Expand;
  }

  lemma RunOn(acc: seq<nat>, lens: seq<nat>, n: nat, s: RunState)
    requires 1 <= n < |lens| && RunOk(acc, lens, n - 1, s)
    requires s.count + 1 < MaxCount(lens[n - 1], s.prev) && lens[n] == lens[n - 1]
    ensures RunOk(acc, lens, n, RunState(s.toks, s.prev, s.count + 1))
  {
    hide Expand;
    RunCount(acc, lens, n, s);
  }

  lemma RunFlushed(acc: seq<nat>, lens: seq<nat>, n: nat, s: RunState)
    requires 1 <= n <= |lens| && ValidLens(lens) && RunOk(acc, lens, n - 1, s)
    ensures RunOk(acc, lens, n, RunState(s.toks + Flush(lens[n - 1], s.prev, s.count + 1), lens[n - 1], 0))
  {
    hide Expand, Flush;
    RunCount(acc, lens, n, s);
    var cur, c := lens[n - 1], s.count + 1;
    var before := acc + lens[..n - c];
    FlushFits(cur, s.prev, c);
    ExpandFlush(before, cur, s.prev, c);
    ExpandConcat(acc, s.toks, Flush(cur, s.prev, c));
    assert before + Repeat(cur, c) == acc + lens[..n];
  }

  /** The tokens of any lengths expand, after anything, to those lengths, and every
      repeat count fits its extra bits. */
  lemma RoundTrip(acc: seq<nat>, lens: seq<nat>)
    requires ValidLens(lens)
    ensures Expand(acc, Encode(lens)) == Lengths(acc + lens)
    ensures forall i :: 0 <= i < |Encode(lens)| ==> Encode(lens)[i].Fits()
    ensures |Encode(lens)| <= |lens|
  {
    RunInvariant(acc, lens, |lens|);
    assert lens[..|lens|] == lens;
  }

  /** Both trees are sent one after the other and decoded as one sequence of lengths. */
  lemma BothTrees(lit: seq<nat>, dist: seq<nat>)
    requires ValidLens(lit) && ValidLens(dist)
    ensures Expand([], Encode(lit) + Encode(dist)) == Lengths(lit + dist)
  {
    RoundTrip([], lit);
    assert [] + lit == lit;
    RoundTrip(lit, dist);
    ExpandConcat([], Encode(lit), Encode(dist));
  }

  // ---- counting what will be sent ----

  lemma {:induction false} OccursConcat(a: seq<ClToken>, b: seq<ClToken>, sym: nat)
    ensures Occurs(a + b, sym) == Occurs(a, sym) + Occurs(b, sym)
  {
    if b == [] {
      assert a + b == a;
    } else {
      OccursConcat(a, b[..|b| - 1], sym);
      assert (a + b)[..|a + b| - 1] == a + b[..|b| - 1];
    }
  }

  lemma {:induction false} OccursLens(l: nat, n: nat, sym: nat)
    ensures Occurs(LenTokens(l, n), sym) == if l == sym then n else 0
  {
    if n > 0 {
      OccursLens(l, n - 1, sym);
      assert LenTokens(l, n)[..n - 1] == LenTokens(l, n - 1);
    }
  }

  lemma OccursSingle(t: ClToken, sym: nat)
    ensures Occurs([t], sym) == if t.Symbol() == sym then 1 else 0
  {
    assert [t][..0] == [];
  }

  ghost predicate Tallied(was: seq<nat>, now: seq<nat>, toks: seq<ClToken>) {
    |was| == |now| >= BL_CODES
    && (forall i :: 0 <= i < BL_CODES ==> now[i] == was[i] + Occurs(toks, i))
    && (forall i :: BL_CODES <= i < |now| ==> now[i] == was[i])
  }

  lemma TallyMore(was: seq<nat>, mid: seq<nat>, now: seq<nat>, a: seq<ClToken>, b: seq<ClToken>)
    requires Tallied(was, mid, a) && Tallied(mid, now, b)
    ensures Tallied(was, now, a + b)
  {
    forall i | 0 <= i < BL_CODES
      ensures Occurs(a + b, i) == Occurs(a, i) + Occurs(b, i)
    {
      OccursConcat(a, b, i);
    }
  }

  lemma TallyLens(now: seq<nat>, l: nat, n: nat)
    requires l <= MAXBITS && |now| >= BL_CODES
    ensures Tallied(now, now[l := now[l] + n], LenTokens(l, n))
  {
    forall i | 0 <= i < BL_CODES
      ensures Occurs(LenTokens(l, n), i) == if i == l then n else 0
    {
      OccursLens(l, n, i);
    }
  }

  lemma TallyOne(now: seq<nat>, t: ClToken)
    requires t.Symbol() < BL_CODES <= |now|
    ensures Tallied(now, now[t.Symbol() := now[t.Symbol()] + 1], [t])
  {
    forall i | 0 <= i < BL_CODES
      ensures Occurs([t], i) == if i == t.Symbol() then 1 else 0
    {
      OccursSingle(t, i);
    }
  }

  /** Count the tokens of one run. */
  method CountRun(blFreq: array<nat>, cur: nat, prev: int, count: nat)
    requires cur <= MAXBITS && count >= 1 && blFreq.Length >= BL_CODES
    modifies blFreq
    ensures Tallied(old(blFreq[..]), blFreq[..], Flush(cur, prev, count))
  {
    ghost var was := blFreq[..];
    hide Tallied;
    if count < MinCount(cur, prev) {
      TallyLens(was, cur, count);
      blFreq[cur] := blFreq[cur] + count;
      assert blFreq[..] == was[cur := was[cur] + count];
    } else if cur != 0 {
      if cur != prev {
        TallyOne(was, Len(cur));
        blFreq[cur] := blFreq[cur] + 1;
        assert blFreq[..] == was[cur := was[cur] + 1];
        ghost var mid := blFreq[..];
        TallyOne(mid, Rep(count - 1));
        TallyMore(was, mid, mid[16 := mid[16] + 1], [Len(cur)], [Rep(count - 1)]);
        assert [Len(cur)] + [Rep(count - 1)] == [Len(cur), Rep(count - 1)];
        blFreq[REP_3_6] := blFreq[REP_3_6] + 1;
        assert blFreq[..] == mid[16 := mid[16] + 1];
      } else {
        TallyOne(was, Rep(count));
        blFreq[REP_3_6] := blFreq[REP_3_6] + 1;
        assert blFreq[..] == was[16 := was[16] + 1];
      }
    } else if count <= 10 {
      TallyOne(was, Zeros3(count));
      blFreq[REPZ_3_10] := blFreq[REPZ_3_10] + 1;
      assert blFreq[..] == was[17 := was[17] + 1];
    } else {
      TallyOne(was, Zeros11(count));
      blFreq[REPZ_11_138] := blFreq[REPZ_11_138] + 1;
      assert blFreq[..] == was[18 := was[18] + 1];
    }
  }

  lemma RunStep(lens: seq<nat>, n: nat)
    requires n < |lens| && ValidLens(lens)
    ensures var s := Run(lens, n); var c := s.count + 1;
      && Run(lens, n + 1) == (if c < MaxCount(lens[n], s.prev) && n + 1 < |lens| && lens[n + 1] == lens[n]
                              then RunState(s.toks, s.prev, c)
                              else RunState(s.toks + Flush(lens[n], s.prev, c), lens[n], 0))
      && c <= MaxCount(lens[n], s.prev)
  {
    RunInvariant([], lens, n);
  }

  lemma TallyNothing(f: seq<nat>)
    requires |f| >= BL_CODES
    ensures Tallied(f, f, [])
  {
  }

  /** Count the code-length symbols that sending this tree will take, and leave the guard. */
  method ScanTree(dl: array<nat>, blFreq: array<nat>, maxCode: nat)
    requires maxCode + 1 < dl.Length && dl != blFreq && blFreq.Length >= BL_CODES && ValidLens(dl[..maxCode + 1])
    modifies dl, blFreq
    ensures dl[..] == old(dl[..])[maxCode + 1 := GUARD]
    ensures Tallied(old(blFreq[..]), blFreq[..], Encode(dl[..maxCode + 1]))
  {
    hide Tallied, Run, Flush;
    ghost var lens, was := dl[..maxCode + 1], blFreq[..];
    var prevlen: int := -1;
    var nextlen := dl[0];
    var count := 0;
    var maxCount, minCount := 7, 4;
    if nextlen == 0 { maxCount, minCount := 138, 3; }
    dl[maxCode + 1] := GUARD;
    assert dl[..maxCode + 1] == lens;
    TallyNothing(was);
    RunStart(lens);
    for n := 0 to maxCode + 1
      invariant dl[..] == old(dl[..])[maxCode + 1 := GUARD]
      invariant Run(lens, n).prev == prevlen && Run(lens, n).count == count
      invariant nextlen == dl[n]
      invariant n <= maxCode ==> maxCount == MaxCount(nextlen, prevlen) && minCount == MinCount(nextlen, prevlen)
      invariant Tallied(was, blFreq[..], Run(lens, n).toks)
    {
      RunStep(lens, n);
      var curlen := nextlen;
      nextlen := dl[n + 1];
      assert curlen == lens[n] && (n + 1 < |lens| ==> nextlen == lens[n + 1]);
      count := count + 1;
      if count < maxCount && curlen == nextlen {
        continue;
      }
      ghost var mid := blFreq[..];
      CountRun(blFreq, curlen, prevlen, count);
      TallyMore(was, mid, blFreq[..], Run(lens, n).toks, Flush(curlen, prevlen, count));
      count := 0;
      prevlen := curlen;
      if nextlen == 0 {
        maxCount, minCount := 138, 3;
      } else if curlen == nextlen {
        maxCount, minCount := 6, 3;
      } else {
        maxCount, minCount := 7, 4;
      }
    }
    assert dl[..maxCode + 1] == lens;
  }

  lemma RunStart(lens: seq<nat>)
    ensures Run(lens, 0) == RunState([], -1, 0)
  {
  }

  // ---- sending ----

  /** The bits of one token under the code-length code. */
  function ClTokenBits(bl: seq<nat>, t: ClToken): seq<bool> {
    (if Used(bl, t.Symbol()) then Code(bl, t.Symbol()) else [])
    + if t.ExtraValue() >= 0 then ToBits(t.ExtraValue(), t.ExtraBits()) else []
  }

  function ClBits(bl: seq<nat>, toks: seq<ClToken>): seq<bool> {
    if toks == [] then [] else ClBits(bl, toks[..|toks| - 1]) + ClTokenBits(bl, toks[|toks| - 1])
  }

  lemma ClBitsSnoc(bl: seq<nat>, a: seq<ClToken>, t: ClToken)
    ensures ClBits(bl, a + [t]) == ClBits(bl, a) + ClTokenBits(bl, t)
  {
    assert (a + [t])[..|a|] == a;
  }

  lemma {:induction false} ClBitsConcat(bl: seq<nat>, a: seq<ClToken>, b: seq<ClToken>)
    ensures ClBits(bl, a + b) == ClBits(bl, a) + ClBits(bl, b)
  {
    if b == [] {
      assert a + b == a && ClBits(bl, a) + [] == ClBits(bl, a);
    } else {
      hide ClTokenBits, ClBits;
      var c, t := b[..|b| - 1], b[|b| - 1];
      ClBitsConcat(bl, a, c);
      Peeled(a, b);
      ClBitsSnoc(bl, a + c, t);
      ClBitsSnoc(bl, c, t);
      Glue(ClBits(bl, a), ClBits(bl, c), ClTokenBits(bl, t));
    }
  }

  lemma Peeled(a: seq<ClToken>, b: seq<ClToken>)
    requires b != []
    ensures var c, t := b[..|b| - 1], b[|b| - 1]; b == c + [t] && a + b == (a + c) + [t]
  {
  }

  /** Every token's symbol has a code in the arrays. */
  ghost predicate HasCodes(bl: seq<nat>, fc: seq<nat>, dl: seq<nat>, toks: seq<ClToken>) {
    |bl| <= |fc| && |bl| <= |dl|
    && forall i :: 0 <= i < |toks| ==> HasCode(bl, fc, dl, toks[i].Symbol())
  }

  ghost predicate HasCode(bl: seq<nat>, fc: seq<nat>, dl: seq<nat>, sym: nat) {
    Used(bl, sym) && sym < |dl| && sym < |fc| && dl[sym] == bl[sym] && fc[sym] == Huff(bl, sym)
  }

  /** Send the code of one symbol. */
  method SendCode(w: BitWriter, fc: seq<nat>, dl: seq<nat>, sym: nat, ghost bl: seq<nat>)
    requires w.Valid() && HasCode(bl, fc, dl, sym)
    modifies w
    ensures w.Valid() && w.Sent() == old(w.Sent()) + Code(bl, sym)
  {
    ToBitsLsb(Code(bl, sym));
    LsbBound(Code(bl, sym));
    hide Code, ToBits, Pow2, Lsb;
    w.SendBits(fc[sym], dl[sym]);
  }

  /** Send one token: its code and its extra bits. */
  method SendToken(w: BitWriter, fc: seq<nat>, dl: seq<nat>, t: ClToken, ghost bl: seq<nat>)
    requires w.Valid() && HasCode(bl, fc, dl, t.Symbol()) && t.Fits()
    modifies w
    ensures w.Valid() && w.Sent() == old(w.Sent()) + ClTokenBits(bl, t)
  {
    hide Code, ToBits, Pow2;
    SendCode(w, fc, dl, t.Symbol(), bl);
    if t.ExtraBits() != 0 {
      Pow2Mono(t.ExtraBits(), 16);
      w.SendBits(t.ExtraValue(), t.ExtraBits());
    } else {
      assert ToBits(0, 0) == [] by { NoBits(); }
    }
    Glue(old(w.Sent()), Code(bl, t.Symbol()), ToBits(t.ExtraValue(), t.ExtraBits()));
  }

  /** Send the tokens of one run. */
  method SendRun(w: BitWriter, fc: seq<nat>, dl: seq<nat>, cur: nat, prev: int, count0: nat, ghost bl: seq<nat>)
    requires w.Valid() && cur <= MAXBITS && 1 <= count0 <= MaxCount(cur, prev)
    requires HasCodes(bl, fc, dl, Flush(cur, prev, count0))
    modifies w
    ensures w.Valid() && w.Sent() == old(w.Sent()) + ClBits(bl, Flush(cur, prev, count0))
  {
    hide HasCode, ClTokenBits, ClBits, Code;
    ghost var toks := Flush(cur, prev, count0);
    FlushFits(cur, prev, count0);
    ghost var sent := w.Sent();
    ClBitsNone(bl);
    if count0 < MinCount(cur, prev) {
      var count := count0;
      assert LenTokens(cur, 0) == [];
      while count != 0
        invariant count <= count0 && w.Valid()
        invariant w.Sent() == sent + ClBits(bl, LenTokens(cur, count0 - count))
      {
        ghost var done := LenTokens(cur, count0 - count);
        assert toks[0].Symbol() == cur;
        SendToken(w, fc, dl, Len(cur), bl);
        count := count - 1;
        ClBitsSnoc(bl, done, Len(cur));
        assert LenTokens(cur, count0 - count) == done + [Len(cur)];
        Glue(sent, ClBits(bl, done), ClTokenBits(bl, Len(cur)));
      }
    } else if cur != 0 && cur != prev {
      assert toks[0].Symbol() == cur && toks[1] == Rep(count0 - 1);
      SendToken(w, fc, dl, Len(cur), bl);
      SendToken(w, fc, dl, Rep(count0 - 1), bl);
      ClBitsSnoc(bl, [], Len(cur));
      ClBitsSnoc(bl, [Len(cur)], Rep(count0 - 1));
      assert [] + [Len(cur)] == [Len(cur)] && [Len(cur)] + [Rep(count0 - 1)] == toks;
      Glue(sent, ClTokenBits(bl, Len(cur)), ClTokenBits(bl, Rep(count0 - 1)));
    } else {
      assert toks[0].Fits() && HasCode(bl, fc, dl, toks[0].Symbol());
      var t := if cur != 0 then Rep(count0) else if count0 <= 10 then Zeros3(count0) else Zeros11(count0);
      SendToken(w, fc, dl, t, bl);
      ClBitsSnoc(bl, [], t);
      assert [] + [t] == toks;
    }
  }

  lemma ClBitsNone(bl: seq<nat>)
    ensures ClBits(bl, []) == [] && forall s: seq<bool> :: s + [] == s && [] + s == s
  {
  }

  /** Send a literal or distance tree in compressed form. */
  method SendTree(w: BitWriter, tree: array<nat>, maxCode: nat, fc: seq<nat>, dl: seq<nat>, ghost bl: seq<nat>)
    requires w.Valid() && maxCode + 1 < tree.Length && ValidLens(tree[..maxCode + 1]) && tree[maxCode + 1] == GUARD
    requires HasCodes(bl, fc, dl, Encode(tree[..maxCode + 1]))
    modifies w
    ensures w.Valid() && w.Sent() == old(w.Sent()) + ClBits(bl, Encode(tree[..maxCode + 1]))
  {
    hide Run, Flush, HasCodes, ClBits;
    ghost var lens, sent := tree[..maxCode + 1], w.Sent();
    var prevlen: int := -1;
    var nextlen := tree[0];
    var count := 0;
    var maxCount, minCount := 7, 4;
    if nextlen == 0 { maxCount, minCount := 138, 3; }
    RunStart(lens);
    ClBitsNone(bl);
    for n := 0 to maxCode + 1
      invariant w.Valid() && w.Sent() == sent + ClBits(bl, Run(lens, n).toks)
      invariant Run(lens, n).prev == prevlen && Run(lens, n).count == count
      invariant nextlen == tree[n]
      invariant n <= maxCode ==> maxCount == MaxCount(nextlen, prevlen) && minCount == MinCount(nextlen, prevlen)
    {
      RunStep(lens, n);
      ghost var toks := Run(lens, n).toks;
      var curlen := nextlen;
      nextlen := tree[n + 1];
      assert curlen == lens[n] && (n + 1 < |lens| ==> nextlen == lens[n + 1]);
      count := count + 1;
      if count < maxCount && curlen == nextlen {
        continue;
      }
      FlushSent(lens, n, bl, fc, dl);
      SendRun(w, fc, dl, curlen, prevlen, count, bl);
      ClBitsConcat(bl, toks, Flush(curlen, prevlen, count));
      Glue(sent, ClBits(bl, toks), ClBits(bl, Flush(curlen, prevlen, count)));
      count := 0;
      prevlen := curlen;
      if nextlen == 0 {
        maxCount, minCount := 138, 3;
      } else if curlen == nextlen {
        maxCount, minCount := 6, 3;
      } else {
        maxCount, minCount := 7, 4;
      }
    }
  }

  /** The tokens sent later have codes too. */
  lemma FlushSent(lens: seq<nat>, n: nat, bl: seq<nat>, fc: seq<nat>, dl: seq<nat>)
    requires n < |lens| && HasCodes(bl, fc, dl, Encode(lens)) && Run(lens, n + 1).count == 0
    requires Run(lens, n + 1).toks == Run(lens, n).toks + Flush(lens[n], Run(lens, n).prev, Run(lens, n).count + 1)
    ensures HasCodes(bl, fc, dl, Flush(lens[n], Run(lens, n).prev, Run(lens, n).count + 1))
  {
    RunGrows(lens, n + 1, |lens|);
    var a, f := Run(lens, n).toks, Flush(lens[n], Run(lens, n).prev, Run(lens, n).count + 1);
    hide Flush, Run;
    forall i | 0 <= i < |f|
      ensures HasCode(bl, fc, dl, f[i].Symbol())
    {
      assert Encode(lens)[|a| + i] == f[i];
    }
  }

  lemma {:induction false} RunGrows(lens: seq<nat>, m: nat, n: nat)
    requires m <= n <= |lens|
    ensures Run(lens, m).toks <= Run(lens, n).toks
    decreases n
  {
    if m < n { RunGrows(lens, m, n - 1); }
  }
}
