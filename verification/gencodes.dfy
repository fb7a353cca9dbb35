/** gen_codes and bi_reverse: assigning the code bits of a tree from its lengths. */
module GenCodes {
  import opened Bits
  import opened Canonical
  import opened HuffBits

  /** Reverse the low len bits of a code. */
  method BiReverse(code: nat, len: nat) returns (r: nat)
    requires len >= 1
    ensures r == Lsb(CodeBits(code, len))
  {
    var res, c, n := 0, code, len;
    ghost var done: seq<bool> := [];
    assert CodeBits(code, len) + [] == CodeBits(code, len);
    while n > 0
      invariant n <= len
      invariant CodeBits(code, len) == CodeBits(c, n) + done
      invariant res == 2 * Lsb(done)
    {
      assert CodeBits(c, n) + done == CodeBits(c / 2, n - 1) + ([c % 2 == 1] + done);
      done := [c % 2 == 1] + done;
      LsbCons(c % 2 == 1, done[1..]);
      res := res + c % 2;
      c, res := c / 2, res * 2;
      n := n - 1;
    }
    assert CodeBits(c, 0) + done == done;
    r := res / 2;
  }

  lemma LsbCons(b: bool, s: seq<bool>)
    ensures Lsb([b] + s) == Bit(b) + 2 * Lsb(s)
  {
    assert ([b] + s)[1..] == s;
  }

  /** No running code overflows its length, hence not 16 bits either. */
  lemma FirstCodeFits(lens: seq<nat>, l: nat)
    requires Kraft(lens) <= UNIT && 1 <= l <= MAXBITS
    ensures FirstCode(lens, l) + Count(lens, l) <= Pow2(l) <= UNIT
  {
    FirstCodeScaled(lens, l);
    StartOfMono(lens, l, MAXBITS + 1);
    Pow2Add(l, MAXBITS - l);
    Pow2Mono(l, MAXBITS);
    Pow2Values();
    var a, c, w := FirstCode(lens, l), Count(lens, l), Width(l);
    hide *;
    Distribute(a, c, w);
    if a + c > Pow2(l) {
      StepBelow(Pow2(l), a + c, w);
    }
  }

  /** The first code of each length, from the counts of each length. */
  method NextCodes(blCount: array<nat>, ghost lens: seq<nat>) returns (nextCode: array<nat>)
    requires blCount.Length == MAXBITS + 1 && Kraft(lens) <= UNIT
    requires blCount[0] == 0 && forall l :: 1 <= l <= MAXBITS ==> blCount[l] == Count(lens, l)
    ensures fresh(nextCode) && nextCode.Length == MAXBITS + 1
    ensures forall l :: 1 <= l <= MAXBITS ==> nextCode[l] == FirstCode(lens, l)
  {
    hide Count, Kraft, Pow2;
    nextCode := new nat[MAXBITS + 1];
    var code := 0;
    for bits := 1 to MAXBITS + 1
      invariant forall l :: 1 <= l < bits ==> nextCode[l] == FirstCode(lens, l)
      invariant code == if bits > 1 then FirstCode(lens, bits - 1) else 0
    {
      if bits > 1 { FirstCodeFits(lens, bits - 1); }
      FirstCodeFits(lens, bits);
      code := 2 * (code + blCount[bits - 1]) % 65536;
      nextCode[bits] := code;
    }
  }

  ghost predicate NextIs(nextCode: seq<nat>, lens: seq<nat>, n: nat)
    requires |nextCode| == MAXBITS + 1 && n <= |lens|
  {
    forall l :: 1 <= l <= MAXBITS ==> nextCode[l] == FirstCode(lens, l) + Count(lens[..n], l)
  }

  lemma NextStep(nextCode: seq<nat>, lens: seq<nat>, n: nat)
    requires |nextCode| == MAXBITS + 1 && n < |lens| && lens[n] <= MAXBITS && Kraft(lens) <= UNIT
    requires NextIs(nextCode, lens, n)
    ensures lens[n] == 0 ==> NextIs(nextCode, lens, n + 1)
    ensures lens[n] != 0 ==>
      && nextCode[lens[n]] == CodeNum(lens, n) && nextCode[lens[n]] + 1 < 65536
      && NextIs(nextCode[lens[n] := nextCode[lens[n]] + 1], lens, n + 1)
  {
    forall l | 1 <= l <= MAXBITS
      ensures Count(lens[..n + 1], l) == Count(lens[..n], l) + if lens[n] == l then 1 else 0
    {
      CountStep(lens, l, n);
    }
    if lens[n] != 0 {
      FirstCodeFits(lens, lens[n]);
      CountWithin(lens, n);
    }
  }

  lemma NextStart(nextCode: seq<nat>, lens: seq<nat>)
    requires |nextCode| == MAXBITS + 1 && forall l :: 1 <= l <= MAXBITS ==> nextCode[l] == FirstCode(lens, l)
    ensures NextIs(nextCode, lens, 0)
  {
  }

  /** Code assignment from the bit-length counts: every used symbol gets its
      canonical code, first transmitted bit lowest. */
  method GenCodes(fc: array<nat>, dl: array<nat>, maxCode: nat, blCount: array<nat>)
    requires fc != dl && fc != blCount && maxCode < dl.Length && maxCode < fc.Length && blCount.Length == MAXBITS + 1
    requires ValidLens(dl[..maxCode + 1]) && Kraft(dl[..maxCode + 1]) <= UNIT
    requires blCount[0] == 0 && forall l :: 1 <= l <= MAXBITS ==> blCount[l] == Count(dl[..maxCode + 1], l)
    modifies fc
    ensures forall n :: 0 <= n <= maxCode && dl[n] != 0 ==> fc[n] == Huff(dl[..maxCode + 1], n)
    ensures forall n :: 0 <= n < fc.Length && (n > maxCode || dl[n] == 0) ==> fc[n] == old(fc[n])
  {
    hide Count, Kraft, Pow2, FirstCode, Huff, NextIs;
    ghost var lens := dl[..maxCode + 1];
    var nextCode := NextCodes(blCount, lens);
    NextStart(nextCode[..], lens);
    for n := 0 to maxCode + 1
      invariant NextIs(nextCode[..], lens, n)
      invariant forall i :: 0 <= i < n && dl[i] != 0 ==> fc[i] == Huff(lens, i)
      invariant forall i :: 0 <= i < fc.Length && (i >= n || dl[i] == 0) ==> fc[i] == old(fc[i])
    {
      var len := dl[n];
      NextStep(nextCode[..], lens, n);
      if len != 0 {
        HuffIs(lens, n);
        fc[n] := BiReverse(nextCode[len], len);
        nextCode[len] := (nextCode[len] + 1) % 65536;
      }
    }
  }

  lemma HuffIs(lens: seq<nat>, n: nat)
    requires Used(lens, n)
    ensures Huff(lens, n) == Lsb(CodeBits(CodeNum(lens, n), lens[n]))
  {
  }
}
