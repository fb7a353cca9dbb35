/** The canonical prefix code of a vector of code lengths (section 3.2.2 of
    RFC 1951), independent of either implementation of it.  A code of length L
    owns an interval of width 2^(15-L) in [0, 2^15); a code is prefix-free
    because its intervals are disjoint, and complete when they tile. */
module Canonical {
  import opened Bits

  const MAXBITS := 15
  const UNIT := 32768

  ghost predicate ValidLens(lens: seq<nat>) {
    forall n :: 0 <= n < |lens| ==> lens[n] <= MAXBITS
  }

  predicate Used(lens: seq<nat>, n: int) {
    0 <= n < |lens| && 1 <= lens[n] <= MAXBITS
  }

  /** How many symbols have length l. */
  function Count(lens: seq<nat>, l: nat): nat {
    if lens == [] then 0
    else Count(lens[..|lens| - 1], l) + if lens[|lens| - 1] == l then 1 else 0
  }

  /** Width of a code of length l. */
  function Width(l: nat): (w: nat)
    requires l <= MAXBITS
    ensures w >= 1
  {
    Pow2(MAXBITS - l)
  }

  /** The total width of the codes of length l. */
  function Share(lens: seq<nat>, l: nat): nat
    requires l <= MAXBITS
  {
    Count(lens, l) * Width(l)
  }

  /** Where the interval of the first code of length l starts. */
  function StartOf(lens: seq<nat>, l: nat): nat
    requires l <= MAXBITS + 1
  {
    if l <= 1 then 0 else StartOf(lens, l - 1) + Share(lens, l - 1)
  }

  /** The Kraft sum in units of 2^-15. */
  function Kraft(lens: seq<nat>): nat {
    StartOf(lens, MAXBITS + 1)
  }

  /** The smallest code of each length, by the recurrence of the standard. */
  function FirstCode(lens: seq<nat>, l: nat): nat {
    if l <= 1 then 0 else 2 * (FirstCode(lens, l - 1) + Count(lens, l - 1))
  }

  function CodeNum(lens: seq<nat>, n: nat): nat
    requires Used(lens, n)
  {
    FirstCode(lens, lens[n]) + Count(lens[..n], lens[n])
  }

  /** The bits of symbol n's code in the order they are transmitted. */
  function Code(lens: seq<nat>, n: nat): (c: seq<bool>)
    requires Used(lens, n)
    ensures |c| == lens[n]
  {
    CodeBits(CodeNum(lens, n), lens[n])
  }

  function Start(lens: seq<nat>, n: nat): nat
    requires Used(lens, n)
  {
    StartOf(lens, lens[n]) + Count(lens[..n], lens[n]) * Width(lens[n])
  }

  predicate Before(lens: seq<nat>, m: nat, n: nat)
    requires m < |lens| && n < |lens|
  {
    lens[m] < lens[n] || (lens[m] == lens[n] && m < n)
  }

  /** Where a bit string of at most 15 bits sits in [0, 2^15). */
  function Val(w: seq<bool>): nat
    requires |w| <= MAXBITS
  {
    Msb(w) * Width(|w|)
  }

  lemma {:induction false} CountStep(lens: seq<nat>, l: nat, n: nat)
    requires n < |lens|
    ensures Count(lens[..n + 1], l) == Count(lens[..n], l) + if lens[n] == l then 1 else 0
  {
    assert lens[..n + 1][..n] == lens[..n];
  }

  lemma {:induction false} CountMono(lens: seq<nat>, l: nat, m: nat, n: nat)
    requires m <= n <= |lens|
    ensures Count(lens[..m], l) <= Count(lens[..n], l)
    ensures m < n && lens[m] == l ==> Count(lens[..m], l) + 1 <= Count(lens[..n], l)
    decreases n
  {
    if m < n {
      CountStep(lens, l, n - 1);
      if m < n - 1 { CountMono(lens, l, m, n - 1); }
    }
  }

  lemma CountWithin(lens: seq<nat>, n: nat)
    requires n < |lens|
    ensures Count(lens[..n], lens[n]) < Count(lens, lens[n])
  {
    CountMono(lens, lens[n], n, |lens|);
    assert lens[..|lens|] == lens;
  }

  /** The j-th symbol of a given length exists. */
  lemma {:induction false} NthOfLength(lens: seq<nat>, l: nat, j: nat) returns (n: nat)
    requires j < Count(lens, l)
    ensures n < |lens| && lens[n] == l && Count(lens[..n], l) == j
  {
    var k := |lens| - 1;
    if lens[k] == l && Count(lens[..k], l) == j {
      n := k;
    } else {
      n := NthOfLength(lens[..k], l, j);
      assert lens[..k][..n] == lens[..n];
    }
  }

  lemma DoubleScaled(a: nat, b: nat, w: nat)
    ensures 2 * (a + b) * w == a * (2 * w) + b * (2 * w)
  {
  }

  lemma {:induction false} FirstCodeScaled(lens: seq<nat>, l: nat)
    requires 1 <= l <= MAXBITS
    ensures FirstCode(lens, l) * Width(l) == StartOf(lens, l)
  {
    if l > 1 {
      FirstCodeScaled(lens, l - 1);
      DoubleScaled(FirstCode(lens, l - 1), Count(lens, l - 1), Width(l));
      assert Width(l - 1) == 2 * Width(l);
    }
  }

  lemma {:induction false} StartOfMono(lens: seq<nat>, a: nat, b: nat)
    requires 1 <= a <= b <= MAXBITS + 1
    ensures StartOf(lens, a) <= StartOf(lens, b)
    ensures a < b ==> StartOf(lens, a) + Share(lens, a) <= StartOf(lens, b)
    decreases b
  {
    hide Share;
    if a + 1 < b {
      StartOfMono(lens, a, b - 1);
    }
  }

  lemma StartIsCode(lens: seq<nat>, n: nat)
    requires Used(lens, n)
    ensures Start(lens, n) == CodeNum(lens, n) * Width(lens[n])
  {
    FirstCodeScaled(lens, lens[n]);
    Distribute(FirstCode(lens, lens[n]), Count(lens[..n], lens[n]), Width(lens[n]));
  }

  lemma StartFits(lens: seq<nat>, n: nat)
    requires Used(lens, n)
    ensures Start(lens, n) + Width(lens[n]) <= StartOf(lens, lens[n] + 1) <= Kraft(lens)
  {
    CountWithin(lens, n);
    hide Pow2;
    StepBelow(Count(lens[..n], lens[n]), Count(lens, lens[n]), Width(lens[n]));
    StartOfMono(lens, lens[n] + 1, MAXBITS + 1);
  }

  /** Intervals follow one another in (length, symbol) order. */
  lemma StartOrdered(lens: seq<nat>, m: nat, n: nat)
    requires Used(lens, m) && Used(lens, n) && Before(lens, m, n)
    ensures Start(lens, m) + Width(lens[m]) <= Start(lens, n)
  {
    hide Pow2, Width, StartOf, Count;
    if lens[m] < lens[n] {
      StartFits(lens, m);
      StartOfMono(lens, lens[m] + 1, lens[n]);
    } else {
      CountMono(lens, lens[m], m, n);
      StepBelow(Count(lens[..m], lens[m]), Count(lens[..n], lens[m]), Width(lens[m]));
    }
  }

  /** A code number fits its length, so the interval of a code starts at its value. */
  lemma CodeVal(lens: seq<nat>, n: nat)
    requires Used(lens, n) && Kraft(lens) <= UNIT
    ensures CodeNum(lens, n) < Pow2(lens[n])
    ensures Msb(Code(lens, n)) == CodeNum(lens, n)
    ensures Val(Code(lens, n)) == Start(lens, n)
  {
    StartFits(lens, n);
    StartIsCode(lens, n);
    var c, w, p := CodeNum(lens, n), Width(lens[n]), Pow2(lens[n]);
    Pow2Add(MAXBITS - lens[n], lens[n]);
    Pow2Values();
    assert w * p == UNIT;
    if c >= p {
      MulMono(p, c, w);
      MulComm(p, w);
    }
    MsbCodeBits(c, lens[n]);
  }

  /** A prefix owns the interval all its extensions sit in. */
  lemma PrefixInterval(a: seq<bool>, w: seq<bool>)
    requires |a| <= |w| <= MAXBITS
    ensures a <= w <==> Val(a) <= Val(w) < Val(a) + Width(|a|)
  {
    ValSplit(w, |a|);
    hide Pow2;
    assert a <= w <==> w[..|a|] == a;
    var x, y, u := Msb(w[..|a|]), Msb(a), Width(|a|);
    if x == y {
      MsbInjective(w[..|a|], a);
    } else if x < y {
      StepBelow(x, y, u);
    } else {
      StepBelow(y, x, u);
    }
  }

  /** The point of a bit string lies in the interval of each of its prefixes. */
  lemma ValSplit(w: seq<bool>, k: nat)
    requires k <= |w| <= MAXBITS
    ensures Val(w[..k]) <= Val(w) < Val(w[..k]) + Width(k)
  {
    var x, r, p, u := Msb(w[..k]), Msb(w[k..]), Pow2(|w| - k), Width(|w|);
    assert w == w[..k] + w[k..];
    MsbConcat(w[..k], w[k..]);
    MsbBound(w[k..]);
    Pow2Add(|w| - k, MAXBITS - |w|);
    hide *;
    RowOf(x, p, r, u);
  }

  lemma RowOf(x: nat, p: nat, r: nat, u: nat)
    requires r < p && u >= 1
    ensures x * (p * u) <= (x * p + r) * u < x * (p * u) + p * u
  {
    Distribute(x * p, r, u);
    MulAssoc(x, p, u);
    StepBelow(r, p, u);
  }

  /** No code is a prefix of another (nor equal to it). */
  lemma PrefixFree(lens: seq<nat>, m: nat, n: nat)
    requires Used(lens, m) && Used(lens, n) && m != n && Kraft(lens) <= UNIT
    ensures !(Code(lens, m) <= Code(lens, n))
  {
    CodeVal(lens, m);
    CodeVal(lens, n);
    if lens[m] <= lens[n] {
      PrefixInterval(Code(lens, m), Code(lens, n));
      if Before(lens, m, n) {
        StartOrdered(lens, m, n);
      } else {
        StartOrdered(lens, n, m);
      }
    }
  }

  lemma UniqueDecoding(lens: seq<nat>, m: nat, n: nat, bits: seq<bool>)
    requires Used(lens, m) && Used(lens, n) && Kraft(lens) <= UNIT
    requires Code(lens, m) <= bits && Code(lens, n) <= bits
    ensures m == n
  {
    if m != n {
      PrefixFree(lens, m, n);
      PrefixFree(lens, n, m);
      PrefixesNest(Code(lens, m), Code(lens, n), bits);
    }
  }

  lemma PrefixesNest(a: seq<bool>, b: seq<bool>, bits: seq<bool>)
    requires a <= bits && b <= bits
    ensures a <= b || b <= a
  {
    if |a| <= |b| {
      assert b[..|a|] == bits[..|a|];
    } else {
      assert a[..|b|] == bits[..|b|];
    }
  }

  lemma ZeroProduct(c: nat, w: nat)
    ensures c == 0 ==> c * w == 0
  {
  }

  lemma {:induction false} QuotientBelow(d: nat, w: nat, c: nat) returns (j: nat)
    requires d < c * w && w >= 1
    ensures j < c && j * w <= d < j * w + w
    decreases d
  {
    if d < w {
      j := 0;
      ZeroProduct(c, w);
    } else {
      Distribute(c, -1, w);
      j := QuotientBelow(d - w, w, c - 1);
      Distribute(j, 1, w);
      j := j + 1;
    }
  }

  /** Every point below the Kraft sum lies in the interval of some code. */
  lemma {:induction false} Locate(lens: seq<nat>, v: nat, l: nat) returns (n: nat)
    requires 1 <= l <= MAXBITS + 1 && v < StartOf(lens, l)
    ensures Used(lens, n) && Start(lens, n) <= v < Start(lens, n) + Width(lens[n])
    decreases l
  {
    if v < StartOf(lens, l - 1) {
      n := Locate(lens, v, l - 1);
    } else {
      var k := l - 1;
      var j := QuotientBelow(v - StartOf(lens, k), Width(k), Count(lens, k));
      n := NthOfLength(lens, k, j);
    }
  }

  /** A complete code decodes every bit string long enough. */
  lemma Complete(lens: seq<nat>, bits: seq<bool>) returns (n: nat)
    requires Kraft(lens) == UNIT && |bits| >= MAXBITS
    ensures Used(lens, n) && Code(lens, n) <= bits
  {
    hide Val, Kraft, StartOf, Code, CodeBits, Start, Width, Count, Pow2, Msb;
    var w := bits[..MAXBITS];
    ValBound(w);
    KraftEnd(lens);
    n := Locate(lens, Val(w), MAXBITS + 1);
    CodeVal(lens, n);
    PrefixInterval(Code(lens, n), w);
    assert w[..lens[n]] == bits[..lens[n]];
  }

  lemma ValBound(w: seq<bool>)
    requires |w| == MAXBITS
    ensures Val(w) < UNIT
  {
    MsbBound(w);
    Pow2Values();
  }

  lemma KraftEnd(lens: seq<nat>)
    ensures Kraft(lens) == StartOf(lens, MAXBITS + 1)
  {
  }
}
