/** The decoder's view of a canonical code: codes as they sit in the bit buffer
    (first bit least significant), advanced by a backwards increment. */
module HuffBits {
  import opened Bits
  import opened Canonical
  import opened SortedSymbols

  /** Symbol n's code as a value in the bit buffer. */
  function Huff(lens: seq<nat>, n: nat): nat
    requires Used(lens, n)
  {
    Lsb(Code(lens, n))
  }

  function Zeros(n: nat): (b: seq<bool>)
    ensures |b| == n
  {
    seq(n, i => false)
  }

  /** The next code of the same length; all ones wraps to all zeros. */
  function Succ(b: seq<bool>): (c: seq<bool>)
    ensures |c| == |b|
  {
    if b == [] then []
    else if b[|b| - 1] then Succ(b[..|b| - 1]) + [false]
    else b[..|b| - 1] + [true]
  }

  lemma {:induction false} SuccMsb(b: seq<bool>)
    ensures Msb(b) + 1 < Pow2(|b|) ==> Msb(Succ(b)) == Msb(b) + 1
    ensures Msb(b) + 1 == Pow2(|b|) ==> Msb(Succ(b)) == 0
  {
    if b != [] {
      var p := b[..|b| - 1];
      SuccMsb(p);
      MsbBound(p);
      assert Succ(b)[..|b| - 1] == if b[|b| - 1] then Succ(p) else p;
    }
  }

  lemma {:induction false} LsbZeros(n: nat)
    ensures Lsb(Zeros(n)) == 0
  {
    if n > 0 {
      LsbZeros(n - 1);
      assert Zeros(n)[1..] == Zeros(n - 1);
    }
  }

  lemma LsbPadded(b: seq<bool>, n: nat)
    ensures Lsb(b + Zeros(n)) == Lsb(b)
  {
    LsbConcat(b, Zeros(n));
    LsbZeros(n);
  }

  lemma {:induction false} CodeBitsShift(v: nat, n: nat, d: nat)
    ensures CodeBits(v * Pow2(d), n + d) == CodeBits(v, n) + Zeros(d)
  {
    if d == 0 {
      assert CodeBits(v, n) + Zeros(0) == CodeBits(v, n);
    } else {
      CodeBitsShift(v, n, d - 1);
      var w := v * Pow2(d - 1);
      assert v * Pow2(d) == 2 * w;
      assert CodeBits(v, n) + Zeros(d) == (CodeBits(v, n) + Zeros(d - 1)) + [false];
    }
  }

  /** The backwards increment of a code held least significant bit first.
      The mask incr is 1 << p; p is -1 once it has been shifted out. */
  method Increment(huff: nat, len: nat, ghost b: seq<bool>) returns (r: nat)
    requires |b| == len >= 1 && huff == Lsb(b)
    ensures r == Lsb(Succ(b))
  {
    var p: int := len - 1;
    assert b[..len] == b && Succ(b) + Zeros(0) == Succ(b);
    while p >= 0 && Shr(huff, p) % 2 == 1
      invariant -1 <= p < len
      invariant Succ(b) == Succ(b[..p + 1]) + Zeros(len - p - 1)
    {
      BitAt(b, p);
      CarryStep(b, p);
      p := p - 1;
    }
    if p >= 0 {
      CarryStop(b, p);
      r := Low(huff, p) + Pow2(p);
    } else {
      assert Succ(b) == Zeros(len);
      LsbZeros(len);
      r := 0;
    }
  }

  lemma CarryStep(b: seq<bool>, p: nat)
    requires p < |b| && Succ(b) == Succ(b[..p + 1]) + Zeros(|b| - p - 1) && b[p]
    ensures Succ(b) == Succ(b[..p]) + Zeros(|b| - p)
  {
    assert b[..p + 1][..p] == b[..p];
    PadStep(Succ(b[..p]), |b| - p - 1);
  }

  lemma PadStep(s: seq<bool>, q: nat)
    ensures s + [false] + Zeros(q) == s + Zeros(q + 1)
  {
  }

  lemma CarryStop(b: seq<bool>, p: nat)
    requires p < |b| && Succ(b) == Succ(b[..p + 1]) + Zeros(|b| - p - 1)
    requires Shr(Lsb(b), p) % 2 != 1
    ensures Lsb(Succ(b)) == Low(Lsb(b), p) + Pow2(p)
  {
    LsbOne();
    hide Pow2, Succ, Zeros, Lsb, Shr, Low;
    BitAt(b, p);
    SuccStop(b, p);
    LsbSplit(b, p);
    LsbPadded(b[..p] + [true], |b| - p - 1);
    LsbConcat(b[..p], [true]);
  }

  lemma LsbOne()
    ensures Lsb([true]) == 1
  {
  }

  lemma SuccStop(b: seq<bool>, p: nat)
    requires p < |b| && Succ(b) == Succ(b[..p + 1]) + Zeros(|b| - p - 1) && !b[p]
    ensures Succ(b) == b[..p] + [true] + Zeros(|b| - p - 1)
  {
    assert b[..p + 1][..p] == b[..p];
  }

  lemma BitAt(b: seq<bool>, p: nat)
    requires p < |b|
    ensures Shr(Lsb(b), p) % 2 == Bit(b[p])
  {
    hide Shr, Low, Pow2;
    LsbSplit(b, p);
    LsbParity(b[p..]);
  }

  lemma LsbParity(b: seq<bool>)
    requires b != []
    ensures Lsb(b) % 2 == Bit(b[0])
  {
    HalfSum(if b[0] then 1 else 0, Lsb(b[1..]));
  }

  /** The code after symbol k's, padded with zeros, is symbol k+1's. */
  lemma NextCode(lens: seq<nat>, k: nat)
    requires Kraft(lens) <= UNIT && k + 1 < Symbols(lens)
    ensures Huff(lens, SymAt(lens, k + 1)) == Lsb(Succ(Code(lens, SymAt(lens, k))))
  {
    hide Kraft, Pow2, CodeNum, Lsb, Succ, CodeBits, Msb;
    var n, m := SymAt(lens, k), SymAt(lens, k + 1);
    NextNumber(lens, k);
    CodeVal(lens, n);
    CodeVal(lens, m);
    NextBits(Code(lens, n), CodeNum(lens, n) + 1, lens[m] - lens[n]);
  }

  lemma NextBits(b: seq<bool>, v: nat, d: nat)
    requires Msb(b) + 1 == v < Pow2(|b|)
    ensures Lsb(CodeBits(v * Pow2(d), |b| + d)) == Lsb(Succ(b))
  {
    SuccMsb(b);
    CodeBitsMsb(Succ(b));
    CodeBitsShift(v, |b|, d);
    LsbPadded(Succ(b), d);
  }

  lemma NextNumber(lens: seq<nat>, k: nat)
    requires Kraft(lens) <= UNIT && k + 1 < Symbols(lens)
    ensures LenAt(lens, k) <= LenAt(lens, k + 1)
    ensures CodeNum(lens, SymAt(lens, k + 1)) == (CodeNum(lens, SymAt(lens, k)) + 1) * Pow2(LenAt(lens, k + 1) - LenAt(lens, k))
    ensures CodeNum(lens, SymAt(lens, k)) + 1 < Pow2(LenAt(lens, k))
  {
    hide Code, Val, Msb, Pow2, Start, CodeNum, Kraft, Width;
    var n, m := SymAt(lens, k), SymAt(lens, k + 1);
    NextStart(lens, k);
    StartIsCode(lens, n);
    StartIsCode(lens, m);
    CodeVal(lens, m);
    Widths(lens[n], lens[m]);
    var d := lens[m] - lens[n];
    Pow2Add(d, MAXBITS - lens[m]);
    Pow2Add(d, lens[n]);
    NextNumberArith(CodeNum(lens, n), CodeNum(lens, m), Width(lens[m]), Width(lens[n]), Pow2(d), Pow2(lens[n]));
  }

  lemma NextStart(lens: seq<nat>, k: nat)
    requires k + 1 < Symbols(lens)
    ensures Start(lens, SymAt(lens, k + 1)) == Start(lens, SymAt(lens, k)) + Width(LenAt(lens, k))
    ensures LenAt(lens, k) <= LenAt(lens, k + 1)
  {
    BeginStep(lens, k);
  }

  lemma Widths(a: nat, b: nat)
    requires a <= b <= MAXBITS
    ensures Width(a) == Pow2(MAXBITS - a) >= 1 && Width(b) == Pow2(MAXBITS - b) >= 1
  {
  }

  lemma NextNumberArith(c: nat, e: nat, w: nat, w': nat, p: nat, q: nat)
    requires w >= 1 && p >= 1 && e * w == c * w' + w' && w' == p * w && e < p * q
    ensures e == (c + 1) * p && c + 1 < q
  {
    CancelWidth(e, c + 1, p, w);
    if c + 1 >= q {
      MulMono(q, c + 1, p);
      MulComm(q, p);
    }
  }

  lemma CancelWidth(e: nat, c: nat, p: nat, w: nat)
    requires w >= 1 && p >= 1 && c >= 1 && e * w == (c - 1) * (p * w) + p * w
    ensures e == c * p
  {
    Distribute(c - 1, 1, p * w);
    MulAssoc(c, p, w);
    if e < c * p {
      StepBelow(e, c * p, w);
    } else if c * p < e {
      StepBelow(c * p, e, w);
    }
  }

  lemma FirstHuff(lens: seq<nat>)
    requires Kraft(lens) <= UNIT && 0 < Symbols(lens)
    ensures Huff(lens, SymAt(lens, 0)) == 0
  {
    var n := SymAt(lens, 0);
    BeginZero(lens);
    StartIsCode(lens, n);
    if CodeNum(lens, n) > 0 { MulMono(1, CodeNum(lens, n), Width(lens[n])); }
    CodeBitsShift(0, 0, lens[n]);
    assert CodeBits(0, 0) + Zeros(lens[n]) == Zeros(lens[n]);
    LsbZeros(lens[n]);
  }

  /** Incrementing the very last code wraps to zero exactly when the set is complete. */
  lemma LastHuff(lens: seq<nat>, k: nat)
    requires Kraft(lens) <= UNIT && k + 1 == Symbols(lens)
    ensures Lsb(Succ(Code(lens, SymAt(lens, k)))) == 0 <==> Kraft(lens) == UNIT
  {
    hide Kraft, Code, CodeNum, Msb, Lsb, Succ, Width, Pow2, Offs, Count, Symbols;
    var n := SymAt(lens, k);
    var l := LastCode(lens, k);
    var c := Code(lens, n);
    MsbBound(c);
    WrapsAtEnd(c);
    if Msb(c) + 1 != Pow2(l) { StepBelow(Msb(c) + 1, Pow2(l), Width(l)); }
  }

  /** The last code ends where the code space is used up. */
  lemma LastCode(lens: seq<nat>, k: nat) returns (l: nat)
    requires Kraft(lens) <= UNIT && k + 1 == Symbols(lens)
    ensures var c := Code(lens, SymAt(lens, k)); l <= MAXBITS && |c| == l && Kraft(lens) == (Msb(c) + 1) * Width(l)
    ensures Pow2(l) * Width(l) == UNIT && Width(l) >= 1
  {
    var n := SymAt(lens, k);
    l := lens[n];
    BeginStep(lens, k);
    StartIsCode(lens, n);
    CodeVal(lens, n);
    hide Code, Msb, CodeNum;
    Distribute(CodeNum(lens, n), 1, Width(l));
    Pow2Add(l, MAXBITS - l);
    Pow2Values();
  }

  lemma WrapsAtEnd(c: seq<bool>)
    ensures Lsb(Succ(c)) == 0 <==> Msb(c) + 1 == Pow2(|c|)
  {
    SuccMsb(c);
    MsbBound(c);
    MsbZeros(|c|);
    LsbZeros(|c|);
    if Lsb(Succ(c)) == 0 {
      LsbInjective(Succ(c), Zeros(|c|));
    }
    if Msb(c) + 1 == Pow2(|c|) {
      CodeBitsMsb(Succ(c));
      CodeBitsMsb(Zeros(|c|));
    }
  }

  lemma {:induction false} MsbZeros(n: nat)
    ensures Msb(Zeros(n)) == 0
  {
    if n > 0 {
      MsbZeros(n - 1);
      assert Zeros(n)[..n - 1] == Zeros(n - 1);
    }
  }

  /** A value agreeing with one code on its low bits does not agree with another. */
  lemma HuffPrefixFree(lens: seq<nat>, m: nat, n: nat, hold: nat)
    requires Used(lens, m) && Used(lens, n) && m != n && Kraft(lens) <= UNIT
    ensures !(Low(hold, lens[m]) == Huff(lens, m) && Low(hold, lens[n]) == Huff(lens, n))
  {
    LowBits(hold, Code(lens, m));
    LowBits(hold, Code(lens, n));
    var bits := ToBits(hold, MAXBITS);
    ToBitsPrefix(hold, MAXBITS, lens[m]);
    ToBitsPrefix(hold, MAXBITS, lens[n]);
    if Code(lens, m) <= bits && Code(lens, n) <= bits {
      UniqueDecoding(lens, m, n, bits);
    }
  }

  /** The first root bits of a longer code. */
  function Head(lens: seq<nat>, n: nat, root: nat): seq<bool>
    requires Used(lens, n) && root <= lens[n]
  {
    Code(lens, n)[..root]
  }

  lemma HeadHuff(lens: seq<nat>, m: nat, n: nat, root: nat)
    requires Used(lens, n) && root <= lens[n] && Used(lens, m) && root <= lens[m]
    ensures Low(Huff(lens, n), root) == Lsb(Head(lens, n, root)) < Pow2(root)
    ensures Low(Huff(lens, m), root) == Low(Huff(lens, n), root) <==> Head(lens, m, root) == Head(lens, n, root)
  {
    LsbSplit(Code(lens, n), root);
    LsbSplit(Code(lens, m), root);
    LsbBound(Head(lens, n, root));
    if Lsb(Head(lens, n, root)) == Lsb(Head(lens, m, root)) {
      LsbInjective(Head(lens, m, root), Head(lens, n, root));
    }
  }

  /** Symbols sharing their first root bits start less than one root slot apart. */
  lemma HeadApart(lens: seq<nat>, j: nat, k: nat, root: nat)
    requires Kraft(lens) <= UNIT && j < Symbols(lens) && k < Symbols(lens)
    requires root <= LenAt(lens, j) && root <= LenAt(lens, k)
    requires Head(lens, SymAt(lens, j), root) == Head(lens, SymAt(lens, k), root)
    ensures Begin(lens, k) < Begin(lens, j) + Width(root)
  {
    CodeVal(lens, SymAt(lens, j));
    CodeVal(lens, SymAt(lens, k));
    ValSplit(Code(lens, SymAt(lens, j)), root);
    ValSplit(Code(lens, SymAt(lens, k)), root);
  }

  /** The symbols sharing their first root bits are consecutive. */
  lemma HeadContiguous(lens: seq<nat>, j: nat, m: nat, k: nat, root: nat)
    requires Kraft(lens) <= UNIT && j <= m <= k < Symbols(lens)
    requires root <= LenAt(lens, j)
    requires root <= LenAt(lens, m) && root <= LenAt(lens, k)
    requires Head(lens, SymAt(lens, j), root) == Head(lens, SymAt(lens, k), root)
    ensures Head(lens, SymAt(lens, m), root) == Head(lens, SymAt(lens, j), root)
  {
    BeginMono(lens, j, m);
    BeginMono(lens, m, k);
    var cj, cm, ck := Code(lens, SymAt(lens, j)), Code(lens, SymAt(lens, m)), Code(lens, SymAt(lens, k));
    CodeVal(lens, SymAt(lens, j));
    CodeVal(lens, SymAt(lens, m));
    CodeVal(lens, SymAt(lens, k));
    ValSplit(cj, root);
    ValSplit(ck, root);
    PrefixInterval(cj[..root], cm);
  }
}
