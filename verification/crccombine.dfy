/** crc32_combine: zero bits applied by squaring matrices over GF(2). */
module CrcCombine {
  import opened Crc32

  /** 1 << n: the n-th basis vector. */
  function Basis(n: nat): bv32 {
    if n == 0 then 1 else Twice(Basis(n - 1))
  }

  function Twice(v: bv32): bv32 { v << 1 }

  /** The operator of k zero bits as a matrix: its images of the basis vectors. */
  ghost predicate Operator(mat: seq<bv32>, k: nat) {
    |mat| == 32 && forall n :: 0 <= n < 32 ==> mat[n] == Zeros(k, Basis(n))
  }

  /** A matrix times a vector: the sum of the columns at the vector's one bits. */
  function Times(mat: seq<bv32>, i: nat, v: bv32): bv32
    requires i <= |mat| == 32
    decreases 32 - i
  {
    if i == 32 then 0
    else Xor(if Odd(v) then mat[i] else 0, Times(mat, i + 1, Half(v)))
  }

  /** v moved up to bit i. */
  function Lift(v: bv32, i: nat): bv32 {
    if i == 0 then v else Twice(Lift(v, i - 1))
  }

  /** v has no bits from n on. */
  function Fits(v: bv32, n: nat): bool {
    if n == 0 then v == 0 else Fits(Half(v), n - 1)
  }

  lemma {:induction false} LiftTwice(v: bv32, i: nat)
    ensures Lift(Twice(v), i) == Twice(Lift(v, i))
  {
    hide Twice;
    if i > 0 { LiftTwice(v, i - 1); }
  }

  lemma {:induction false} LiftXor(a: bv32, b: bv32, i: nat)
    ensures Lift(Xor(a, b), i) == Xor(Lift(a, i), Lift(b, i))
  {
    hide Twice, Xor;
    if i > 0 {
      LiftXor(a, b, i - 1);
      TwiceXor(Lift(a, i - 1), Lift(b, i - 1));
    }
  }

  lemma TwiceXor(a: bv32, b: bv32)
    ensures Twice(Xor(a, b)) == Xor(Twice(a), Twice(b))
  {
  }

  lemma {:induction false} LiftBasis(i: nat)
    ensures Lift(1, i) == Basis(i) && Lift(0, i) == 0
  {
    if i > 0 {
      LiftBasis(i - 1);
      assert Twice(0) == 0;
    }
  }

  function LowBit(v: bv32): bv32 { v & 1 }

  lemma LowAndHigh(v: bv32)
    ensures v == Xor(LowBit(v), Twice(Half(v)))
  {
  }

  lemma LowBitIs(v: bv32)
    ensures LowBit(v) == if Odd(v) then 1 else 0
  {
    var x := v & 1;
    assert x == 0 || x == 1;
  }

  /** A vector is its lowest bit and the rest. */
  lemma Bits(v: bv32)
    ensures v == Xor(if Odd(v) then 1 else 0, Twice(Half(v)))
  {
    hide *;
    LowAndHigh(v);
    LowBitIs(v);
  }

  /** Multiplying by the operator's matrix applies the operator. */
  lemma {:induction false} TimesIs(mat: seq<bv32>, k: nat, i: nat, v: bv32)
    requires Operator(mat, k) && i <= 32 && Fits(v, 32 - i)
    ensures Times(mat, i, v) == Zeros(k, Lift(v, i))
    decreases 32 - i
  {
    hide Zeros, Xor, Twice, Half, Odd, Basis, Lift;
    if i == 32 {
      LiftBasis(32);
      ZerosNone(k);
    } else {
      TimesIs(mat, k, i + 1, Half(v));
      Bits(v);
      var b: bv32 := if Odd(v) then 1 else 0;
      LiftXor(b, Twice(Half(v)), i);
      LiftTwice(Half(v), i);
      LiftBasis(i);
      LiftNext(Half(v), i);
      ZerosNone(k);
      ZerosLinear(k, Lift(b, i), Lift(Twice(Half(v)), i));
    }
  }

  lemma LiftNext(v: bv32, i: nat)
    ensures Lift(v, i + 1) == Twice(Lift(v, i)) && Lift(v, 0) == v
  {
  }

  lemma {:induction false} ZerosNone(k: nat)
    ensures Zeros(k, 0) == 0
  {
    if k > 0 {
      ZerosNone(k - 1);
      assert !Odd(0) && Half(0) == 0;
    }
  }

  function Drop8(v: bv32): bv32 {
    v >> 8
  }

  lemma FitsAll(v: bv32)
    ensures Fits(v, 32)
  {
    hide Fits, Drop8;
    FitsDrop(v, 32);
    FitsDrop(Drop8(v), 24);
    FitsDrop(Drop8(Drop8(v)), 16);
    FitsDrop(Drop8(Drop8(Drop8(v))), 8);
    DropAll(v);
    FitsNone();
  }

  lemma FitsNone()
    ensures Fits(0, 0)
  {
  }

  lemma DropAll(v: bv32)
    ensures Drop8(Drop8(Drop8(Drop8(v)))) == 0
  {
  }

  lemma FitsDrop(v: bv32, n: nat)
    requires n >= 8
    ensures Fits(v, n) == Fits(Drop8(v), n - 8)
  {
    hide Fits;
    FitsStep(v, n);
  }

  lemma FitsStep(v: bv32, n: nat)
    requires n >= 8
    ensures Fits(v, n) == Fits(v >> 8, n - 8)
  {
    Halves(v);
    var h := Half(v);
    hide Half;
    assert Fits(v, n) == Fits(Half(Half(v)), n - 2);
    assert Fits(Half(Half(v)), n - 2) == Fits(Half(Half(Half(Half(v)))), n - 4);
    var w := Half(Half(Half(Half(v))));
    assert Fits(w, n - 4) == Fits(Half(Half(w)), n - 6);
    assert Fits(Half(Half(w)), n - 6) == Fits(Half(Half(Half(Half(w)))), n - 8);
  }

  lemma Halves(v: bv32)
    ensures Half(Half(Half(Half(Half(Half(Half(Half(v)))))))) == v >> 8
  {
  }

  /** gf2_matrix_times. */
  method MatrixTimes(mat: seq<bv32>, vec0: bv32, ghost k: nat) returns (sum: bv32)
    requires Operator(mat, k)
    ensures sum == Zeros(k, vec0)
  {
    hide Zeros, Xor, Half, Odd, Fits, Times, Operator;
    FitsAll(vec0);
    TimesIs(mat, k, 0, vec0);
    LiftNext(vec0, 0);
    OperatorSize(mat, k);
    sum := 0;
    var vec := vec0;
    var i := 0;
    XorSelf(Times(mat, 0, vec0));
    while vec != 0
      invariant i <= 32 && Fits(vec, 32 - i)
      invariant Xor(sum, Times(mat, i, vec)) == Zeros(k, vec0)
      decreases 32 - i
    {
      TimesStep(mat, i, vec, sum);
      if Odd(vec) { sum := Xor(sum, mat[i]); }
      vec := Half(vec);
      i := i + 1;
    }
    TimesZero(mat, i);
    XorSelf(sum);
  }

  lemma OperatorSize(mat: seq<bv32>, k: nat)
    requires Operator(mat, k)
    ensures |mat| == 32
  {
    hide Zeros, Basis;
  }

  lemma TimesStep(mat: seq<bv32>, i: nat, vec: bv32, sum: bv32)
    requires |mat| == 32 && i <= 32 && Fits(vec, 32 - i) && vec != 0
    ensures i < 32 && Fits(Half(vec), 32 - i - 1)
    ensures Xor(sum, Times(mat, i, vec)) == Xor(if Odd(vec) then Xor(sum, mat[i]) else sum, Times(mat, i + 1, Half(vec)))
  {
    hide Xor, Half, Odd;
    var t := Times(mat, i + 1, Half(vec));
    XorAssoc(sum, mat[i], t);
    XorSelf(t);
  }

  lemma {:induction false} TimesZero(mat: seq<bv32>, i: nat)
    requires |mat| == 32 && i <= 32
    ensures Times(mat, i, 0) == 0
    decreases 32 - i
  {
    if i < 32 {
      TimesZero(mat, i + 1);
      assert !Odd(0) && Half(0) == 0 && Xor(0, 0) == 0;
    }
  }

  /** gf2_matrix_square: twice as many zero bits. */
  method MatrixSquare(square: array<bv32>, mat: array<bv32>, ghost k: nat)
    requires square != mat && square.Length == 32 && Operator(mat[..], k)
    modifies square
    ensures Operator(square[..], 2 * k)
  {
    hide Zeros, Basis;
    for n := 0 to 32
      invariant Operator(mat[..], k)
      invariant forall i :: 0 <= i < n ==> square[i] == Zeros(2 * k, Basis(i))
    {
      ZerosAdd(k, k, Basis(n));
      square[n] := MatrixTimes(mat[..], mat[n], k);
    }
  }

  /** The operator of one zero bit. */
  method OneZero(odd: array<bv32>)
    requires odd.Length == 32
    modifies odd
    ensures Operator(odd[..], 1)
  {
    hide Zeros, Basis, Twice;
    FirstColumn();
    odd[0] := POLY;
    var row: bv32 := 1;
    for n := 1 to 32
      invariant odd[0] == POLY && row == Basis(n - 1)
      invariant forall i :: 1 <= i < n ==> odd[i] == Zeros(1, Basis(i))
    {
      NextColumn(n);
      odd[n] := row;
      row := Twice(row);
    }
  }

  lemma FirstColumn()
    ensures Zeros(1, Basis(0)) == POLY && Basis(0) == 1
  {
    assert Odd(1) && Half(1) == 0 && Xor(POLY, 0) == POLY;
    assert Zeros(0, 1) == 1;
  }

  /** Below bit 31 a basis vector only moves. */
  lemma NextColumn(n: nat)
    requires 1 <= n < 32
    ensures Zeros(1, Basis(n)) == Basis(n - 1) && Basis(n) == Twice(Basis(n - 1))
  {
    BasisSmall(n - 1);
    TwiceHalf(Basis(n - 1));
    assert Zeros(0, Basis(n)) == Basis(n);
    hide Odd, Half, Twice, Xor;
    assert Zeros(1, Basis(n)) == Shift(Basis(n));
  }

  lemma TwiceHalf(v: bv32)
    requires v & 0x8000_0000 == 0
    ensures !Odd(Twice(v)) && Half(Twice(v)) == v
  {
  }

  /** The basis vectors below the last keep clear of the top bit. */
  lemma BasisSmall(n: nat)
    requires n < 31
    ensures Basis(n) & 0x8000_0000 == 0
  {
    assert Basis(0) == 0x1 && Basis(1) == 0x2 && Basis(2) == 0x4 && Basis(3) == 0x8;
    assert Basis(4) == 0x10 && Basis(5) == 0x20 && Basis(6) == 0x40 && Basis(7) == 0x80;
    assert Basis(8) == 0x100 && Basis(9) == 0x200 && Basis(10) == 0x400 && Basis(11) == 0x800;
    assert Basis(12) == 0x1000 && Basis(13) == 0x2000 && Basis(14) == 0x4000 && Basis(15) == 0x8000;
    assert Basis(16) == 0x1_0000 && Basis(17) == 0x2_0000 && Basis(18) == 0x4_0000 && Basis(19) == 0x8_0000;
    assert Basis(20) == 0x10_0000 && Basis(21) == 0x20_0000 && Basis(22) == 0x40_0000 && Basis(23) == 0x80_0000;
    assert Basis(24) == 0x100_0000 && Basis(25) == 0x200_0000 && Basis(26) == 0x400_0000 && Basis(27) == 0x800_0000;
    assert Basis(28) == 0x1000_0000 && Basis(29) == 0x2000_0000 && Basis(30) == 0x4000_0000;
  }

  /** Zeros for a length given bit by bit. */
  lemma ZerosOn(done: nat, part: nat, c: bv32)
    ensures Zeros(8 * (done + part), c) == Zeros(8 * part, Zeros(8 * done, c))
  {
    ZerosAdd(8 * part, 8 * done, c);
  }

  /** One half of the loop: square into the other array, and apply it if this bit of the length is set. */
  method OneRound(next: array<bv32>, mat: array<bv32>, crc: bv32, len2: nat, ghost k: nat, ghost unit: nat, ghost done: nat, ghost start: bv32)
    returns (crc': bv32)
    requires next != mat && next.Length == 32 && Operator(mat[..], k) && 2 * k == 8 * unit && crc == Zeros(8 * done, start)
    modifies next
    ensures Operator(next[..], 8 * unit) && crc' == Zeros(8 * (done + if len2 % 2 == 1 then unit else 0), start)
  {
    hide Zeros, Operator;
    MatrixSquare(next, mat, k);
    crc' := crc;
    if len2 % 2 == 1 {
      ZerosOn(done, unit, start);
      crc' := MatrixTimes(next[..], crc, 8 * unit);
    }
  }

  /** Apply len2 zero bytes to a register, by the binary digits of len2. */
  method ApplyZeros(crc0: bv32, len0: nat) returns (crc: bv32)
    requires len0 > 0
    ensures crc == Zeros(8 * len0, crc0)
  {
    hide Zeros, Operator;
    var even, odd := new bv32[32], new bv32[32];
    OneZero(odd);
    MatrixSquare(even, odd, 1);
    MatrixSquare(odd, even, 2);
    crc := crc0;
    var len2 := len0;
    ghost var unit, done := 1, 0;
    ZerosStart(crc0);
    while true
      invariant even != odd && even.Length == 32 && odd.Length == 32 && fresh(even) && fresh(odd)
      invariant Operator(odd[..], 4 * unit) && crc == Zeros(8 * done, crc0)
      invariant done + unit * len2 == len0 && unit >= 1 && len2 > 0
      decreases len2
    {
      crc := OneRound(even, odd, crc, len2, 4 * unit, unit, done, crc0);
      Halved(len2, unit);
      done := done + if len2 % 2 == 1 then unit else 0;
      len2, unit := len2 / 2, 2 * unit;
      if len2 == 0 {
        break;
      }
      crc := OneRound(odd, even, crc, len2, 4 * unit, unit, done, crc0);
      Halved(len2, unit);
      done := done + if len2 % 2 == 1 then unit else 0;
      len2, unit := len2 / 2, 2 * unit;
      if len2 == 0 {
        break;
      }
    }
  }

  lemma ZerosStart(c: bv32)
    ensures Zeros(8 * 0, c) == c
  {
  }

  lemma Halved(n: nat, unit: nat)
    ensures unit * n == (if n % 2 == 1 then unit else 0) + (2 * unit) * (n / 2)
  {
    var h := n / 2;
    assert n == 2 * h + n % 2;
    Pairs(unit, h, n % 2);
  }

  lemma Pairs(u: nat, h: nat, r: nat)
    ensures u * (2 * h + r) == u * r + (2 * u) * h
  {
  }

  /** The checksum of a concatenation from those of its parts. */
  lemma CrcOfBoth(a: seq<Byte>, b: seq<Byte>)
    ensures Crc(a + b) == Xor(Zeros(8 * |b|, Crc(a)), Crc(b))
  {
    hide Zeros, Xor, Register;
    var n := 8 * |b|;
    RegisterConcat(ONES, a, b);
    var ra := Register(ONES, a);
    RegisterAffine(ra, b);
    RegisterAffine(ONES, b);
    ZerosLinear(n, ra, ONES);
    var p, q, r := Zeros(n, ra), Zeros(n, ONES), Register(0, b);
    Cancel(p, q, r, ONES);
  }

  lemma Cancel(p: bv32, q: bv32, r: bv32, f: bv32)
    ensures Xor(Xor(p, r), f) == Xor(Xor(p, q), Xor(Xor(q, r), f))
  {
    hide Xor;
    var s := Xor(r, f);
    XorAssoc(p, r, f);
    XorAssoc(q, r, f);
    XorAssoc(p, q, Xor(q, s));
    XorAssoc(q, q, s);
    XorSelf(q);
    XorSelf(s);
  }

  /** crc32_combine: the checksum of a followed by b, from their checksums and b's length. */
  method Combine(crc1: bv32, crc2: bv32, len2: int, ghost a: seq<Byte>, ghost b: seq<Byte>) returns (r: bv32)
    requires crc1 == Crc(a) && crc2 == Crc(b) && (len2 >= 0 ==> len2 == |b|)
    ensures r == if len2 < 0 then crc1 else Crc(a + b)
  {
    hide Zeros, Xor, Crc;
    if len2 <= 0 {
      if len2 == 0 { assert a + b == a; }
      return crc1;
    }
    CrcOfBoth(a, b);
    r := ApplyZeros(crc1, len2);
    r := Xor(r, crc2);
  }
}
