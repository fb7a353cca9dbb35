/** The rolling hash of the match finder: a key is computed from the previous key
    and one more byte, and after three bytes nothing older is left in it. */
module RollingHash {
  import opened Bits

  /** a ^ b on unsigned values. */
  function Xor(a: nat, b: nat): nat {
    if a == 0 && b == 0 then 0 else (a + b) % 2 + 2 * Xor(a / 2, b / 2)
  }

  /** The low n bits agree. */
  predicate Agree(a: nat, b: nat, n: nat) {
    Low(a, n) == Low(b, n)
  }

  lemma XorStep(a: nat, b: nat)
    ensures Xor(a, b) % 2 == (a + b) % 2 && Xor(a, b) / 2 == Xor(a / 2, b / 2)
  {
    HalfOf(Xor(a / 2, b / 2), (a + b) % 2);
  }

  lemma HalfOf(q: nat, r: nat)
    requires r < 2
    ensures (r + 2 * q) / 2 == q && (r + 2 * q) % 2 == r
  {
  }

  lemma LowStep(a: nat, b: nat, n: nat)
    requires n > 0
    ensures Agree(a, b, n) <==> a % 2 == b % 2 && Agree(a / 2, b / 2, n - 1)
  {
    HalfOf(Low(a / 2, n - 1), a % 2);
    HalfOf(Low(b / 2, n - 1), b % 2);
  }

  lemma Parity(a: nat, b: nat, c: nat)
    ensures a % 2 == b % 2 <==> (a + c) % 2 == (b + c) % 2
    ensures a % 2 == b % 2 <==> (c + a) % 2 == (c + b) % 2
  {
  }

  /** Agreement on the operands carries over to the result. */
  lemma {:induction false} XorAgree(a: nat, b: nat, c: nat, n: nat)
    requires Agree(a, b, n)
    ensures Agree(Xor(a, c), Xor(b, c), n)
  {
    hide Low, Xor, Agree;
    if n == 0 {
      AgreeNone(Xor(a, c), Xor(b, c));
    } else {
      LowStep(a, b, n);
      Parity(a, b, c);
      XorAgree(a / 2, b / 2, c / 2, n - 1);
      XorStep(a, c);
      XorStep(b, c);
      LowStep(Xor(a, c), Xor(b, c), n);
    }
  }

  /** The other operand can be recovered from the result. */
  lemma {:induction false} XorCancel(a: nat, c: nat, d: nat, n: nat)
    requires Agree(Xor(a, c), Xor(a, d), n)
    ensures Agree(c, d, n)
  {
    hide Low, Xor, Agree;
    if n == 0 {
      AgreeNone(c, d);
    } else {
      Parity(c, d, a);
      XorStep(a, c);
      XorStep(a, d);
      LowStep(Xor(a, c), Xor(a, d), n);
      XorCancel(a / 2, c / 2, d / 2, n - 1);
      LowStep(c, d, n);
    }
  }

  lemma {:induction false} XorZero(b: nat)
    ensures Xor(0, b) == b
  {
    if b > 0 { XorZero(b / 2); }
  }

  lemma {:induction false} AgreeLess(a: nat, b: nat, m: nat, n: nat)
    requires m <= n && Agree(a, b, n)
    ensures Agree(a, b, m)
  {
    if m > 0 {
      LowStep(a, b, n);
      AgreeLess(a / 2, b / 2, m - 1, n - 1);
      LowStep(a, b, m);
    }
  }

  lemma {:induction false} AgreeLow(a: nat, m: nat, n: nat)
    requires m <= n
    ensures Agree(Low(a, n), a, m)
  {
    if m > 0 {
      HalfOf(Low(a / 2, n - 1), a % 2);
      AgreeLow(a / 2, m - 1, n - 1);
      LowStep(Low(a, n), a, m);
    }
  }

  lemma {:induction false} ShiftAgree(a: nat, b: nat, n: nat, s: nat)
    requires Agree(a, b, n)
    ensures Agree(a * Pow2(s), b * Pow2(s), n + s)
    decreases s
  {
    if s > 0 {
      ShiftAgree(a, b, n, s - 1);
      Twice(a, Pow2(s - 1));
      Twice(b, Pow2(s - 1));
      LowStep(a * Pow2(s), b * Pow2(s), n + s);
    }
  }

  lemma Twice(a: nat, p: nat)
    ensures (a * (2 * p)) % 2 == 0 && (a * (2 * p)) / 2 == a * p
  {
    assert a * (2 * p) == 2 * (a * p);
    HalfOf(a * p, 0);
  }

  /** Size of the hash table and shift per byte, for the memory levels 1 to 9. */
  datatype Hashing = Hashing(bits: nat, shift: nat) {
    predicate Valid() {
      8 <= bits <= 16 && shift == (bits + 2) / 3
    }

    function Size(): nat {
      Pow2(bits)
    }

    /** UPDATE_HASH: take one more byte into the key. */
    function Update(h: nat, c: nat): (r: nat)
      ensures r < Size()
    {
      Low(Xor(h * Pow2(shift), c), bits)
    }

    /** The key of three bytes. */
    function Key(a: nat, b: nat, c: nat): (r: nat)
      ensures r < Size()
    {
      Update(Update(Update(0, a), b), c)
    }

    /** h is a key into which a and b went last. */
    ghost predicate Rolled(h: nat, a: nat, b: nat) {
      exists g: nat :: h == Update(Update(g, a), b)
    }

    /** One more byte shifts away the bits on which two keys disagree. */
    lemma UpdateAgree(g: nat, h: nat, c: nat, n: nat, m: nat)
      requires Agree(g, h, n) && m <= n + shift && m <= bits
      ensures Agree(Update(g, c), Update(h, c), m)
    {
      hide *;
      ShiftAgree(g, h, n, shift);
      XorAgree(g * Pow2(shift), h * Pow2(shift), c, n + shift);
      AgreeLess(Xor(g * Pow2(shift), c), Xor(h * Pow2(shift), c), m, n + shift);
      AgreeUpdate(g, c, m);
      AgreeUpdate(h, c, m);
      AgreeTrans(Update(g, c), Xor(g * Pow2(shift), c), Xor(h * Pow2(shift), c), m);
      AgreeTrans(Update(g, c), Xor(h * Pow2(shift), c), Update(h, c), m);
    }

    lemma AgreeUpdate(h: nat, c: nat, m: nat)
      requires m <= bits
      ensures Agree(Update(h, c), Xor(h * Pow2(shift), c), m) && Agree(Xor(h * Pow2(shift), c), Update(h, c), m)
    {
      AgreeLow(Xor(h * Pow2(shift), c), m, bits);
    }

    /** After three bytes nothing older is left in the key. */
    lemma KeyOfLastThree(g: nat, a: nat, b: nat, c: nat)
      requires Valid()
      ensures Update(Update(Update(g, a), b), c) == Key(a, b, c)
    {
      hide Update, Low, Agree;
      assert Agree(g, 0, 0) by { AgreeNone(g, 0); }
      UpdateAgree(g, 0, a, 0, shift);
      UpdateAgree(Update(g, a), Update(0, a), b, shift, 2 * shift);
      UpdateAgree(Update(Update(g, a), b), Update(Update(0, a), b), c, 2 * shift, bits);
      AgreeBelow(Update(Update(Update(g, a), b), c), Key(a, b, c), bits);
    }

    /** Taking a byte into a rolled key gives the key of the last three bytes,
        and a rolled key again. */
    lemma Roll(h: nat, a: nat, b: nat, c: nat)
      requires Valid() && Rolled(h, a, b)
      ensures Update(h, c) == Key(a, b, c) && Rolled(Update(h, c), b, c)
    {
      hide Update, Key;
      var g: nat :| h == Update(Update(g, a), b);
      KeyOfLastThree(g, a, b, c);
      assert Update(h, c) == Update(Update(Update(g, a), b), c);
    }

    /** Two bytes start a key. */
    lemma RollStart(a: nat, b: nat)
      requires Valid() && a < 256
      ensures Rolled(Update(a, b), a, b)
    {
      hide Update;
      First(a);
      assert Update(a, b) == Update(Update(0, a), b);
    }

    lemma First(a: nat)
      requires Valid() && a < 256
      ensures Update(0, a) == a
    {
      XorZero(a);
      ByteFits();
      LowSmall(a, bits);
    }

    lemma ByteFits()
      requires Valid()
      ensures Size() >= 256
    {
      Pow2Values();
      Pow2Mono(8, bits);
    }

    /** Strings with the same key and the same first two bytes have the same third
        byte, as the key has at least 8 bits: it need not be compared. */
    lemma ThirdByte(a: nat, b: nat, c: nat, d: nat)
      requires Valid() && c < 256 && d < 256 && Key(a, b, c) == Key(a, b, d)
      ensures c == d
    {
      hide Xor, Low;
      XorCancel(Update(Update(0, a), b) * Pow2(shift), c, d, bits);
      ByteFits();
      AgreeBelow(c, d, bits);
    }
  }

  lemma AgreeTrans(a: nat, b: nat, c: nat, n: nat)
    requires Agree(a, b, n) && Agree(b, c, n)
    ensures Agree(a, c, n)
  {
  }

  lemma AgreeNone(a: nat, b: nat)
    ensures Agree(a, b, 0)
  {
  }

  lemma AgreeBelow(a: nat, b: nat, n: nat)
    requires a < Pow2(n) && b < Pow2(n) && Agree(a, b, n)
    ensures a == b
  {
    LowSmall(a, n);
    LowSmall(b, n);
  }

  /** With a key of 7 bits the third byte would have to be compared. */
  lemma SevenBitsFail()
    ensures var s := Hashing(7, 3); s.Key(0, 0, 0) == s.Key(0, 0, 128)
  {
    var s := Hashing(7, 3);
    XorZero(0);
    XorZero(128);
    assert s.Update(0, 0) == 0;
    assert Low(128, 7) == Low(64, 6) == Low(32, 5);
  }
}
