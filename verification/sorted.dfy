/** The symbols of a canonical code listed by length, then by symbol: the order
    in which inflate_table enters them.  Entering the next symbol moves on by
    exactly the width of the current one. */
module SortedSymbols {
  import opened Bits
  import opened Canonical

  /** Index of the first symbol of length l in the list. */
  function Offs(lens: seq<nat>, l: nat): nat {
    if l <= 1 then 0 else Offs(lens, l - 1) + Count(lens, l - 1)
  }

  function Symbols(lens: seq<nat>): nat {
    Offs(lens, MAXBITS + 1)
  }

  function Pos(lens: seq<nat>, n: nat): nat
    requires Used(lens, n)
  {
    Offs(lens, lens[n]) + Count(lens[..n], lens[n])
  }

  ghost predicate At(lens: seq<nat>, k: nat, n: nat) {
    Used(lens, n) && Pos(lens, n) == k
  }

  ghost function SymAt(lens: seq<nat>, k: nat): (n: nat)
    requires k < Symbols(lens)
    ensures At(lens, k, n)
  {
    SymAtExists(lens, k, MAXBITS + 1);
    var n :| At(lens, k, n);
    n
  }

  lemma {:induction false} SymAtExists(lens: seq<nat>, k: nat, l: nat)
    requires l <= MAXBITS + 1 && k < Offs(lens, l)
    ensures exists n :: At(lens, k, n)
  {
    if k < Offs(lens, l - 1) {
      SymAtExists(lens, k, l - 1);
    } else {
      var n := NthOfLength(lens, l - 1, k - Offs(lens, l - 1));
      assert At(lens, k, n);
    }
  }

  lemma {:induction false} OffsMono(lens: seq<nat>, a: nat, b: nat)
    requires 1 <= a <= b
    ensures Offs(lens, a) <= Offs(lens, b)
    ensures a < b ==> Offs(lens, a) + Count(lens, a) <= Offs(lens, b)
    ensures Offs(lens, a) == Offs(lens, b) && b <= MAXBITS + 1 ==> StartOf(lens, a) == StartOf(lens, b)
    decreases b
  {
    if a < b {
      OffsMono(lens, a, b - 1);
    }
  }

  /** Only the position in the list decides which symbol is meant. */
  lemma PosInjective(lens: seq<nat>, m: nat, n: nat)
    requires Used(lens, m) && Used(lens, n) && m != n
    ensures Pos(lens, m) < Pos(lens, n) <==> Before(lens, m, n)
    ensures Pos(lens, m) != Pos(lens, n)
  {
    var a, b := if Before(lens, m, n) then m else n, if Before(lens, m, n) then n else m;
    CountWithin(lens, a);
    if lens[a] < lens[b] {
      OffsMono(lens, lens[a], lens[b]);
    } else {
      CountMono(lens, lens[a], a, b);
    }
  }

  lemma PosBound(lens: seq<nat>, n: nat)
    requires Used(lens, n)
    ensures Pos(lens, n) < Offs(lens, lens[n] + 1) <= Symbols(lens)
  {
    CountWithin(lens, n);
    OffsMono(lens, lens[n] + 1, MAXBITS + 1);
  }

  lemma SymAtPos(lens: seq<nat>, n: nat)
    requires Used(lens, n)
    ensures Pos(lens, n) < Symbols(lens) && SymAt(lens, Pos(lens, n)) == n
  {
    PosBound(lens, n);
    var m := SymAt(lens, Pos(lens, n));
    if m != n {
      PosInjective(lens, m, n);
    }
  }

  /** The k-th interval starts where the first k end. */
  ghost function Begin(lens: seq<nat>, k: nat): nat
    requires k <= Symbols(lens)
  {
    if k < Symbols(lens) then Start(lens, SymAt(lens, k)) else Kraft(lens)
  }

  ghost function LenAt(lens: seq<nat>, k: nat): (l: nat)
    requires k < Symbols(lens)
    ensures 1 <= l <= MAXBITS
  {
    lens[SymAt(lens, k)]
  }

  /** A position within, or just past, the symbols of length l. */
  lemma BeginWithin(lens: seq<nat>, k: nat, l: nat)
    requires 1 <= l <= MAXBITS && Offs(lens, l) <= k <= Offs(lens, l + 1)
    ensures k <= Symbols(lens)
    ensures Begin(lens, k) == StartOf(lens, l) + (k - Offs(lens, l)) * Width(l)
    ensures k < Offs(lens, l + 1) ==> k < Symbols(lens) && LenAt(lens, k) == l
    ensures k == Offs(lens, l + 1) && k < Symbols(lens) ==> LenAt(lens, k) > l
  {
    hide Count;
    OffsMono(lens, l + 1, MAXBITS + 1);
    if k < Symbols(lens) {
      var n := SymAt(lens, k);
      PosBound(lens, n);
      if lens[n] < l {
        OffsMono(lens, lens[n] + 1, l);
      } else if l < lens[n] {
        OffsMono(lens, l + 1, lens[n]);
        OffsMono(lens, l, l + 1);
        assert k == Offs(lens, l + 1) == Offs(lens, lens[n]);
      }
    }
  }

  lemma BeginStep(lens: seq<nat>, k: nat)
    requires k < Symbols(lens)
    ensures Begin(lens, k + 1) == Begin(lens, k) + Width(LenAt(lens, k))
    ensures k + 1 < Symbols(lens) ==> LenAt(lens, k) <= LenAt(lens, k + 1)
  {
    var l := LenAt(lens, k);
    PosBound(lens, SymAt(lens, k));
    BeginWithin(lens, k, l);
    BeginWithin(lens, k + 1, l);
    Distribute(k - Offs(lens, l), 1, Width(l));
  }

  lemma {:induction false} BeginMono(lens: seq<nat>, j: nat, k: nat)
    requires j <= k <= Symbols(lens)
    ensures Begin(lens, j) <= Begin(lens, k)
    ensures k < Symbols(lens) ==> LenAt(lens, j) <= LenAt(lens, k)
    ensures j < k ==> Begin(lens, j) + Width(LenAt(lens, j)) <= Begin(lens, k)
    decreases k
  {
    if j < k {
      BeginMono(lens, j, k - 1);
      BeginStep(lens, k - 1);
    }
  }

  lemma BeginZero(lens: seq<nat>)
    ensures Begin(lens, 0) == 0
  {
    BeginZeroFrom(lens, 1);
  }

  lemma {:induction false} BeginZeroFrom(lens: seq<nat>, l: nat)
    requires 1 <= l <= MAXBITS + 1 && Offs(lens, l) == 0 && StartOf(lens, l) == 0
    ensures Begin(lens, 0) == 0
    decreases MAXBITS + 1 - l
  {
    if l <= MAXBITS {
      OffsMono(lens, l, l + 1);
      if Count(lens, l) == 0 {
        BeginZeroFrom(lens, l + 1);
      } else {
        BeginWithin(lens, 0, l);
      }
    }
  }

  lemma {:induction false} NoneBelow(lens: seq<nat>, l: nat)
    requires 1 <= l <= MAXBITS + 1 && forall i :: 1 <= i < l ==> Count(lens, i) == 0
    ensures Offs(lens, l) == 0 && StartOf(lens, l) == 0
  {
    if l > 1 {
      NoneBelow(lens, l - 1);
    }
  }
}
