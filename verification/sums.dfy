/** Counting and summing over index ranges and over lists of distinct nodes. */
module Sums {

  /** How many i < n satisfy p. */
  ghost function CountIf(n: nat, p: nat -> bool): (c: nat)
    ensures c <= n
  {
    if n == 0 then 0 else CountIf(n - 1, p) + if p(n - 1) then 1 else 0
  }

  lemma {:induction false} CountSame(n: nat, p: nat -> bool, q: nat -> bool)
    requires forall i: nat :: i < n ==> p(i) == q(i)
    ensures CountIf(n, p) == CountIf(n, q)
  {
    if n > 0 { CountSame(n - 1, p, q); }
  }

  lemma {:induction false} CountDisjoint(n: nat, p: nat -> bool, q: nat -> bool, r: nat -> bool)
    requires forall i: nat :: i < n ==> !(p(i) && q(i)) && r(i) == (p(i) || q(i))
    ensures CountIf(n, r) == CountIf(n, p) + CountIf(n, q)
  {
    if n > 0 { CountDisjoint(n - 1, p, q, r); }
  }

  lemma {:induction false} CountNone(n: nat, p: nat -> bool)
    requires forall i: nat :: i < n ==> !p(i)
    ensures CountIf(n, p) == 0
  {
    if n > 0 { CountNone(n - 1, p); }
  }

  /** Sum of g over 0..n-1. */
  ghost function SumTo(n: nat, g: nat -> int): int {
    if n == 0 then 0 else SumTo(n - 1, g) + g(n - 1)
  }

  lemma {:induction false} SumSame(n: nat, f: nat -> int, g: nat -> int)
    requires forall i: nat :: i < n ==> f(i) == g(i)
    ensures SumTo(n, f) == SumTo(n, g)
  {
    if n > 0 { SumSame(n - 1, f, g); }
  }

  lemma {:induction false} SumChange(n: nat, f: nat -> int, g: nat -> int, x: nat)
    requires x < n && forall i: nat :: i < n && i != x ==> f(i) == g(i)
    ensures SumTo(n, f) - f(x) == SumTo(n, g) - g(x)
  {
    if x < n - 1 {
      SumChange(n - 1, f, g, x);
    } else {
      SumSame(n - 1, f, g);
    }
  }

  lemma {:induction false} SumAtMost(n: nat, f: nat -> int, g: nat -> int)
    requires forall i: nat :: i < n ==> f(i) <= g(i)
    ensures SumTo(n, f) <= SumTo(n, g)
  {
    if n > 0 { SumAtMost(n - 1, f, g); }
  }

  lemma {:induction false} SumZero(n: nat, g: nat -> int)
    requires forall i: nat :: i < n ==> g(i) == 0
    ensures SumTo(n, g) == 0
  {
    if n > 0 { SumZero(n - 1, g); }
  }

  /** Sum of g over the listed nodes numbered below n. */
  ghost function SumOver(l: seq<nat>, n: nat, g: nat -> int): int {
    if l == [] then 0
    else SumOver(l[..|l| - 1], n, g) + if l[|l| - 1] < n then g(l[|l| - 1]) else 0
  }

  lemma {:induction false} SumOverSame(l: seq<nat>, n: nat, f: nat -> int, g: nat -> int)
    requires forall x :: x in l && x < n ==> f(x) == g(x)
    ensures SumOver(l, n, f) == SumOver(l, n, g)
  {
    if l != [] { SumOverSame(l[..|l| - 1], n, f, g); }
  }

  lemma SumOverStep(l: seq<nat>, i: nat, n: nat, g: nat -> int)
    requires i < |l|
    ensures SumOver(l[..i + 1], n, g) == SumOver(l[..i], n, g) + if l[i] < n then g(l[i]) else 0
  {
    assert l[..i + 1][..i] == l[..i];
  }

  ghost predicate Distinct(l: seq<nat>) {
    forall i, j :: 0 <= i < j < |l| ==> l[i] != l[j]
  }

  /** A list of distinct nodes that holds every symbol with a non-zero term sums to the same. */
  lemma {:induction false} SumByList(l: seq<nat>, n: nat, g: nat -> int)
    requires Distinct(l) && forall x: nat :: x < n && x !in l ==> g(x) == 0
    ensures SumOver(l, n, g) == SumTo(n, g)
    decreases |l|
  {
    if l == [] {
      SumZero(n, g);
    } else {
      var k := |l| - 1;
      var x, l' := l[k], l[..k];
      if x < n {
        var f := (y: nat) => if y == x then 0 else g(y);
        forall y: nat | y < n && y !in l'
          ensures f(y) == 0
        {
          assert y == x || y !in l;
        }
        SumByList(l', n, f);
        SumChange(n, f, g, x);
        SumOverSame(l', n, f, g);
      } else {
        SumByList(l', n, g);
      }
    }
  }

  lemma {:induction false} SumOverConcat(a: seq<nat>, b: seq<nat>, n: nat, g: nat -> int)
    ensures SumOver(a + b, n, g) == SumOver(a, n, g) + SumOver(b, n, g)
  {
    if b == [] {
      assert a + b == a;
    } else {
      SumOverConcat(a, b[..|b| - 1], n, g);
      assert (a + b)[..|a + b| - 1] == a + b[..|b| - 1];
    }
  }

  lemma SumOverDrop(l: seq<nat>, p: nat, n: nat, g: nat -> int)
    requires p < |l|
    ensures SumOver(l[p..], n, g) == SumOver(l[p + 1..], n, g) + if l[p] < n then g(l[p]) else 0
  {
    SumOverConcat([l[p]], l[p + 1..], n, g);
    assert [l[p]] + l[p + 1..] == l[p..];
    assert [l[p]][..0] == [];
  }

  /** Lists without symbols sum to nothing. */
  lemma {:induction false} SumOverNone(l: seq<nat>, n: nat, one: nat -> int, g: nat -> int)
    requires forall x :: one(x) == 1
    requires SumOver(l, n, one) <= 0
    ensures SumOver(l, n, g) == 0 && SumOver(l, n, one) == 0
    ensures forall i :: 0 <= i < |l| ==> l[i] >= n
  {
    if l != [] {
      SumOverNonNegative(l[..|l| - 1], n, one);
      SumOverNone(l[..|l| - 1], n, one, g);
    }
  }

  lemma {:induction false} SumOverNonNegative(l: seq<nat>, n: nat, one: nat -> int)
    requires forall x :: one(x) == 1
    ensures SumOver(l, n, one) >= 0
  {
    if l != [] { SumOverNonNegative(l[..|l| - 1], n, one); }
  }
}
