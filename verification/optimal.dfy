/** The tree that build_tree makes is an optimal one: no prefix code for the same
    frequencies has a smaller weighted path length. */
module OptimalTrees {
  import opened Bits
  import opened Sums
  import opened Forests

  // ---- code lengths and their cost ----

  /** The part of the code space that a length takes, in units of 2^-top. */
  ghost function Share(d: nat -> nat, top: nat): nat -> int {
    (x: nat) => if d(x) <= top then Pow2(top - d(x)) else 0
  }

  /** Lengths that a prefix code can have: Kraft's inequality. */
  ghost predicate Lengths(l: seq<nat>, n: nat, d: nat -> nat, top: nat) {
    (forall x :: x in l ==> x < n && d(x) <= top) && SumOver(l, n, Share(d, top)) <= Pow2(top)
  }

  ghost function Term(freq: seq<nat>, d: nat -> nat): nat -> int {
    (x: nat) => FreqOf(freq, x) * d(x)
  }

  /** Weighted path length. */
  ghost function Path(l: seq<nat>, n: nat, freq: seq<nat>, d: nat -> nat): int {
    SumOver(l, n, Term(freq, d))
  }

  /** Where the nodes hang this deep, no leaf below them is deeper than max. */
  ghost predicate Within(l: seq<nat>, d: nat -> nat, deep: seq<nat>, max: nat) {
    forall x :: x in l ==> d(x) + HeightOf(deep, x) <= max
  }

  // ---- sums over lists of distinct nodes ----

  lemma {:induction false} SumOverChange(l: seq<nat>, n: nat, f: nat -> int, g: nat -> int, x: nat)
    requires Distinct(l) && x in l && x < n && forall y: nat :: y in l && y != x ==> f(y) == g(y)
    ensures SumOver(l, n, f) - f(x) == SumOver(l, n, g) - g(x)
  {
    var k := |l| - 1;
    if l[k] == x {
      assert x !in l[..k];
      SumOverSame(l[..k], n, f, g);
    } else {
      SumOverChange(l[..k], n, f, g, x);
    }
  }

  lemma SumOverChangeTwo(l: seq<nat>, n: nat, f: nat -> int, g: nat -> int, a: nat, b: nat)
    requires Distinct(l) && a in l && b in l && a != b && a < n && b < n
    requires forall y: nat :: y in l && y != a && y != b ==> f(y) == g(y)
    ensures SumOver(l, n, f) - f(a) - f(b) == SumOver(l, n, g) - g(a) - g(b)
  {
    var h := (y: nat) => if y == a then g(y) else f(y);
    SumOverChange(l, n, f, h, a);
    SumOverChange(l, n, h, g, b);
  }

  /** The order of the list does not matter. */
  lemma SumOverSet(l: seq<nat>, m: seq<nat>, n: nat, g: nat -> int)
    requires Distinct(l) && Distinct(m) && forall x :: x in l <==> x in m
    ensures SumOver(l, n, g) == SumOver(m, n, g)
  {
    var h := (x: nat) => if x in l then g(x) else 0;
    SumOverSame(l, n, g, h);
    SumOverSame(m, n, g, h);
    SumByList(l, n, h);
    SumByList(m, n, h);
  }

  lemma SumOverSnoc(l: seq<nat>, x: nat, n: nat, g: nat -> int)
    ensures SumOver(l + [x], n, g) == SumOver(l, n, g) + if x < n then g(x) else 0
  {
    assert (l + [x])[..|l|] == l;
  }

  lemma {:induction false} SumOverTwice(l: seq<nat>, n: nat, f: nat -> int, g: nat -> int)
    requires forall x :: x in l && x < n ==> f(x) == 2 * g(x)
    ensures SumOver(l, n, f) == 2 * SumOver(l, n, g)
  {
    if l != [] { SumOverTwice(l[..|l| - 1], n, f, g); }
  }

  lemma {:induction false} SumOverPositive(l: seq<nat>, n: nat, g: nat -> int)
    requires forall x :: x in l ==> g(x) >= 0
    ensures SumOver(l, n, g) >= 0
  {
    if l != [] { SumOverPositive(l[..|l| - 1], n, g); }
  }

  /** Two elements taken out. */
  function Keep(l: seq<nat>, a: nat, b: nat): seq<nat> {
    if l == [] then []
    else Keep(l[..|l| - 1], a, b) + if l[|l| - 1] == a || l[|l| - 1] == b then [] else [l[|l| - 1]]
  }

  lemma {:induction false} KeepIs(l: seq<nat>, a: nat, b: nat)
    requires Distinct(l)
    ensures Distinct(Keep(l, a, b)) && forall x :: x in Keep(l, a, b) <==> x in l && x != a && x != b
  {
    if l != [] {
      var k := |l| - 1;
      KeepIs(l[..k], a, b);
      assert l == l[..k] + [l[k]];
      assert l[k] !in l[..k];
    }
  }

  lemma SumOverKeep(l: seq<nat>, a: nat, b: nat, n: nat, g: nat -> int)
    requires Distinct(l) && a in l && b in l && a != b && a < n && b < n
    ensures SumOver(l, n, g) == SumOver(Keep(l, a, b), n, g) + g(a) + g(b)
  {
    KeepIs(l, a, b);
    var m := Keep(l, a, b);
    SumOverSet(l, m + [a] + [b], n, g);
    SumOverSnoc(m + [a], b, n, g);
    SumOverSnoc(m, a, n, g);
  }

  // ---- two codes of greatest length ----

  /** Lengths below top count double in units half as large. */
  lemma Halve(l: seq<nat>, n: nat, d: nat -> nat, top: nat)
    requires top >= 1 && forall x :: x in l ==> d(x) < top
    ensures SumOver(l, n, Share(d, top)) == 2 * SumOver(l, n, Share(d, top - 1))
  {
    SumOverTwice(l, n, Share(d, top), Share(d, top - 1));
  }

  lemma TwoShares(l: seq<nat>, n: nat, d: nat -> nat, top: nat, x: nat, y: nat)
    requires Distinct(l) && Lengths(l, n, d, top) && x in l && y in l && x != y && d(x) == d(y) == top
    ensures top >= 1
  {
    SumOverKeep(l, x, y, n, Share(d, top));
    SumOverPositive(Keep(l, x, y), n, Share(d, top));
    hide Share, Lengths, SumOver;
  }

  /** A longest code without a partner can be shortened. */
  lemma Shorten(l: seq<nat>, n: nat, freq: seq<nat>, deep: seq<nat>, d: nat -> nat, top: nat, x: nat, max: nat) returns (e: nat -> nat)
    requires Distinct(l) && Lengths(l, n, d, top) && x in l && d(x) == top >= 1 && forall y :: y in l && y != x ==> d(y) != top
    ensures Lengths(l, n, e, top - 1) && Path(l, n, freq, e) <= Path(l, n, freq, d)
    ensures Within(l, d, deep, max) ==> Within(l, e, deep, max)
  {
    hide SumOver, Distinct, FreqOf, Share, Term, Pow2, HeightOf;
    Doubled(top);
    e := Updated(d, x, top - 1);
    UpdatedShares(l, n, d, top, x);
    Halve(l, n, e, top);
    UpdatedTerms(l, n, freq, d, x, top - 1);
    Smaller(FreqOf(freq, x), top);
  }

  lemma Doubled(n: nat)
    requires n >= 1
    ensures Pow2(n) == 2 * Pow2(n - 1)
  {
  }

  lemma Units()
    ensures Pow2(0) == 1 && Pow2(1) == 2
  {
  }

  ghost function Updated(d: nat -> nat, x: nat, v: nat): nat -> nat {
    (y: nat) => if y == x then v else d(y)
  }

  lemma UpdatedShares(l: seq<nat>, n: nat, d: nat -> nat, top: nat, x: nat)
    requires Distinct(l) && x in l && x < n && d(x) == top >= 1
    ensures SumOver(l, n, Share(Updated(d, x, top - 1), top)) == SumOver(l, n, Share(d, top)) + 1
  {
    hide SumOver, Distinct, Share;
    var e := Updated(d, x, top - 1);
    forall y: nat | y != x ensures Share(d, top)(y) == Share(e, top)(y) {
      SameShare(d, e, top, y);
    }
    LongShare(d, top, x);
    LongShare(e, top, x);
    SumOverChange(l, n, Share(d, top), Share(e, top), x);
  }

  lemma SameShare(d: nat -> nat, e: nat -> nat, top: nat, x: nat)
    requires d(x) == e(x)
    ensures Share(d, top)(x) == Share(e, top)(x)
  {
  }

  lemma LongShare(d: nat -> nat, top: nat, x: nat)
    ensures d(x) == top ==> Share(d, top)(x) == 1
    ensures d(x) + 1 == top ==> Share(d, top)(x) == 2
  {
    hide Pow2;
    Units();
  }

  lemma UpdatedTerms(l: seq<nat>, n: nat, freq: seq<nat>, d: nat -> nat, x: nat, v: nat)
    requires Distinct(l) && x in l && x < n
    ensures Path(l, n, freq, Updated(d, x, v)) == Path(l, n, freq, d) - FreqOf(freq, x) * d(x) + FreqOf(freq, x) * v
  {
    hide SumOver, Distinct, FreqOf;
    SumOverChange(l, n, Term(freq, d), Term(freq, Updated(d, x, v)), x);
  }

  lemma Smaller(f: nat, top: nat)
    requires top >= 1
    ensures f * (top - 1) <= f * top
  {
  }

  /** Some code at most as long has two codes of greatest length. */
  lemma {:induction false} Deepest(l: seq<nat>, n: nat, freq: seq<nat>, deep: seq<nat>, d: nat -> nat, top: nat, most: nat)
    returns (e: nat -> nat, max: nat, x: nat, y: nat)
    requires Distinct(l) && |l| >= 2 && Lengths(l, n, d, top)
    ensures Lengths(l, n, e, max) && max >= 1 && x in l && y in l && x != y && e(x) == e(y) == max
    ensures Path(l, n, freq, e) <= Path(l, n, freq, d)
    ensures Within(l, d, deep, most) ==> Within(l, e, deep, most)
    decreases top
  {
    hide SumOver, Path, Distinct, Lengths, Within;
    Others(l, n, d, top);
    if u :| u in l && d(u) == top {
      if v :| v in l && v != u && d(v) == top {
        TwoShares(l, n, d, top, u, v);
        return d, top, u, v;
      }
      var d1 := Shorten(l, n, freq, deep, d, top, u, most);
      e, max, x, y := Deepest(l, n, freq, deep, d1, top - 1, most);
    } else {
      Halved(l, n, d, top);
      e, max, x, y := Deepest(l, n, freq, deep, d, top - 1, most);
    }
  }

  /** At length zero there are only others of length zero. */
  lemma Others(l: seq<nat>, n: nat, d: nat -> nat, top: nat)
    requires Distinct(l) && |l| >= 2 && Lengths(l, n, d, top)
    ensures forall x :: x in l ==> x < n && d(x) <= top
    ensures top == 0 ==> (exists x :: x in l && d(x) == 0) && forall x :: x in l ==> exists y :: y in l && y != x && d(y) == 0
  {
    assert l[0] in l && l[1] in l && l[0] != l[1];
  }

  lemma Halved(l: seq<nat>, n: nat, d: nat -> nat, top: nat)
    requires top >= 1 && Lengths(l, n, d, top) && forall x :: x in l ==> d(x) < top
    ensures Lengths(l, n, d, top - 1)
  {
    hide SumOver, Share;
    Halve(l, n, d, top);
  }

  // ---- the exchange ----

  ghost function Swapped(d: nat -> nat, a: nat, b: nat): nat -> nat {
    (x: nat) => if x == a then d(b) else if x == b then d(a) else d(x)
  }

  /** Giving the rarer symbol the longer code costs nothing, and saves something if both differ. */
  lemma SwapHelps(l: seq<nat>, n: nat, freq: seq<nat>, d: nat -> nat, top: nat, a: nat, b: nat)
    requires Distinct(l) && Lengths(l, n, d, top) && a in l && b in l
    requires FreqOf(freq, a) <= FreqOf(freq, b) && d(a) <= d(b)
    ensures Lengths(l, n, Swapped(d, a, b), top) && Path(l, n, freq, Swapped(d, a, b)) <= Path(l, n, freq, d)
    ensures FreqOf(freq, a) < FreqOf(freq, b) && d(a) < d(b) ==> Path(l, n, freq, Swapped(d, a, b)) < Path(l, n, freq, d)
  {
    hide SumOver, Distinct, FreqOf, Share;
    SwapShares(l, n, d, top, a, b);
    SwapTerms(l, n, freq, d, a, b);
    Rearranged(FreqOf(freq, a), FreqOf(freq, b), d(a), d(b));
    hide Path;
  }

  /** If it saves nothing, it makes nothing deeper either. */
  lemma SwapWithin(l: seq<nat>, n: nat, freq: seq<nat>, deep: seq<nat>, d: nat -> nat, top: nat, a: nat, b: nat, max: nat)
    requires Distinct(l) && Lengths(l, n, d, top) && a in l && b in l
    requires Sooner(freq, deep, a, b) && d(a) <= d(b) && Within(l, d, deep, max)
    requires Path(l, n, freq, Swapped(d, a, b)) == Path(l, n, freq, d)
    ensures Within(l, Swapped(d, a, b), deep, max)
  {
    hide Lengths, Distinct, FreqOf, HeightOf, Path;
    SwapHelps(l, n, freq, d, top, a, b);
  }

  lemma SwapShares(l: seq<nat>, n: nat, d: nat -> nat, top: nat, a: nat, b: nat)
    requires Distinct(l) && a in l && b in l && a < n && b < n
    ensures SumOver(l, n, Share(Swapped(d, a, b), top)) == SumOver(l, n, Share(d, top))
  {
    hide SumOver, Distinct, Pow2;
    var f, g := Share(d, top), Share(Swapped(d, a, b), top);
    if a == b { SumOverSame(l, n, f, g); } else { SumOverChangeTwo(l, n, f, g, a, b); }
  }

  lemma SwapTerms(l: seq<nat>, n: nat, freq: seq<nat>, d: nat -> nat, a: nat, b: nat)
    requires Distinct(l) && a in l && b in l && a < n && b < n
    ensures Path(l, n, freq, Swapped(d, a, b)) - FreqOf(freq, a) * d(b) - FreqOf(freq, b) * d(a)
         == Path(l, n, freq, d) - FreqOf(freq, a) * d(a) - FreqOf(freq, b) * d(b)
  {
    hide SumOver, Distinct, FreqOf;
    var f, g := Term(freq, d), Term(freq, Swapped(d, a, b));
    if a == b { SumOverSame(l, n, f, g); } else { SumOverChangeTwo(l, n, f, g, a, b); }
  }

  lemma Rearranged(f: nat, g: nat, p: nat, q: nat)
    requires f <= g && p <= q
    ensures f * q + g * p <= f * p + g * q
    ensures f < g && p < q ==> f * q + g * p < f * p + g * q
  {
    assert (g - f) * (q - p) >= 0;
    if f < g && p < q { assert (g - f) * (q - p) >= 1; }
  }

  /** The two rarest symbols can have the two longest codes. */
  lemma Exchange(l: seq<nat>, n: nat, freq: seq<nat>, deep: seq<nat>, d: nat -> nat, top: nat, x: nat, y: nat, a: nat, b: nat, max: nat)
    returns (e: nat -> nat)
    requires Distinct(l) && Lengths(l, n, d, top) && x in l && y in l && x != y && d(x) == d(y) == top
    requires Rarest(l, freq, deep, a, b)
    ensures Lengths(l, n, e, top) && e(a) == e(b) == top && Path(l, n, freq, e) <= Path(l, n, freq, d)
    ensures Path(l, n, freq, e) == Path(l, n, freq, d) && Within(l, d, deep, max) ==> Within(l, e, deep, max)
  {
    hide Share, SumOver, Distinct, FreqOf, Path, HeightOf, Within;
    SwapHelps(l, n, freq, d, top, a, x);
    var d1 := Swapped(d, a, x);
    var z := if y == a then x else y;
    SwapHelps(l, n, freq, d1, top, b, z);
    e := Swapped(d1, b, z);
    if Path(l, n, freq, e) == Path(l, n, freq, d) && Within(l, d, deep, max) {
      SwapWithin(l, n, freq, deep, d, top, a, x, max);
      SwapWithin(l, n, freq, deep, d1, top, b, z, max);
    }
  }

  /** a and b may leave the heap before all others. */
  ghost predicate Rarest(l: seq<nat>, freq: seq<nat>, deep: seq<nat>, a: nat, b: nat) {
    && a in l && b in l && a != b && (forall x :: x in l ==> Sooner(freq, deep, a, x))
    && (forall x :: x in l && x != a ==> Sooner(freq, deep, b, x))
  }

  /** Two brothers replaced by their father, one level up. */
  lemma MergedSum(l: seq<nat>, n: nat, f: nat -> int, g: nat -> int, a: nat, b: nat, father: nat)
    requires Distinct(l) && a in l && b in l && a != b && a < n && b < n && father < n && father !in l
    requires forall x: nat :: x != father ==> f(x) == g(x)
    ensures SumOver(Keep(l, a, b) + [father], n, g) == SumOver(l, n, f) - f(a) - f(b) + g(father)
  {
    hide SumOver, Distinct;
    var m := Keep(l, a, b);
    KeepIs(l, a, b);
    SumOverKeep(l, a, b, n, f);
    SumOverSnoc(m, father, n, g);
    SumOverSame(m, n, f, g);
  }

  /** Merging two brothers into their father saves his frequency. */
  lemma MergedPath(l: seq<nat>, n: nat, freq: seq<nat>, d: nat -> nat, a: nat, b: nat, father: nat, p: nat)
    requires Distinct(l) && a in l && b in l && a != b && a < n && b < n && father < n && father !in l
    requires d(a) == d(b) == p + 1 && FreqOf(freq, father) == FreqOf(freq, a) + FreqOf(freq, b)
    ensures Path(Keep(l, a, b) + [father], n, freq, Updated(d, father, p)) + FreqOf(freq, father) == Path(l, n, freq, d)
  {
    hide SumOver, Distinct, FreqOf, Keep;
    MergedSum(l, n, Term(freq, d), Term(freq, Updated(d, father, p)), a, b, father);
    Together(FreqOf(freq, a), FreqOf(freq, b), p);
  }

  lemma Together(f: nat, g: nat, p: nat)
    ensures (f + g) * p + (f + g) == f * (p + 1) + g * (p + 1)
  {
  }

  lemma MergedLengths(l: seq<nat>, n: nat, d: nat -> nat, top: nat, a: nat, b: nat, father: nat)
    requires Distinct(l) && Lengths(l, n, d, top) && a in l && b in l && a != b && father < n && father !in l
    requires d(a) == d(b) == top >= 1
    ensures Lengths(Keep(l, a, b) + [father], n, Updated(d, father, top - 1), top)
  {
    hide SumOver, Distinct, Keep, Pow2, Share;
    MergedShares(l, n, d, top, a, b, father);
    MergedBounds(l, d, top, a, b, father, n);
  }

  lemma MergedShares(l: seq<nat>, n: nat, d: nat -> nat, top: nat, a: nat, b: nat, father: nat)
    requires Distinct(l) && a in l && b in l && a != b && a < n && b < n && father < n && father !in l
    requires d(a) == d(b) == top >= 1
    ensures SumOver(Keep(l, a, b) + [father], n, Share(Updated(d, father, top - 1), top)) == SumOver(l, n, Share(d, top))
  {
    hide SumOver, Distinct, Keep, Pow2;
    Units();
    MergedSum(l, n, Share(d, top), Share(Updated(d, father, top - 1), top), a, b, father);
  }

  lemma MergedBounds(l: seq<nat>, d: nat -> nat, top: nat, a: nat, b: nat, father: nat, n: nat)
    requires Distinct(l) && top >= 1 && father < n && forall x :: x in l ==> x < n && d(x) <= top
    ensures forall x :: x in Keep(l, a, b) + [father] ==> x < n && Updated(d, father, top - 1)(x) <= top
  {
    hide Distinct, Keep;
    KeepIs(l, a, b);
  }

  /** Any code for some nodes gives one for the same nodes with the two rarest merged. */
  lemma MergeBound(l: seq<nat>, n: nat, freq: seq<nat>, deep: seq<nat>, d: nat -> nat, top: nat, a: nat, b: nat, father: nat, most: nat)
    returns (e: nat -> nat, max: nat)
    requires Distinct(l) && Lengths(l, n, d, top) && Rarest(l, freq, deep, a, b) && father < n && father !in l
    requires FreqOf(freq, father) == FreqOf(freq, a) + FreqOf(freq, b)
    requires HeightOf(deep, father) == Higher(HeightOf(deep, a), HeightOf(deep, b)) + 1
    ensures Lengths(Keep(l, a, b) + [father], n, e, max)
    ensures Path(Keep(l, a, b) + [father], n, freq, e) + FreqOf(freq, father) <= Path(l, n, freq, d)
    ensures Path(Keep(l, a, b) + [father], n, freq, e) + FreqOf(freq, father) == Path(l, n, freq, d) && Within(l, d, deep, most)
      ==> Within(Keep(l, a, b) + [father], e, deep, most)
  {
    hide *;
    TwoMembers(l, n, d, top, freq, deep, a, b);
    var d1, x, y;
    d1, max, x, y := Deepest(l, n, freq, deep, d, top, most);
    var d2 := Exchange(l, n, freq, deep, d1, max, x, y, a, b, most);
    MergedPath(l, n, freq, d2, a, b, father, max - 1);
    MergedLengths(l, n, d2, max, a, b, father);
    e := Updated(d2, father, max - 1);
    if Within(l, d2, deep, most) { MergedWithin(l, d2, deep, a, b, father, max, most); }
  }

  function Higher(a: nat, b: nat): nat {
    if a >= b then a else b
  }

  lemma MergedWithin(l: seq<nat>, d: nat -> nat, deep: seq<nat>, a: nat, b: nat, father: nat, max: nat, most: nat)
    requires Distinct(l) && a in l && b in l && d(a) == d(b) == max >= 1 && Within(l, d, deep, most)
    requires HeightOf(deep, father) == Higher(HeightOf(deep, a), HeightOf(deep, b)) + 1
    ensures Within(Keep(l, a, b) + [father], Updated(d, father, max - 1), deep, most)
  {
    hide Distinct, Keep, HeightOf;
    KeepIs(l, a, b);
  }

  lemma TwoMembers(l: seq<nat>, n: nat, d: nat -> nat, top: nat, freq: seq<nat>, deep: seq<nat>, a: nat, b: nat)
    requires Lengths(l, n, d, top) && Rarest(l, freq, deep, a, b)
    ensures |l| >= 2 && a in l && b in l && a != b && a < n && b < n
  {
    hide SumOver, Sooner;
  }

  // ---- the run of build_tree ----

  /** Step k merged the nodes that left the heap at 2k and 2k + 1 into node elems + k. */
  ghost predicate MergedAt(order: seq<nat>, dad: seq<nat>, freq: seq<nat>, elems: nat, k: nat) {
    && 2 * k + 1 < |order| && order[2 * k] < elems + k && order[2 * k + 1] < elems + k
    && elems + k <= |dad| && dad[order[2 * k]] == dad[order[2 * k + 1]] == elems + k
    && FreqOf(freq, elems + k) == FreqOf(freq, order[2 * k]) + FreqOf(freq, order[2 * k + 1])
  }

  ghost predicate Merged(order: seq<nat>, dad: seq<nat>, freq: seq<nat>, elems: nat, node: nat) {
    elems <= node && |order| == 2 * (node - elems) && forall k: nat :: k < node - elems ==> MergedAt(order, dad, freq, elems, k)
  }

  lemma MergedNone(dad: seq<nat>, freq: seq<nat>, elems: nat)
    ensures Merged([], dad, freq, elems, elems)
  {
  }

  /** One more step. */
  lemma MergedNext(order: seq<nat>, dad: seq<nat>, freq: seq<nat>, elems: nat, node: nat, a: nat, b: nat, f: nat)
    requires Merged(order, dad, freq, elems, node) && a < node && b < node && node < |freq| && node <= |dad|
    requires a !in order && b !in order && a != b && a < |dad| && b < |dad|
    requires f == FreqOf(freq, a) + FreqOf(freq, b)
    ensures Merged(order + [a] + [b], dad[a := node][b := node], freq[node := f], elems, node + 1)
  {
    var order', dad', freq' := order + [a] + [b], dad[a := node][b := node], freq[node := f];
    hide MergedAt;
    forall k: nat | k < node + 1 - elems
      ensures MergedAt(order', dad', freq', elems, k)
    {
      if k < node - elems {
        MergedStays(order, dad, freq, elems, node, k, a, b, f);
      } else {
        MergedHere(order, dad, freq, elems, node, a, b, f);
      }
    }
  }

  lemma MergedStays(order: seq<nat>, dad: seq<nat>, freq: seq<nat>, elems: nat, node: nat, k: nat, a: nat, b: nat, f: nat)
    requires MergedAt(order, dad, freq, elems, k) && elems + k < node < |freq| && a !in order && b !in order && a < |dad| && b < |dad|
    ensures MergedAt(order + [a] + [b], dad[a := node][b := node], freq[node := f], elems, k)
  {
    assert order[2 * k] in order && order[2 * k + 1] in order;
  }

  lemma MergedHere(order: seq<nat>, dad: seq<nat>, freq: seq<nat>, elems: nat, node: nat, a: nat, b: nat, f: nat)
    requires elems <= node < |freq| && node <= |dad| && |order| == 2 * (node - elems) && a < node && b < node && a != b
    requires a < |dad| && b < |dad| && f == FreqOf(freq, a) + FreqOf(freq, b)
    ensures MergedAt(order + [a] + [b], dad[a := node][b := node], freq[node := f], elems, node - elems)
  {
  }

  /** The nodes in the heap after k steps. */
  ghost function Live(leaves: seq<nat>, order: seq<nat>, elems: nat, k: nat): seq<nat>
    requires 2 * k <= |order|
  {
    if k == 0 then leaves
    else Keep(Live(leaves, order, elems, k - 1), order[2 * k - 2], order[2 * k - 1]) + [elems + k - 1]
  }

  /** Step k's node is one higher than the higher of its sons. */
  ghost predicate HigherAt(order: seq<nat>, deep: seq<nat>, elems: nat, k: nat) {
    && 2 * k + 1 < |order| && elems + k < |deep|
    && deep[elems + k] == Higher(HeightOf(deep, order[2 * k]), HeightOf(deep, order[2 * k + 1])) + 1
  }

  /** The heights of the nodes made so far, and the frequencies they take: they double every other level. */
  ghost predicate Heights(order: seq<nat>, freq: seq<nat>, deep: seq<nat>, leaves: seq<nat>, elems: nat, node: nat) {
    && elems <= node && (forall x :: x in leaves ==> HeightOf(deep, x) == 0)
    && (forall k: nat :: k < node - elems ==> HigherAt(order, deep, elems, k))
    && forall x: nat :: x in leaves || elems <= x < node ==> FreqOf(freq, x) >= Pow2(HeightOf(deep, x) / 2)
  }

  /** What all of build_tree's steps leave. */
  ghost predicate Built(root: nat, order: seq<nat>, dad: seq<nat>, freq: seq<nat>, deep: seq<nat>, leaves: seq<nat>, elems: nat, node: nat) {
    && Forest([root], order, dad, freq, leaves, elems, node) && InOrder([root], order, freq, deep)
    && Merged(order, dad, freq, elems, node) && Heights(order, freq, deep, leaves, elems, node) && Distinct(leaves)
  }

  lemma {:induction false} LiveIs(root: nat, order: seq<nat>, dad: seq<nat>, freq: seq<nat>, deep: seq<nat>, leaves: seq<nat>, elems: nat, node: nat, k: nat)
    requires Built(root, order, dad, freq, deep, leaves, elems, node) && k <= node - elems
    ensures var l := Live(leaves, order, elems, k);
      Distinct(l) && forall x: nat :: x in l <==> (x in leaves || elems <= x < elems + k) && x !in order[..2 * k]
  {
    hide Forest, InOrder, MergedAt, Keep, Distinct;
    if k > 0 {
      LiveIs(root, order, dad, freq, deep, leaves, elems, node, k - 1);
      var l, a, b := Live(leaves, order, elems, k - 1), order[2 * k - 2], order[2 * k - 1];
      KeepIs(l, a, b);
      assert order[..2 * k] == order[..2 * k - 2] + [a] + [b];
      NotYet(root, order, dad, freq, deep, leaves, elems, node, k - 1);
      DistinctSnoc(Keep(l, a, b), elems + k - 1);
      OneMore(l, Live(leaves, order, elems, k), leaves, order, elems, k, a, b);
    }
  }

  lemma DistinctSnoc(l: seq<nat>, x: nat)
    requires Distinct(l) && x !in l
    ensures Distinct(l + [x])
  {
  }

  lemma OneMore(l: seq<nat>, m: seq<nat>, leaves: seq<nat>, order: seq<nat>, elems: nat, k: nat, a: nat, b: nat)
    requires k >= 1 && 2 * k <= |order| && order[..2 * k] == order[..2 * k - 2] + [a] + [b]
    requires forall x: nat :: x in l <==> (x in leaves || elems <= x < elems + k - 1) && x !in order[..2 * k - 2]
    requires elems + k - 1 !in order[..2 * k] && elems + k - 1 !in leaves
    requires forall x: nat :: x in m <==> (x in l && x != a && x != b) || x == elems + k - 1
    ensures forall x: nat :: x in m <==> (x in leaves || elems <= x < elems + k) && x !in order[..2 * k]
  {
  }

  /** A father has not left the heap before he was made. */
  lemma NotYet(root: nat, order: seq<nat>, dad: seq<nat>, freq: seq<nat>, deep: seq<nat>, leaves: seq<nat>, elems: nat, node: nat, k: nat)
    requires Built(root, order, dad, freq, deep, leaves, elems, node) && k < node - elems
    ensures elems + k !in order[..2 * k + 2] && elems + k !in leaves
  {
    hide InOrder, Distinct, MergedAt;
    LeavesBelow(root, order, dad, freq, deep, leaves, elems, node, elems + k);
    hide Forest;
    forall i | 0 <= i < 2 * k + 2
      ensures order[i] < elems + k
    {
      LeftAt(order, dad, freq, elems, i / 2, i);
    }
  }

  lemma LeftAt(order: seq<nat>, dad: seq<nat>, freq: seq<nat>, elems: nat, k: nat, i: nat)
    requires MergedAt(order, dad, freq, elems, k) && (i == 2 * k || i == 2 * k + 1)
    ensures i < |order| && order[i] < elems + k && order[i] < |dad| && dad[order[i]] == elems + k
  {
  }

  lemma LeavesBelow(root: nat, order: seq<nat>, dad: seq<nat>, freq: seq<nat>, deep: seq<nat>, leaves: seq<nat>, elems: nat, node: nat, x: nat)
    requires Forest([root], order, dad, freq, leaves, elems, node) && x >= elems
    ensures x !in leaves
  {
  }

  /** The next two nodes to leave the heap are in it, and are the rarest. */
  lemma NextRarest(root: nat, order: seq<nat>, dad: seq<nat>, freq: seq<nat>, deep: seq<nat>, leaves: seq<nat>, elems: nat, node: nat, k: nat)
    requires Built(root, order, dad, freq, deep, leaves, elems, node) && k < node - elems
    ensures var l := Live(leaves, order, elems, k);
      Distinct(l) && Rarest(l, freq, deep, order[2 * k], order[2 * k + 1]) && elems + k !in l && (forall x :: x in l ==> x < node)
      && MergedAt(order, dad, freq, elems, k) && HigherAt(order, deep, elems, k)
  {
    hide Live, Forest, InOrder, Distinct, FreqOf, HeightOf, HigherAt, Sooner;
    LiveIs(root, order, dad, freq, deep, leaves, elems, node, k);
    NotYet(root, order, dad, freq, deep, leaves, elems, node, k);
    var l, a, b := Live(leaves, order, elems, k), order[2 * k], order[2 * k + 1];
    InHeap(root, order, dad, freq, deep, leaves, elems, node, k, a, b);
    forall x | x in l
      ensures x < node && Sooner(freq, deep, a, x) && (x != a ==> Sooner(freq, deep, b, x))
    {
      LeavesLater(root, order, dad, freq, deep, leaves, elems, node, k, x);
    }
    assert elems + k !in l by { assert order[..2 * k + 2][..2 * k] == order[..2 * k]; }
  }

  lemma InHeap(root: nat, order: seq<nat>, dad: seq<nat>, freq: seq<nat>, deep: seq<nat>, leaves: seq<nat>, elems: nat, node: nat, k: nat, a: nat, b: nat)
    requires Built(root, order, dad, freq, deep, leaves, elems, node) && k < node - elems && a == order[2 * k] && b == order[2 * k + 1]
    ensures (a in leaves || elems <= a < elems + k) && (b in leaves || elems <= b < elems + k)
    ensures a != b && a !in order[..2 * k] && b !in order[..2 * k]
  {
    hide InOrder, FreqOf;
    assert MergedAt(order, dad, freq, elems, k);
    assert a in order && b in order;
  }

  lemma LeavesLater(root: nat, order: seq<nat>, dad: seq<nat>, freq: seq<nat>, deep: seq<nat>, leaves: seq<nat>, elems: nat, node: nat, k: nat, x: nat)
    requires Built(root, order, dad, freq, deep, leaves, elems, node) && k < node - elems
    requires (x in leaves || elems <= x < node) && x !in order[..2 * k]
    ensures |order| >= 2 * k + 2 && x < node
    ensures Sooner(freq, deep, order[2 * k], x) && (x != order[2 * k] ==> Sooner(freq, deep, order[2 * k + 1], x))
  {
    hide Merged, FreqOf, Distinct, Heights, Sons, FatherLater, HeightOf;
    MergedSize(order, dad, freq, elems, node);
    assert x in [root] || x in order;
    if x in order {
      var i :| 0 <= i < |order| && order[i] == x;
      InPrefix(order, 2 * k, i);
    }
    Same(freq, deep, x);
    hide Forest, Sooner;
  }

  lemma Same(freq: seq<nat>, deep: seq<nat>, x: nat)
    ensures Sooner(freq, deep, x, x)
  {
  }

  lemma InPrefix(order: seq<nat>, n: nat, i: nat)
    requires i < |order| && n <= |order|
    ensures i < n ==> order[i] in order[..n]
  {
    if i < n { assert order[..n][i] == order[i]; }
  }

  lemma LiveNext(leaves: seq<nat>, order: seq<nat>, elems: nat, k: nat)
    requires 2 * k + 1 < |order|
    ensures Live(leaves, order, elems, k + 1) == Keep(Live(leaves, order, elems, k), order[2 * k], order[2 * k + 1]) + [elems + k]
  {
  }

  lemma MergedSize(order: seq<nat>, dad: seq<nat>, freq: seq<nat>, elems: nat, node: nat)
    requires Merged(order, dad, freq, elems, node)
    ensures |order| == 2 * (node - elems) && elems <= node
  {
  }

  /** The frequencies of the inner nodes from step k on. */
  ghost function Rest(freq: seq<nat>, elems: nat, node: nat, k: nat): nat
    decreases node - elems - k
  {
    if elems + k >= node then 0 else FreqOf(freq, elems + k) + Rest(freq, elems, node, k + 1)
  }

  /** One step: a code for the nodes in the heap gives one for the nodes after it. */
  lemma StepBound(root: nat, order: seq<nat>, dad: seq<nat>, freq: seq<nat>, deep: seq<nat>, leaves: seq<nat>, elems: nat, node: nat,
                  k: nat, d: nat -> nat, top: nat, most: nat) returns (e: nat -> nat, max: nat)
    requires Built(root, order, dad, freq, deep, leaves, elems, node) && k < node - elems && 2 * k + 2 <= |order|
    requires Lengths(Live(leaves, order, elems, k), node, d, top)
    ensures Lengths(Live(leaves, order, elems, k + 1), node, e, max)
    ensures Path(Live(leaves, order, elems, k + 1), node, freq, e) + FreqOf(freq, elems + k)
         <= Path(Live(leaves, order, elems, k), node, freq, d)
    ensures Path(Live(leaves, order, elems, k + 1), node, freq, e) + FreqOf(freq, elems + k)
         == Path(Live(leaves, order, elems, k), node, freq, d) && Within(Live(leaves, order, elems, k), d, deep, most)
         ==> Within(Live(leaves, order, elems, k + 1), e, deep, most)
  {
    hide *;
    NextRarest(root, order, dad, freq, deep, leaves, elems, node, k);
    MergeFreq(order, dad, freq, elems, k);
    MergeHeight(order, deep, elems, k);
    LiveNext(leaves, order, elems, k);
    e, max := MergeBound(Live(leaves, order, elems, k), node, freq, deep, d, top, order[2 * k], order[2 * k + 1], elems + k, most);
  }

  lemma MergeHeight(order: seq<nat>, deep: seq<nat>, elems: nat, k: nat)
    requires HigherAt(order, deep, elems, k)
    ensures |order| >= 2 * k + 2
    ensures HeightOf(deep, elems + k) == Higher(HeightOf(deep, order[2 * k]), HeightOf(deep, order[2 * k + 1])) + 1
  {
  }

  /** No code is shorter than what the remaining steps add up to. */
  lemma {:induction false} NoShorter(root: nat, order: seq<nat>, dad: seq<nat>, freq: seq<nat>, deep: seq<nat>, leaves: seq<nat>, elems: nat, node: nat,
                                     k: nat, d: nat -> nat, top: nat)
    requires Built(root, order, dad, freq, deep, leaves, elems, node) && k <= node - elems
    requires Lengths(Live(leaves, order, elems, k), node, d, top)
    ensures Rest(freq, elems, node, k) <= Path(Live(leaves, order, elems, k), node, freq, d)
    decreases node - elems - k
  {
    hide *;
    BuiltSize(root, order, dad, freq, deep, leaves, elems, node);
    var l := Live(leaves, order, elems, k);
    if elems + k == node {
      RestNone(freq, elems, node, k);
      PathPositive(l, node, freq, d);
    } else {
      RestNext(freq, elems, node, k);
      var e, max := StepBound(root, order, dad, freq, deep, leaves, elems, node, k, d, top, 0);
      NoShorter(root, order, dad, freq, deep, leaves, elems, node, k + 1, e, max);
    }
  }

  lemma BuiltSize(root: nat, order: seq<nat>, dad: seq<nat>, freq: seq<nat>, deep: seq<nat>, leaves: seq<nat>, elems: nat, node: nat)
    requires Built(root, order, dad, freq, deep, leaves, elems, node)
    ensures elems <= node && |order| == 2 * (node - elems)
  {
    hide Forest, InOrder, MergedAt;
  }

  lemma RestNone(freq: seq<nat>, elems: nat, node: nat, k: nat)
    requires elems + k >= node
    ensures Rest(freq, elems, node, k) == 0
  {
  }

  lemma RestNext(freq: seq<nat>, elems: nat, node: nat, k: nat)
    requires elems + k < node
    ensures Rest(freq, elems, node, k) == FreqOf(freq, elems + k) + Rest(freq, elems, node, k + 1)
  {
  }

  lemma MergeFreq(order: seq<nat>, dad: seq<nat>, freq: seq<nat>, elems: nat, k: nat)
    requires MergedAt(order, dad, freq, elems, k)
    ensures FreqOf(freq, elems + k) == FreqOf(freq, order[2 * k]) + FreqOf(freq, order[2 * k + 1])
  {
    hide FreqOf;
  }

  lemma PathPositive(l: seq<nat>, n: nat, freq: seq<nat>, d: nat -> nat)
    ensures Path(l, n, freq, d) >= 0
  {
    hide SumOver;
    SumOverPositive(l, n, Term(freq, d));
  }

  /** Depths in the tree: the root at zero, sons one below their fathers. */
  ghost predicate Depths(root: nat, order: seq<nat>, dad: seq<nat>, dep: nat -> nat) {
    dep(root) == 0 && forall i :: 0 <= i < |order| ==> order[i] < |dad| && dep(order[i]) == dep(dad[order[i]]) + 1
  }

  /** The tree's own path length is what the steps add up to. */
  lemma {:induction false} TreePath(root: nat, order: seq<nat>, dad: seq<nat>, freq: seq<nat>, deep: seq<nat>, leaves: seq<nat>, elems: nat, node: nat,
                                    k: nat, dep: nat -> nat)
    requires Built(root, order, dad, freq, deep, leaves, elems, node) && k <= node - elems && Depths(root, order, dad, dep)
    ensures Path(Live(leaves, order, elems, k), node, freq, dep) == Rest(freq, elems, node, k)
    decreases node - elems - k
  {
    hide *;
    BuiltSize(root, order, dad, freq, deep, leaves, elems, node);
    var l := Live(leaves, order, elems, k);
    if elems + k == node {
      RestNone(freq, elems, node, k);
      RootDepth(root, order, dad, dep);
      OnlyRoot(root, order, dad, freq, deep, leaves, elems, node, dep);
    } else {
      NextRarest(root, order, dad, freq, deep, leaves, elems, node, k);
      MergeFreq(order, dad, freq, elems, k);
      LiveNext(leaves, order, elems, k);
      RestNext(freq, elems, node, k);
      SonDepths(root, order, dad, freq, elems, k, dep);
      RarestIn(l, freq, deep, order[2 * k], order[2 * k + 1]);
      MergedPath(l, node, freq, dep, order[2 * k], order[2 * k + 1], elems + k, dep(elems + k));
      SamePath(Live(leaves, order, elems, k + 1), node, freq, dep, elems + k);
      TreePath(root, order, dad, freq, deep, leaves, elems, node, k + 1, dep);
    }
  }

  lemma RootDepth(root: nat, order: seq<nat>, dad: seq<nat>, dep: nat -> nat)
    requires Depths(root, order, dad, dep)
    ensures dep(root) == 0
  {
  }

  lemma SonDepths(root: nat, order: seq<nat>, dad: seq<nat>, freq: seq<nat>, elems: nat, k: nat, dep: nat -> nat)
    requires Depths(root, order, dad, dep) && MergedAt(order, dad, freq, elems, k)
    ensures dep(order[2 * k]) == dep(order[2 * k + 1]) == dep(elems + k) + 1
  {
    hide FreqOf;
  }

  lemma RarestIn(l: seq<nat>, freq: seq<nat>, deep: seq<nat>, a: nat, b: nat)
    requires Rarest(l, freq, deep, a, b)
    ensures a in l && b in l && a != b
  {
  }

  lemma SamePath(l: seq<nat>, n: nat, freq: seq<nat>, d: nat -> nat, x: nat)
    ensures Path(l, n, freq, Updated(d, x, d(x))) == Path(l, n, freq, d)
  {
    hide SumOver, FreqOf;
    SumOverSame(l, n, Term(freq, Updated(d, x, d(x))), Term(freq, d));
  }

  lemma OnlyRoot(root: nat, order: seq<nat>, dad: seq<nat>, freq: seq<nat>, deep: seq<nat>, leaves: seq<nat>, elems: nat, node: nat, dep: nat -> nat)
    requires Built(root, order, dad, freq, deep, leaves, elems, node) && dep(root) == 0
    ensures Path(Live(leaves, order, elems, node - elems), node, freq, dep) == 0
  {
    hide SumOver, InOrder, FreqOf, Live, MergedAt, Sons, FatherLater, Heights;
    var l := Live(leaves, order, elems, node - elems);
    LiveIs(root, order, dad, freq, deep, leaves, elems, node, node - elems);
    assert order[..2 * (node - elems)] == order;
    LastLive(root, order, dad, freq, leaves, elems, node, l);
    SumOverSet(l, [root], node, Term(freq, dep));
    SumOverSnoc([], root, node, Term(freq, dep));
    assert [] + [root] == [root];
    NoSum(node, Term(freq, dep));
  }

  lemma NoSum(n: nat, g: nat -> int)
    ensures SumOver([], n, g) == 0
  {
  }

  lemma LastLive(root: nat, order: seq<nat>, dad: seq<nat>, freq: seq<nat>, leaves: seq<nat>, elems: nat, node: nat, l: seq<nat>)
    requires Forest([root], order, dad, freq, leaves, elems, node)
    requires forall x: nat :: x in l <==> (x in leaves || elems <= x < node) && x !in order
    ensures forall x :: x in l <==> x in [root]
  {
  }

  /** How many fathers a node has. */
  ghost function DepthAt(root: nat, dad: seq<nat>, node: nat, x: nat): nat
    decreases node - x
  {
    if x == root || x >= |dad| || !(x < dad[x] < node) then 0 else DepthAt(root, dad, node, dad[x]) + 1
  }

  ghost function DepthIs(root: nat, dad: seq<nat>, node: nat): nat -> nat {
    (x: nat) => DepthAt(root, dad, node, x)
  }

  lemma DepthsAre(root: nat, order: seq<nat>, dad: seq<nat>, freq: seq<nat>, deep: seq<nat>, leaves: seq<nat>, elems: nat, node: nat)
    requires Built(root, order, dad, freq, deep, leaves, elems, node)
    ensures Depths(root, order, dad, DepthIs(root, dad, node))
  {
    hide InOrder, MergedAt, Forest;
    forall i | 0 <= i < |order|
      ensures order[i] < |dad| && DepthAt(root, dad, node, order[i]) == DepthAt(root, dad, node, dad[order[i]]) + 1
    {
      FatherAbove(root, order, dad, freq, deep, leaves, elems, node, i);
    }
  }

  lemma FatherAbove(root: nat, order: seq<nat>, dad: seq<nat>, freq: seq<nat>, deep: seq<nat>, leaves: seq<nat>, elems: nat, node: nat, i: nat)
    requires Built(root, order, dad, freq, deep, leaves, elems, node) && i < |order|
    ensures order[i] != root && order[i] < |dad| && order[i] < dad[order[i]] < node
  {
    hide Forest, InOrder, Heights, Distinct, MergedAt;
    NotRoot(root, order, dad, freq, leaves, elems, node, i);
    LeftAt(order, dad, freq, elems, i / 2, i);
  }

  lemma NotRoot(root: nat, order: seq<nat>, dad: seq<nat>, freq: seq<nat>, leaves: seq<nat>, elems: nat, node: nat, i: nat)
    requires Forest([root], order, dad, freq, leaves, elems, node) && i < |order|
    ensures order[i] != root
  {
    hide FatherLater, Sons, Distinct;
    assert order[i] in order && root in [root];
  }

  /** Before limiting, the weighted path length is minimal among all prefix codes. */
  lemma MinimalPath(root: nat, order: seq<nat>, dad: seq<nat>, freq: seq<nat>, deep: seq<nat>, leaves: seq<nat>, elems: nat, node: nat,
                    d: nat -> nat, top: nat)
    requires Built(root, order, dad, freq, deep, leaves, elems, node) && Lengths(leaves, node, d, top)
    ensures Path(leaves, node, freq, DepthIs(root, dad, node)) <= Path(leaves, node, freq, d)
  {
    hide *;
    var dep := DepthIs(root, dad, node);
    BuiltSize(root, order, dad, freq, deep, leaves, elems, node);
    DepthsAre(root, order, dad, freq, deep, leaves, elems, node);
    LiveNone(leaves, order, elems);
    TreePath(root, order, dad, freq, deep, leaves, elems, node, 0, dep);
    NoShorter(root, order, dad, freq, deep, leaves, elems, node, 0, d, top);
  }

  lemma LiveNone(leaves: seq<nat>, order: seq<nat>, elems: nat)
    ensures Live(leaves, order, elems, 0) == leaves
  {
  }

  // ---- the tree is the least deep of the optimal ones ----

  lemma {:induction false} NotHigher(root: nat, order: seq<nat>, dad: seq<nat>, freq: seq<nat>, deep: seq<nat>, leaves: seq<nat>, elems: nat, node: nat,
                                     k: nat, d: nat -> nat, top: nat, most: nat)
    requires Built(root, order, dad, freq, deep, leaves, elems, node) && k <= node - elems
    requires Lengths(Live(leaves, order, elems, k), node, d, top)
    requires Path(Live(leaves, order, elems, k), node, freq, d) == Rest(freq, elems, node, k)
    requires Within(Live(leaves, order, elems, k), d, deep, most)
    ensures HeightOf(deep, root) <= most
    decreases node - elems - k
  {
    hide *;
    BuiltSize(root, order, dad, freq, deep, leaves, elems, node);
    if elems + k == node {
      RootLive(root, order, dad, freq, deep, leaves, elems, node);
      InWithin(Live(leaves, order, elems, k), d, deep, most, root);
    } else {
      RestNext(freq, elems, node, k);
      var e, max := StepBound(root, order, dad, freq, deep, leaves, elems, node, k, d, top, most);
      NoShorter(root, order, dad, freq, deep, leaves, elems, node, k + 1, e, max);
      NotHigher(root, order, dad, freq, deep, leaves, elems, node, k + 1, e, max, most);
    }
  }

  lemma InWithin(l: seq<nat>, d: nat -> nat, deep: seq<nat>, most: nat, x: nat)
    requires Within(l, d, deep, most) && x in l
    ensures HeightOf(deep, x) <= most
  {
    hide HeightOf;
  }

  lemma RootLive(root: nat, order: seq<nat>, dad: seq<nat>, freq: seq<nat>, deep: seq<nat>, leaves: seq<nat>, elems: nat, node: nat)
    requires Built(root, order, dad, freq, deep, leaves, elems, node) && |order| == 2 * (node - elems)
    ensures root in Live(leaves, order, elems, node - elems)
  {
    hide InOrder, Live, Merged, Sons, FatherLater, Heights;
    var l := Live(leaves, order, elems, node - elems);
    LiveIs(root, order, dad, freq, deep, leaves, elems, node, node - elems);
    assert order[..2 * (node - elems)] == order;
    LastLive(root, order, dad, freq, leaves, elems, node, l);
    assert root in [root];
  }

  /** A node's depth and its height together are within the height of the root. */
  lemma {:induction false} DepthsFit(root: nat, order: seq<nat>, dad: seq<nat>, freq: seq<nat>, deep: seq<nat>, leaves: seq<nat>, elems: nat, node: nat,
                                     x: nat)
    requires Built(root, order, dad, freq, deep, leaves, elems, node) && (x == root || x in order)
    ensures DepthAt(root, dad, node, x) + HeightOf(deep, x) <= HeightOf(deep, root)
    decreases node - x
  {
    hide *;
    RootDepthZero(root, dad, node);
    if x != root {
      var i :| 0 <= i < |order| && order[i] == x;
      FatherAbove(root, order, dad, freq, deep, leaves, elems, node, i);
      FatherHigher(root, order, dad, freq, deep, leaves, elems, node, i);
      DepthsFit(root, order, dad, freq, deep, leaves, elems, node, dad[x]);
      DepthNext(root, dad, node, x);
    }
  }

  lemma RootDepthZero(root: nat, dad: seq<nat>, node: nat)
    ensures DepthAt(root, dad, node, root) == 0
  {
  }

  lemma DepthNext(root: nat, dad: seq<nat>, node: nat, x: nat)
    requires x != root && x < |dad| && x < dad[x] < node
    ensures DepthAt(root, dad, node, x) == DepthAt(root, dad, node, dad[x]) + 1
  {
  }

  lemma FatherHigher(root: nat, order: seq<nat>, dad: seq<nat>, freq: seq<nat>, deep: seq<nat>, leaves: seq<nat>, elems: nat, node: nat, i: nat)
    requires Built(root, order, dad, freq, deep, leaves, elems, node) && i < |order|
    ensures order[i] < |dad| && (dad[order[i]] == root || dad[order[i]] in order)
    ensures HeightOf(deep, dad[order[i]]) > HeightOf(deep, order[i])
  {
    hide Forest, InOrder, Distinct, MergedAt, HigherAt, FreqOf, HeightOf;
    LeftAt(order, dad, freq, elems, i / 2, i);
    MergeHeight(order, deep, elems, i / 2);
    InnerPlaced(root, order, dad, freq, leaves, elems, node, elems + i / 2);
    assert i == 2 * (i / 2) || i == 2 * (i / 2) + 1;
  }

  lemma InnerPlaced(root: nat, order: seq<nat>, dad: seq<nat>, freq: seq<nat>, leaves: seq<nat>, elems: nat, node: nat, x: nat)
    requires Forest([root], order, dad, freq, leaves, elems, node) && elems <= x < node
    ensures x == root || x in order
  {
    hide FatherLater, Sons, Distinct;
    assert x in [root] || x in order;
  }

  /** Whatever code is as short as the tree needs a length as great as the tree is deep. */
  lemma LeastDepth(root: nat, order: seq<nat>, dad: seq<nat>, freq: seq<nat>, deep: seq<nat>, leaves: seq<nat>, elems: nat, node: nat,
                   d: nat -> nat, top: nat)
    requires Built(root, order, dad, freq, deep, leaves, elems, node) && Lengths(leaves, node, d, top)
    requires Path(leaves, node, freq, d) <= Path(leaves, node, freq, DepthIs(root, dad, node))
    ensures forall x: nat :: x == root || x in order ==> DepthAt(root, dad, node, x) <= top
  {
    hide *;
    var dep := DepthIs(root, dad, node);
    BuiltSize(root, order, dad, freq, deep, leaves, elems, node);
    DepthsAre(root, order, dad, freq, deep, leaves, elems, node);
    LiveNone(leaves, order, elems);
    TreePath(root, order, dad, freq, deep, leaves, elems, node, 0, dep);
    NoShorter(root, order, dad, freq, deep, leaves, elems, node, 0, d, top);
    LeavesWithin(order, freq, deep, leaves, elems, node, d, top) by { BuiltHeights(root, order, dad, freq, deep, leaves, elems, node); }
    NotHigher(root, order, dad, freq, deep, leaves, elems, node, 0, d, top, top);
    forall x: nat | x == root || x in order
      ensures DepthAt(root, dad, node, x) <= top
    {
      DepthsFit(root, order, dad, freq, deep, leaves, elems, node, x);
    }
  }

  lemma BuiltHeights(root: nat, order: seq<nat>, dad: seq<nat>, freq: seq<nat>, deep: seq<nat>, leaves: seq<nat>, elems: nat, node: nat)
    requires Built(root, order, dad, freq, deep, leaves, elems, node)
    ensures Heights(order, freq, deep, leaves, elems, node)
  {
    hide Heights, Forest, InOrder, Merged, Distinct;
  }

  lemma LeavesWithin(order: seq<nat>, freq: seq<nat>, deep: seq<nat>, leaves: seq<nat>, elems: nat, node: nat, d: nat -> nat, top: nat)
    requires Heights(order, freq, deep, leaves, elems, node) && Lengths(leaves, node, d, top)
    ensures Within(leaves, d, deep, top)
  {
    hide SumOver, HigherAt, Pow2, FreqOf, HeightOf;
  }

  /** In a code as short as the tree no rarer symbol has the shorter length. */
  lemma RarerLonger(root: nat, order: seq<nat>, dad: seq<nat>, freq: seq<nat>, deep: seq<nat>, leaves: seq<nat>, elems: nat, node: nat,
                    d: nat -> nat, top: nat, a: nat, b: nat)
    requires Built(root, order, dad, freq, deep, leaves, elems, node) && Lengths(leaves, node, d, top) && Distinct(leaves)
    requires Path(leaves, node, freq, d) <= Path(leaves, node, freq, DepthIs(root, dad, node))
    requires a in leaves && b in leaves && FreqOf(freq, a) < FreqOf(freq, b)
    ensures d(a) >= d(b)
  {
    hide *;
    if d(a) < d(b) {
      SwapHelps(leaves, node, freq, d, top, a, b);
      MinimalPath(root, order, dad, freq, deep, leaves, elems, node, Swapped(d, a, b), top);
    }
  }

  // ---- heights stay small ----

  /** The frequency doubles from a node to its grandfather, so heights are within twice the logarithm. */
  lemma Grows(live: seq<nat>, order: seq<nat>, dad: seq<nat>, freq: seq<nat>, deep: seq<nat>, leaves: seq<nat>, elems: nat, node: nat,
              c: nat, o: nat)
    requires Forest(live, order, dad, freq, leaves, elems, node) && InOrder(live, order, freq, deep)
    requires Merged(order, dad, freq, elems, node) && Heights(order, freq, deep, leaves, elems, node)
    requires c in live && o in live && HeightOf(deep, o) <= HeightOf(deep, c)
    ensures FreqOf(freq, c) + FreqOf(freq, o) >= Pow2((HeightOf(deep, c) + 1) / 2)
  {
    hide Sons, FatherLater, Distinct, MergedAt, HigherAt, Pow2, FreqOf, HeightOf, Sooner;
    var h := HeightOf(deep, c);
    Units();
    if h > 0 {
      var k := c - elems;
      HalfGrown(order, dad, freq, deep, leaves, elems, k) by { assert MergedAt(order, dad, freq, elems, k); }
      var s := HigherSon(order, deep, k);
      assert s in order;
      assert Sooner(freq, deep, s, o);
      Commoner(freq, deep, s, o);
      HalfUp(h);
    }
  }

  lemma HalfUp(h: nat)
    requires h > 0
    ensures Pow2((h + 1) / 2) == 2 * Pow2((h - 1) / 2)
  {
    assert (h + 1) / 2 == (h - 1) / 2 + 1;
  }

  lemma Commoner(freq: seq<nat>, deep: seq<nat>, x: nat, y: nat)
    requires Sooner(freq, deep, x, y)
    ensures FreqOf(freq, x) <= FreqOf(freq, y)
  {
  }

  ghost function HigherSon(order: seq<nat>, deep: seq<nat>, k: nat): nat
    requires 2 * k + 1 < |order|
  {
    if HeightOf(deep, order[2 * k]) >= HeightOf(deep, order[2 * k + 1]) then order[2 * k] else order[2 * k + 1]
  }

  lemma HalfGrown(order: seq<nat>, dad: seq<nat>, freq: seq<nat>, deep: seq<nat>, leaves: seq<nat>, elems: nat, k: nat)
    requires MergedAt(order, dad, freq, elems, k) && HigherAt(order, deep, elems, k)
    ensures 2 * k + 1 < |order|
    ensures HeightOf(deep, elems + k) == HeightOf(deep, HigherSon(order, deep, k)) + 1
    ensures FreqOf(freq, elems + k) >= FreqOf(freq, HigherSon(order, deep, k))
    ensures HigherSon(order, deep, k) == order[2 * k] || HigherSon(order, deep, k) == order[2 * k + 1]
  {
  }

  /** One more node. */
  lemma HeightsNext(live: seq<nat>, order: seq<nat>, dad: seq<nat>, freq: seq<nat>, deep: seq<nat>, leaves: seq<nat>, elems: nat, node: nat,
                    a: nat, b: nat)
    requires Forest(live, order, dad, freq, leaves, elems, node) && InOrder(live, order, freq, deep)
    requires Merged(order, dad, freq, elems, node) && Heights(order, freq, deep, leaves, elems, node)
    requires a in live && b in live && node < |freq| && node < |deep|
    ensures var f, h := FreqOf(freq, a) + FreqOf(freq, b), Higher(HeightOf(deep, a), HeightOf(deep, b)) + 1;
      f >= Pow2(h / 2) && Heights(order + [a] + [b], freq[node := f], deep[node := h], leaves, elems, node + 1)
  {
    hide *;
    var f, h := FreqOf(freq, a) + FreqOf(freq, b), Higher(HeightOf(deep, a), HeightOf(deep, b)) + 1;
    HigherIs(HeightOf(deep, a), HeightOf(deep, b));
    if HeightOf(deep, a) >= HeightOf(deep, b) {
      Grows(live, order, dad, freq, deep, leaves, elems, node, a, b);
    } else {
      Grows(live, order, dad, freq, deep, leaves, elems, node, b, a);
    }
    Numbers(live, order, dad, freq, leaves, elems, node);
    MergedSize(order, dad, freq, elems, node);
    HeightsKept(order, freq, deep, leaves, elems, node, a, b, f, h);
  }

  lemma HigherIs(a: nat, b: nat)
    ensures Higher(a, b) == if a >= b then a else b
  {
  }

  lemma Numbers(live: seq<nat>, order: seq<nat>, dad: seq<nat>, freq: seq<nat>, leaves: seq<nat>, elems: nat, node: nat)
    requires Forest(live, order, dad, freq, leaves, elems, node)
    ensures forall x :: x in live || x in order || x in leaves ==> x < node
  {
    hide FatherLater, Sons, Distinct;
  }

  lemma HeightsKept(order: seq<nat>, freq: seq<nat>, deep: seq<nat>, leaves: seq<nat>, elems: nat, node: nat, a: nat, b: nat, f: nat, h: nat)
    requires Heights(order, freq, deep, leaves, elems, node) && |order| == 2 * (node - elems) && node < |freq| && node < |deep|
    requires a < node && b < node && (forall x :: x in order || x in leaves ==> x < node)
    requires h == Higher(HeightOf(deep, a), HeightOf(deep, b)) + 1 && f >= Pow2(h / 2)
    ensures Heights(order + [a] + [b], freq[node := f], deep[node := h], leaves, elems, node + 1)
  {
    hide Pow2, Higher, HigherAt, FreqOf, HeightOf;
    var order', freq', deep' := order + [a] + [b], freq[node := f], deep[node := h];
    AtNode(freq, deep, node, f, h);
    forall k: nat | k < node + 1 - elems
      ensures HigherAt(order', deep', elems, k)
    {
      if k < node - elems {
        HigherKept(order, deep, elems, node, k, a, b, h);
      } else {
        HigherHere(order, deep, elems, k, a, b, h);
      }
    }
    forall x: nat | x in leaves || elems <= x < node + 1
      ensures FreqOf(freq', x) >= Pow2(HeightOf(deep', x) / 2)
    {
      if x != node { assert FreqOf(freq, x) >= Pow2(HeightOf(deep, x) / 2); }
    }
  }

  lemma AtNode(freq: seq<nat>, deep: seq<nat>, node: nat, f: nat, h: nat)
    requires node < |freq| && node < |deep|
    ensures FreqOf(freq[node := f], node) == f && HeightOf(deep[node := h], node) == h
    ensures forall x: nat :: x != node ==> FreqOf(freq[node := f], x) == FreqOf(freq, x) && HeightOf(deep[node := h], x) == HeightOf(deep, x)
  {
  }

  lemma HigherKept(order: seq<nat>, deep: seq<nat>, elems: nat, node: nat, k: nat, a: nat, b: nat, h: nat)
    requires HigherAt(order, deep, elems, k) && elems + k < node < |deep| && forall x :: x in order ==> x < node
    ensures HigherAt(order + [a] + [b], deep[node := h], elems, k)
  {
    hide Higher;
    assert order[2 * k] in order && order[2 * k + 1] in order;
  }

  lemma HigherHere(order: seq<nat>, deep: seq<nat>, elems: nat, k: nat, a: nat, b: nat, h: nat)
    requires |order| == 2 * k && elems + k < |deep| && a < elems + k && b < elems + k
    requires h == Higher(HeightOf(deep, a), HeightOf(deep, b)) + 1
    ensures HigherAt(order + [a] + [b], deep[elems + k := h], elems, k)
  {
    hide Higher;
  }

  lemma HeightsNone(freq: seq<nat>, deep: seq<nat>, leaves: seq<nat>, elems: nat)
    requires forall x :: x in leaves ==> HeightOf(deep, x) == 0 && FreqOf(freq, x) >= 1
    ensures Heights([], freq, deep, leaves, elems, elems)
  {
    hide FreqOf, HeightOf;
    Units();
  }

  // ---- binary trees ----

  datatype Tree = Leaf(symbol: nat) | Fork(left: Tree, right: Tree)

  function Leaves(t: Tree): seq<nat> {
    match t
    case Leaf(x) => [x]
    case Fork(l, r) => Leaves(l) + Leaves(r)
  }

  function Height(t: Tree): nat {
    match t
    case Leaf(_) => 0
    case Fork(l, r) => 1 + if Height(l) >= Height(r) then Height(l) else Height(r)
  }

  function DepthIn(t: Tree, x: nat): nat {
    match t
    case Leaf(_) => 0
    case Fork(l, r) => 1 + if x in Leaves(l) then DepthIn(l, x) else DepthIn(r, x)
  }

  /** The leaves of a full binary tree use up the code space. */
  lemma {:induction false} TreeShares(t: Tree, n: nat, top: nat)
    requires Distinct(Leaves(t)) && (forall x :: x in Leaves(t) ==> x < n) && Height(t) <= top
    ensures SumOver(Leaves(t), n, Share(DepthsOf(t), top)) == Pow2(top)
  {
    hide SumOver, Distinct, Share;
    match t {
      case Leaf(x) =>
        assert x in Leaves(t);
        OneShare(x, n, top);
      case Fork(l, r) =>
        Parts(Leaves(l), Leaves(r));
        TreeShares(l, n, top - 1);
        TreeShares(r, n, top - 1);
        SumOverConcat(Leaves(l), Leaves(r), n, Share(DepthsOf(t), top));
        SonShares(l, r, n, top);
    }
  }

  ghost function DepthsOf(t: Tree): nat -> nat {
    (x: nat) => DepthIn(t, x)
  }

  lemma OneShare(x: nat, n: nat, top: nat)
    requires x < n
    ensures SumOver([x], n, Share(DepthsOf(Leaf(x)), top)) == Pow2(top)
  {
    SumOverSnoc([], x, n, Share(DepthsOf(Leaf(x)), top));
    assert [] + [x] == [x];
  }

  lemma SonShares(l: Tree, r: Tree, n: nat, top: nat)
    requires top >= 1 && forall x :: x in Leaves(r) ==> x !in Leaves(l)
    ensures SumOver(Leaves(l), n, Share(DepthsOf(Fork(l, r)), top)) == SumOver(Leaves(l), n, Share(DepthsOf(l), top - 1))
    ensures SumOver(Leaves(r), n, Share(DepthsOf(Fork(l, r)), top)) == SumOver(Leaves(r), n, Share(DepthsOf(r), top - 1))
  {
    hide SumOver, Share, Leaves, DepthIn;
    var f := DepthsOf(Fork(l, r));
    forall x | x in Leaves(l) ensures Share(f, top)(x) == Share(DepthsOf(l), top - 1)(x) {
      SonDepth(l, r, x);
      ShareUp(f, DepthsOf(l), top, x);
    }
    SumOverSame(Leaves(l), n, Share(f, top), Share(DepthsOf(l), top - 1));
    forall x | x in Leaves(r) ensures Share(f, top)(x) == Share(DepthsOf(r), top - 1)(x) {
      SonDepth(l, r, x);
      ShareUp(f, DepthsOf(r), top, x);
    }
    SumOverSame(Leaves(r), n, Share(f, top), Share(DepthsOf(r), top - 1));
  }

  lemma SonDepth(l: Tree, r: Tree, x: nat)
    ensures DepthIn(Fork(l, r), x) == 1 + if x in Leaves(l) then DepthIn(l, x) else DepthIn(r, x)
  {
  }

  lemma ShareUp(d: nat -> nat, e: nat -> nat, top: nat, x: nat)
    requires top >= 1 && d(x) == e(x) + 1
    ensures Share(d, top)(x) == Share(e, top - 1)(x)
  {
  }

  lemma DepthBound(t: Tree, x: nat)
    ensures DepthIn(t, x) <= Height(t)
  {
  }

  lemma Parts(a: seq<nat>, b: seq<nat>)
    requires Distinct(a + b)
    ensures Distinct(a) && Distinct(b) && (forall x :: x in a ==> x in a + b) && forall x :: x in b ==> x in a + b && x !in a
  {
    assert forall i :: 0 <= i < |a| ==> (a + b)[i] == a[i];
    assert forall i :: 0 <= i < |b| ==> (a + b)[|a| + i] == b[i];
  }

  /** No full binary tree over the same symbols has a smaller weighted path length. */
  lemma MinimalTree(root: nat, order: seq<nat>, dad: seq<nat>, freq: seq<nat>, deep: seq<nat>, leaves: seq<nat>, elems: nat, node: nat,
                    t: Tree)
    requires Built(root, order, dad, freq, deep, leaves, elems, node)
    requires Distinct(Leaves(t)) && forall x :: x in Leaves(t) <==> x in leaves
    ensures Path(leaves, node, freq, DepthIs(root, dad, node)) <= Path(Leaves(t), node, freq, DepthsOf(t))
  {
    hide SumOver, Distinct, InOrder, MergedAt, Leaves, Share, Term;
    var d := DepthsOf(t);
    forall x | x in leaves ensures x < node && d(x) <= Height(t) {
      DepthBound(t, x);
    }
    TreeShares(t, node, Height(t));
    SumOverSet(Leaves(t), leaves, node, Share(d, Height(t)));
    SumOverSet(Leaves(t), leaves, node, Term(freq, d));
    hide Forest;
    MinimalPath(root, order, dad, freq, deep, leaves, elems, node, d, Height(t));
  }
}
