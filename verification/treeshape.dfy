/** The shape of a Huffman tree stored as a list of nodes with father links, root
    first, and what limiting the depth does to its Kraft sum. */
module TreeShape {
  import opened Bits
  import opened Canonical
  import opened Sums

  /** How many nodes after the root have father x. */
  ghost function Kids(l: seq<nat>, dad: seq<nat>, x: nat): nat {
    CountIf(|l|, (i: nat) => 1 <= i < |l| && l[i] < |dad| && dad[l[i]] == x)
  }

  ghost predicate HasFather(l: seq<nat>, dad: seq<nat>, maxCode: nat, i: nat)
    requires 1 <= i < |l| && l[i] < |dad|
  {
    dad[l[i]] > maxCode && exists j :: 0 <= j < i && l[j] == dad[l[i]]
  }

  /** l lists the nodes of a binary tree, root first and fathers before sons;
      the nodes numbered up to maxCode are its leaves. */
  ghost predicate TreeList(l: seq<nat>, dad: seq<nat>, maxCode: nat) {
    && |l| >= 1 && l[0] > maxCode && Distinct(l)
    && (forall i :: 0 <= i < |l| ==> l[i] < |dad|)
    && (forall i :: 1 <= i < |l| ==> HasFather(l, dad, maxCode, i))
    && (forall i :: 0 <= i < |l| && l[i] > maxCode ==> Kids(l, dad, l[i]) == 2)
  }

  function Min(a: nat, b: nat): nat {
    if a <= b then a else b
  }

  /** The depths, each limited to max, at the positions of the list. */
  ghost predicate Depths(l: seq<nat>, dad: seq<nat>, max: nat, d: seq<nat>)
    requires |d| <= |l| && forall i :: 0 <= i < |l| ==> l[i] < |dad|
  {
    && (|d| > 0 ==> d[0] == 0)
    && forall i :: 1 <= i < |d| ==> exists j :: 0 <= j < i && l[j] == dad[l[i]] && d[i] == Min(max, d[j] + 1)
  }

  /** The entries of d that belong to leaves, or to inner nodes. */
  function Pick(l: seq<nat>, d: seq<nat>, maxCode: nat, leaf: bool): (r: seq<nat>)
    requires |d| == |l|
  {
    if l == [] then []
    else
      var k := |l| - 1;
      Pick(l[..k], d[..k], maxCode, leaf) + if (l[k] <= maxCode) == leaf then [d[k]] else []
  }

  lemma {:induction false} CountConcat(a: seq<nat>, b: seq<nat>, x: nat)
    ensures Count(a + b, x) == Count(a, x) + Count(b, x)
  {
    if b == [] {
      assert a + b == a;
    } else {
      var k := |b| - 1;
      CountConcat(a, b[..k], x);
      assert (a + b)[..|a + b| - 1] == a + b[..k];
    }
  }

  lemma {:induction false} PickParts(l: seq<nat>, d: seq<nat>, maxCode: nat, x: nat)
    requires |d| == |l|
    ensures Count(Pick(l, d, maxCode, true), x) + Count(Pick(l, d, maxCode, false), x) == Count(d, x)
  {
    if l != [] {
      var k := |l| - 1;
      PickParts(l[..k], d[..k], maxCode, x);
      PickStep(l, d, maxCode, true, x);
      PickStep(l, d, maxCode, false, x);
    }
  }

  lemma PickStep(l: seq<nat>, d: seq<nat>, maxCode: nat, leaf: bool, x: nat)
    requires |d| == |l| >= 1
    ensures var k := |l| - 1;
      Count(Pick(l, d, maxCode, leaf), x) == Count(Pick(l[..k], d[..k], maxCode, leaf), x)
                                           + if (l[k] <= maxCode) == leaf && d[k] == x then 1 else 0
  {
    var k := |l| - 1;
    var rest := Pick(l[..k], d[..k], maxCode, leaf);
    if (l[k] <= maxCode) == leaf {
      CountConcat(rest, [d[k]], x);
      CountOne(d[k], x);
    } else {
      assert rest + [] == rest;
    }
  }

  lemma CountOne(y: nat, x: nat)
    ensures Count([y], x) == if y == x then 1 else 0
  {
    assert [y][..0] == [];
  }

  /** Fathers' depths: one entry per node after the root. */
  ghost predicate FatherDepths(l: seq<nat>, dad: seq<nat>, max: nat, d: seq<nat>, par: seq<nat>, pl: seq<nat>)
    requires forall i :: 0 <= i < |l| ==> l[i] < |dad|
  {
    && |d| == |l| == |par| == |pl| >= 1
    && forall i :: 1 <= i < |l| ==>
      par[i] < i && l[par[i]] == dad[l[i]] && pl[i] == d[par[i]] && d[i] == Min(max, pl[i] + 1)
  }

  ghost function FathersBelow(par: seq<nat>, d: seq<nat>, k: nat, x: nat): nat {
    CountIf(|par|, (i: nat) => 1 <= i < |par| && par[i] < k && par[i] < |d| && d[par[i]] == x)
  }

  /** Double counting: every inner node of depth x is the father of two nodes. */
  lemma {:induction false} TwoSonsEach(l: seq<nat>, dad: seq<nat>, maxCode: nat, max: nat, d: seq<nat>,
                                       par: seq<nat>, pl: seq<nat>, k: nat, x: nat)
    requires TreeList(l, dad, maxCode) && FatherDepths(l, dad, max, d, par, pl) && k <= |l|
    ensures FathersBelow(par, d, k, x) == 2 * Count(Pick(l[..k], d[..k], maxCode, false), x)
  {
    hide TreeList, FathersBelow, Count, Pick;
    FathersSizes(l, dad, maxCode, max, d, par, pl);
    if k == 0 {
      NoFathers(par, d, k, x);
      assert l[..0] == [] && d[..0] == [];
      PickNone(maxCode, x);
    } else {
      var m := k - 1;
      FathersStep(l, dad, maxCode, max, d, par, pl, m, x);
      TwoSonsEach(l, dad, maxCode, max, d, par, pl, m, x);
      assert l[..k][..m] == l[..m] && d[..k][..m] == d[..m];
      PickStep(l[..k], d[..k], maxCode, false, x);
    }
  }

  lemma FathersSizes(l: seq<nat>, dad: seq<nat>, maxCode: nat, max: nat, d: seq<nat>, par: seq<nat>, pl: seq<nat>)
    requires TreeList(l, dad, maxCode) && FatherDepths(l, dad, max, d, par, pl)
    ensures |d| == |l| == |par| >= 1
  {
  }

  lemma PickNone(maxCode: nat, x: nat)
    ensures Count(Pick([], [], maxCode, false), x) == 0
  {
  }

  lemma NoFathers(par: seq<nat>, d: seq<nat>, k: nat, x: nat)
    requires k == 0
    ensures FathersBelow(par, d, k, x) == 0
  {
    CountNone(|par|, (i: nat) => 1 <= i < |par| && par[i] < k && par[i] < |d| && d[par[i]] == x);
  }

  lemma FathersStep(l: seq<nat>, dad: seq<nat>, maxCode: nat, max: nat, d: seq<nat>, par: seq<nat>, pl: seq<nat>, m: nat, x: nat)
    requires TreeList(l, dad, maxCode) && FatherDepths(l, dad, max, d, par, pl) && m < |l|
    ensures FathersBelow(par, d, m + 1, x) == FathersBelow(par, d, m, x) + if d[m] == x && l[m] > maxCode then 2 else 0
  {
    var p := (i: nat) => 1 <= i < |par| && par[i] < m && par[i] < |d| && d[par[i]] == x;
    var q := (i: nat) => 1 <= i < |par| && par[i] == m && d[m] == x;
    var r := (i: nat) => 1 <= i < |par| && par[i] < m + 1 && par[i] < |d| && d[par[i]] == x;
    CountDisjoint(|par|, p, q, r);
    SonsOf(l, dad, maxCode, max, d, par, pl, m);
    if d[m] == x {
      CountSame(|par|, q, (i: nat) => 1 <= i < |par| && par[i] == m);
    } else {
      CountNone(|par|, q);
    }
  }

  lemma FatherIsInner(l: seq<nat>, dad: seq<nat>, maxCode: nat, i: nat)
    requires TreeList(l, dad, maxCode) && 1 <= i < |l|
    ensures dad[l[i]] > maxCode
  {
    assert HasFather(l, dad, maxCode, i);
  }

  lemma SonsOf(l: seq<nat>, dad: seq<nat>, maxCode: nat, max: nat, d: seq<nat>, par: seq<nat>, pl: seq<nat>, m: nat)
    requires TreeList(l, dad, maxCode) && FatherDepths(l, dad, max, d, par, pl) && m < |l|
    ensures CountIf(|par|, (i: nat) => 1 <= i < |par| && par[i] == m) == if l[m] > maxCode then 2 else 0
  {
    var p := (i: nat) => 1 <= i < |par| && par[i] == m;
    var q := (i: nat) => 1 <= i < |l| && l[i] < |dad| && dad[l[i]] == l[m];
    if l[m] > maxCode {
      CountSame(|par|, p, q);
    } else {
      forall i: nat | i < |par|
        ensures !p(i)
      {
        if 1 <= i {
          FatherIsInner(l, dad, maxCode, i);
        }
      }
      CountNone(|par|, p);
    }
  }

  /** Father depths above the root, counted over the whole list. */
  lemma {:induction false} CountAsIf(par: seq<nat>, d: seq<nat>, pl: seq<nat>, n: nat, x: nat)
    requires 1 <= n <= |pl| == |par| == |d|
    requires forall i :: 1 <= i < |pl| ==> par[i] < i && pl[i] == d[par[i]]
    ensures CountIf(n, (i: nat) => 1 <= i < |par| && par[i] < |d| && par[i] < |d| && d[par[i]] == x) == Count(pl[1..n], x)
  {
    var p := (i: nat) => 1 <= i < |par| && par[i] < |d| && par[i] < |d| && d[par[i]] == x;
    if n == 1 {
      CountNone(1, p);
      assert pl[1..1] == [];
    } else {
      CountAsIf(par, d, pl, n - 1, x);
      assert pl[1..n][..|pl[1..n]| - 1] == pl[1..n - 1];
    }
  }

  /** A node is one deeper than its father, up to the limit. */
  lemma {:induction false} DepthShift(d: seq<nat>, pl: seq<nat>, max: nat, x: nat)
    requires |d| == |pl| && max >= 1 && 1 <= x <= max
    requires forall i :: 0 <= i < |d| ==> pl[i] <= max && d[i] == Min(max, pl[i] + 1)
    ensures Count(d, x) == Count(pl, x - 1) + if x == max then Count(pl, max) else 0
  {
    if d != [] {
      DepthShift(d[..|d| - 1], pl[..|d| - 1], max, x);
    }
  }

  /** The recurrence between the leaves and inner nodes of successive depths. */
  lemma Levels(l: seq<nat>, dad: seq<nat>, maxCode: nat, max: nat, d: seq<nat>, par: seq<nat>, pl: seq<nat>, x: nat)
    requires TreeList(l, dad, maxCode) && FatherDepths(l, dad, max, d, par, pl) && d[0] == 0 && 1 <= x <= max
    ensures Count(Pick(l, d, maxCode, true), x) + Count(Pick(l, d, maxCode, false), x)
         == 2 * Count(Pick(l, d, maxCode, false), x - 1) + if x == max then 2 * Count(Pick(l, d, maxCode, false), max) else 0
    ensures Count(pl[1..], max) == 2 * Count(Pick(l, d, maxCode, false), max)
  {
    PickParts(l, d, maxCode, x);
    DepthsBounded(l, dad, max, d, par, pl);
    BelowRoot(d, pl, max, x);
    FatherCount(l, dad, maxCode, max, d, par, pl, x - 1);
    FatherCount(l, dad, maxCode, max, d, par, pl, max);
  }

  lemma BelowRoot(d: seq<nat>, pl: seq<nat>, max: nat, x: nat)
    requires |d| == |pl| >= 1 && d[0] == 0 && 1 <= x <= max
    requires forall i :: 1 <= i < |d| ==> pl[i] <= max && d[i] == Min(max, pl[i] + 1)
    ensures Count(d, x) == Count(pl[1..], x - 1) + if x == max then Count(pl[1..], max) else 0
  {
    hide Count;
    DepthShift(d[1..], pl[1..], max, x);
    CountConcat([d[0]], d[1..], x);
    CountOne(d[0], x);
    assert [d[0]] + d[1..] == d;
  }

  lemma FatherCount(l: seq<nat>, dad: seq<nat>, maxCode: nat, max: nat, d: seq<nat>, par: seq<nat>, pl: seq<nat>, y: nat)
    requires TreeList(l, dad, maxCode) && FatherDepths(l, dad, max, d, par, pl)
    ensures Count(pl[1..], y) == 2 * Count(Pick(l, d, maxCode, false), y)
  {
    var n := |l|;
    TwoSonsEach(l, dad, maxCode, max, d, par, pl, n, y);
    CountAsIf(par, d, pl, n, y);
    assert l[..n] == l && d[..n] == d && pl[1..n] == pl[1..];
    CountSame(n, (i: nat) => 1 <= i < |par| && par[i] < n && par[i] < |d| && d[par[i]] == y,
              (i: nat) => 1 <= i < |par| && par[i] < |d| && par[i] < |d| && d[par[i]] == y);
  }

  lemma DepthsBounded(l: seq<nat>, dad: seq<nat>, max: nat, d: seq<nat>, par: seq<nat>, pl: seq<nat>)
    requires forall i :: 0 <= i < |l| ==> l[i] < |dad|
    requires FatherDepths(l, dad, max, d, par, pl) && d[0] == 0
    ensures forall i :: 0 <= i < |d| ==> d[i] <= max
    ensures forall i :: 1 <= i < |d| ==> pl[i] <= max && d[i] == Min(max, pl[i] + 1)
  {
  }

  /** The Kraft sum of bit-length counts, in units of 2^-max. */
  function Weight(bl: seq<nat>, k: nat, max: nat): nat
    requires k <= max && k < |bl|
  {
    if k == 0 then 0 else Weight(bl, k - 1, max) + bl[k] * Pow2(max - k)
  }

  function Total(bl: seq<nat>, k: nat): nat
    requires k < |bl|
  {
    if k == 0 then 0 else Total(bl, k - 1) + bl[k]
  }

  /** Above the limit, the inner nodes of a depth stand for the weight still missing. */
  lemma {:induction false} WeightAbove(leaves: seq<nat>, inner: seq<nat>, bl: seq<nat>, k: nat, max: nat)
    requires k < max < |bl| && Count(inner, 0) == 1
    requires forall x :: 1 <= x <= max ==> bl[x] == Count(leaves, x)
    requires forall x :: 1 <= x < max ==> Count(leaves, x) + Count(inner, x) == 2 * Count(inner, x - 1)
    ensures Weight(bl, k, max) + Count(inner, k) * Pow2(max - k) == Pow2(max)
  {
    if k > 0 {
      WeightAbove(leaves, inner, bl, k - 1, max);
      var a, f, p := Count(inner, k), Count(leaves, k), Pow2(max - k);
      assert Pow2(max - (k - 1)) == 2 * p;
      assert f + a == 2 * Count(inner, k - 1);
      WeightStep(a, f, Count(inner, k - 1), p);
    }
  }

  lemma WeightStep(a: nat, f: nat, b: nat, p: nat)
    requires f + a == 2 * b
    ensures b * (2 * p) == f * p + a * p
  {
  }

  /** After limiting, the excess weight is the number of inner nodes at the limit,
      which is half the number of nodes moved up. */
  lemma WeightLimited(leaves: seq<nat>, inner: seq<nat>, bl: seq<nat>, max: nat)
    requires 1 <= max < |bl| && Count(inner, 0) == 1
    requires forall x :: 1 <= x <= max ==> bl[x] == Count(leaves, x)
    requires forall x :: 1 <= x < max ==> Count(leaves, x) + Count(inner, x) == 2 * Count(inner, x - 1)
    requires Count(leaves, max) + Count(inner, max) == 2 * Count(inner, max - 1) + 2 * Count(inner, max)
    ensures Weight(bl, max, max) == Pow2(max) + Count(inner, max)
    ensures bl[max] == 2 * Count(inner, max - 1) + Count(inner, max)
  {
    WeightAbove(leaves, inner, bl, max - 1, max);
    assert Pow2(1) == 2 && Pow2(0) == 1;
  }
}
