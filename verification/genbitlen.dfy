/** gen_bitlen: optimal bit lengths from the tree, limited to max_length, with the
    repair of the lengths that overflow. */
module BitLengths {
  import opened Bits
  import opened Canonical
  import opened Sums
  import opened TreeShape

  const L_CODES := 286
  const HEAP_SIZE := 573

  /** The constant part of a tree's description. */
  datatype StaticDesc = StaticDesc(stree: seq<nat>, extra: seq<nat>, base: nat, elems: nat, maxLength: nat) {
    ghost predicate Valid() {
      && 2 <= elems <= L_CODES && 1 <= maxLength <= MAXBITS && elems <= Pow2(maxLength)
      && |stree| in {0, elems} && |extra| + base >= elems
      && (forall i :: 0 <= i < |stree| ==> stree[i] <= MAXBITS)
      && 3 <= elems && forall n: nat :: n <= 2 ==> Xbits(n) == 0
    }

    /** Extra bits sent after symbol n's code. */
    function Xbits(n: nat): nat
      requires n < elems && |extra| + base >= elems
    {
      if n >= base then extra[n - base] else 0
    }
  }

  // ---- the repair loop, on bit-length counts ----

  lemma {:induction false} WeightUpdate(bl: seq<nat>, b: nat, v: nat, k: nat, max: nat)
    requires k <= max && k < |bl| && 1 <= b < |bl| && b <= max
    ensures Weight(bl[b := v], k, max) == Weight(bl, k, max) + if b <= k then (v - bl[b]) * Pow2(max - b) else 0
    ensures Total(bl[b := v], k) == Total(bl, k) + if b <= k then v - bl[b] else 0
  {
    if k > 0 {
      WeightUpdate(bl, b, v, k - 1, max);
      if b == k {
        Distribute(v - bl[b], bl[b], Pow2(max - b));
      }
    }
  }

  lemma {:induction false} OnlyLongest(bl: seq<nat>, k: nat, max: nat)
    requires k <= max && k < |bl| && forall l :: 1 <= l <= k ==> bl[l] == 0
    ensures Weight(bl, k, max) == 0 && Total(bl, k) == 0
  {
    if k > 0 { OnlyLongest(bl, k - 1, max); }
  }

  /** While the code is over-subscribed and has at most 2^max leaves, some leaf is shorter than max. */
  lemma ShorterExists(bl: seq<nat>, max: nat)
    requires 1 <= max < |bl| && Total(bl, max) <= Pow2(max) < Weight(bl, max, max)
    ensures exists l :: 1 <= l < max && bl[l] != 0
  {
    assert Pow2(0) == 1;
    if forall l :: 1 <= l < max ==> bl[l] == 0 {
      OnlyLongest(bl, max - 1, max);
    }
  }

  /** One step of the repair: a leaf of length b moves down, an overflow leaf joins it. */
  function RepairStep(bl: seq<nat>, b: nat, max: nat): seq<nat>
    requires 1 <= b < max < |bl| && bl[b] >= 1 && bl[max] >= 1
  {
    var bl1 := bl[b := bl[b] - 1];
    var bl2 := bl1[b + 1 := bl1[b + 1] + 2];
    bl2[max := bl2[max] - 1]
  }

  lemma RepairLowers(bl: seq<nat>, b: nat, max: nat)
    requires 1 <= b < max < |bl| && bl[b] >= 1 && bl[max] >= 1
    ensures Weight(RepairStep(bl, b, max), max, max) == Weight(bl, max, max) - 1
    ensures Total(RepairStep(bl, b, max), max) == Total(bl, max)
    ensures RepairStep(bl, b, max)[max] >= bl[max] - 1
  {
    hide Weight, Total, Pow2;
    var bl1 := bl[b := bl[b] - 1];
    var bl2 := bl1[b + 1 := bl1[b + 1] + 2];
    WeightUpdate(bl, b, bl[b] - 1, max, max);
    WeightUpdate(bl1, b + 1, bl1[b + 1] + 2, max, max);
    WeightUpdate(bl2, max, bl2[max] - 1, max, max);
    TwiceBelow(max - b);
    var p := Pow2(max - (b + 1));
    Moved(bl[b], -1, 2 * p);
    Moved(bl1[b + 1], 2, p);
  }

  lemma TwiceBelow(n: nat)
    requires n >= 1
    ensures Pow2(n) == 2 * Pow2(n - 1) && Pow2(0) == 1
  {
  }

  lemma Moved(x: int, d: int, p: int)
    ensures (x + d - x) * p == d * p
  {
  }

  /** The greatest length up to b that occurs, or zero. */
  function Greatest(bl: seq<nat>, b: nat): (r: nat)
    requires b < |bl|
    ensures r <= b && (r > 0 ==> bl[r] != 0) && forall l :: r < l <= b ==> bl[l] == 0
  {
    if b == 0 || bl[b] != 0 then b else Greatest(bl, b - 1)
  }

  /** n steps of the repair, each splitting the deepest of the leaves above the limit. */
  ghost function Repaired(bl: seq<nat>, max: nat, n: nat): seq<nat>
    decreases n
  {
    if n == 0 || !(1 <= max < |bl|) || Greatest(bl, max - 1) == 0 || bl[max] == 0 then bl
    else Repaired(RepairStep(bl, Greatest(bl, max - 1), max), max, n - 1)
  }

  lemma RepairedStep(bl: seq<nat>, max: nat, n: nat, b: nat)
    requires 1 <= b < max < |bl| && bl[b] >= 1 && bl[max] >= 1 && n > 0 && forall l :: b < l < max ==> bl[l] == 0
    ensures Repaired(bl, max, n) == Repaired(RepairStep(bl, b, max), max, n - 1)
  {
    assert Greatest(bl, max - 1) == b;
  }

  lemma RepairedNone(bl: seq<nat>, max: nat)
    ensures Repaired(bl, max, 0) == bl
  {
  }

  /** Shorten the lengths that were limited until the code is complete again.
      It ends: a shorter leaf always exists, and each step removes one unit of
      excess weight. */
  method Repair(blCount: array<nat>, maxLength: nat, overflow0: nat)
    requires blCount.Length == MAXBITS + 1 && 1 <= maxLength <= MAXBITS && overflow0 > 0
    requires overflow0 == 2 * (Weight(blCount[..], maxLength, maxLength) - Pow2(maxLength))
    requires blCount[maxLength] > Weight(blCount[..], maxLength, maxLength) - Pow2(maxLength)
    requires Total(blCount[..], maxLength) <= Pow2(maxLength)
    modifies blCount
    ensures Weight(blCount[..], maxLength, maxLength) == Pow2(maxLength)
    ensures Total(blCount[..], maxLength) == old(Total(blCount[..], maxLength))
    ensures forall l :: 0 <= l <= MAXBITS && !(1 <= l <= maxLength) ==> blCount[l] == old(blCount[l])
    ensures blCount[..] == Repaired(old(blCount[..]), maxLength, overflow0 / 2)
  {
    hide Weight, Total, Pow2, Repaired;
    var overflow: int := overflow0;
    while true
      invariant overflow > 0
      invariant Repaired(blCount[..], maxLength, overflow / 2) == Repaired(old(blCount[..]), maxLength, overflow0 / 2)
      invariant overflow == 2 * (Weight(blCount[..], maxLength, maxLength) - Pow2(maxLength))
      invariant blCount[maxLength] > Weight(blCount[..], maxLength, maxLength) - Pow2(maxLength)
      invariant Total(blCount[..], maxLength) == old(Total(blCount[..], maxLength))
      invariant forall l :: 0 <= l <= MAXBITS && !(1 <= l <= maxLength) ==> blCount[l] == old(blCount[l])
      decreases overflow
    {
      ghost var bl := blCount[..];
      ShorterExists(bl, maxLength);
      var bits := maxLength - 1;
      while blCount[bits] == 0
        invariant exists l :: 1 <= l <= bits && bl[l] != 0
        invariant forall l :: bits < l < maxLength ==> bl[l] == 0
        invariant 1 <= bits < maxLength
        decreases bits
      {
        bits := bits - 1;
      }
      RepairLowers(bl, bits, maxLength);
      RepairedStep(bl, maxLength, overflow / 2, bits);
      blCount[bits] := blCount[bits] - 1;
      blCount[bits + 1] := blCount[bits + 1] + 2;
      blCount[maxLength] := blCount[maxLength] - 1;
      assert blCount[..] == RepairStep(bl, bits, maxLength);
      overflow := overflow - 2;
      if overflow <= 0 {
        break;
      }
    }
    RepairedNone(blCount[..], maxLength);
  }

  // ---- costs ----

  /** Bits spent on symbol n: its frequency times its code length plus extra bits. */
  ghost function Cost(freq: seq<nat>, lens: seq<nat>, desc: StaticDesc): nat -> int {
    (n: nat) => if n < |freq| && n < |lens| && n < desc.elems <= |desc.extra| + desc.base
      then LeafCost(freq, lens[n], desc, n) else 0
  }

  function LeafCost(freq: seq<nat>, len: nat, desc: StaticDesc, n: nat): nat
    requires n < |freq| && n < desc.elems <= |desc.extra| + desc.base
  {
    freq[n] * (len + desc.Xbits(n))
  }

  /** Nodes are usable: leaves are symbols of the tree, everything is in the arrays. */
  ghost predicate InArrays(l: seq<nat>, freq: seq<nat>, maxCode: nat, desc: StaticDesc) {
    desc.Valid() && maxCode < desc.elems && desc.elems < |freq| && forall i :: 0 <= i < |l| ==> l[i] < |freq|
  }

  /** The cost of the leaves of a list whose lengths are given by position. */
  ghost function PosCost(freq: seq<nat>, desc: StaticDesc, l: seq<nat>, d: seq<nat>, maxCode: nat): int
    requires |d| == |l| && InArrays(l, freq, maxCode, desc)
  {
    if l == [] then 0
    else
      var k := |l| - 1;
      PosCost(freq, desc, l[..k], d[..k], maxCode) + if l[k] <= maxCode then LeafCost(freq, d[k], desc, l[k]) else 0
  }

  lemma {:induction false} PosCostIs(freq: seq<nat>, desc: StaticDesc, l: seq<nat>, d: seq<nat>, maxCode: nat, lens: seq<nat>)
    requires |d| == |l| && InArrays(l, freq, maxCode, desc)
    requires |lens| == |freq| && forall i :: 0 <= i < |l| ==> lens[l[i]] == d[i]
    ensures PosCost(freq, desc, l, d, maxCode) == SumOver(l, maxCode + 1, Cost(freq, lens, desc))
  {
    if l != [] {
      PosCostIs(freq, desc, l[..|l| - 1], d[..|l| - 1], maxCode, lens);
    }
  }

  // ---- gen_bitlen ----

  /** What the first pass has done once it has gone through the first |d| nodes. */
  ghost predicate Assigned(l: seq<nat>, dad: seq<nat>, dl: seq<nat>, max: nat, d: seq<nat>, par: seq<nat>, pl: seq<nat>)
  {
    && (forall i :: 0 <= i < |l| ==> l[i] < |dad|)
    && 1 <= |d| == |par| == |pl| <= |l| && |dl| == |dad| && d[0] == 0
    && FatherDepths(l[..|d|], dad, max, d, par, pl)
    && (forall i :: 0 <= i < |d| ==> dl[l[i]] == d[i])
    && (forall x :: 0 <= x < |dl| && x !in l[..|d|] ==> dl[x] == dad[x])
  }

  lemma AssignNext(l: seq<nat>, dad: seq<nat>, dl: seq<nat>, max: nat, d: seq<nat>, par: seq<nat>, pl: seq<nat>, j: nat, maxCode: nat)
    requires TreeList(l, dad, maxCode) && Assigned(l, dad, dl, max, d, par, pl) && |d| < |l|
    requires j < |d| && l[j] == dad[l[|d|]]
    ensures dl[l[|d|]] == l[j] && l[j] < |dl| && dl[l[j]] == d[j]
    ensures var b := Min(max, d[j] + 1);
      Assigned(l, dad, dl[l[|d|] := b], max, d + [b], par + [j], pl + [d[j]])
  {
    hide FatherDepths, TreeList;
    var i, b := |d|, Min(max, d[j] + 1);
    ListFacts(l, dad, maxCode, i);
    assert l[..i + 1] == l[..i] + [l[i]];
    DepthsNext(l[..i], dad, max, d, par, pl, j, l[i]);
    UpdateNext(l[..i], dad, dl, d, l[i], b);
  }

  lemma ListFacts(l: seq<nat>, dad: seq<nat>, maxCode: nat, i: nat)
    requires TreeList(l, dad, maxCode) && i < |l|
    ensures (forall k :: 0 <= k < |l| ==> l[k] < |dad|) && l[i] !in l[..i]
  {
  }

  lemma UpdateNext(l: seq<nat>, dad: seq<nat>, dl: seq<nat>, d: seq<nat>, n: nat, b: nat)
    requires |d| == |l| && |dl| == |dad| && n < |dl| && n !in l
    requires forall i :: 0 <= i < |l| ==> l[i] < |dl| && dl[l[i]] == d[i]
    requires forall x :: 0 <= x < |dl| && x !in l ==> dl[x] == dad[x]
    ensures forall i :: 0 <= i < |l| + 1 ==> (l + [n])[i] < |dl| && dl[n := b][(l + [n])[i]] == (d + [b])[i]
    ensures forall x :: 0 <= x < |dl| && x !in l + [n] ==> dl[n := b][x] == dad[x]
  {
  }

  lemma DepthsNext(l: seq<nat>, dad: seq<nat>, max: nat, d: seq<nat>, par: seq<nat>, pl: seq<nat>, j: nat, x: nat)
    requires x < |dad| && forall i :: 0 <= i < |l| ==> l[i] < |dad|
    requires FatherDepths(l, dad, max, d, par, pl) && j < |d| && l[j] == dad[x]
    ensures FatherDepths(l + [x], dad, max, d + [Min(max, d[j] + 1)], par + [j], pl + [d[j]])
  {
  }

  /** Bit-length counts of the leaves seen so far; lengths that do not occur count zero. */
  ghost predicate CountsOf(bl: seq<nat>, leaves: seq<nat>, max: nat) {
    |bl| == MAXBITS + 1 && forall x :: 0 <= x <= MAXBITS ==> bl[x] == Count(leaves, x)
  }

  lemma CountsNext(bl: seq<nat>, l: seq<nat>, d: seq<nat>, maxCode: nat, max: nat)
    requires |l| == |d| >= 1 && max <= MAXBITS && d[|d| - 1] <= max
    requires CountsOf(bl, Pick(l[..|l| - 1], d[..|d| - 1], maxCode, true), max)
    ensures l[|l| - 1] <= maxCode ==> CountsOf(bl[d[|d| - 1] := bl[d[|d| - 1]] + 1], Pick(l, d, maxCode, true), max)
    ensures l[|l| - 1] > maxCode ==> CountsOf(bl, Pick(l, d, maxCode, true), max)
  {
    forall x | 0 <= x <= MAXBITS
      ensures Count(Pick(l, d, maxCode, true), x) == bl[x] + if l[|l| - 1] <= maxCode && d[|d| - 1] == x then 1 else 0
    {
      PickStep(l, d, maxCode, true, x);
    }
  }

  lemma FirstNode(l: seq<nat>, dad: seq<nat>, max: nat, maxCode: nat, bl: seq<nat>, freq: seq<nat>, desc: StaticDesc, g: nat -> int)
    requires TreeList(l, dad, maxCode) && InArrays(l, freq, maxCode, desc) && 1 <= |l|
    requires |bl| == MAXBITS + 1 && forall b :: 0 <= b <= MAXBITS ==> bl[b] == 0
    ensures Assigned(l, dad, dad[l[0] := 0], max, [0], [0], [0])
    ensures CountsOf(bl, Pick(l[..1], [0], maxCode, true), max)
    ensures InArrays(l[..1], freq, maxCode, desc) && PosCost(freq, desc, l[..1], [0], maxCode) == 0
    ensures SumOver(l[..1], maxCode + 1, g) == 0
    ensures Count([0][1..], max) == 0
  {
    assert l[..1][..0] == [] && [0][..0] == [];
    PosCostFirst(l, maxCode, freq, desc);
    assert Pick(l[..1], [0], maxCode, true) == [];
  }

  lemma PosCostFirst(l: seq<nat>, maxCode: nat, freq: seq<nat>, desc: StaticDesc)
    requires 1 <= |l| && l[0] > maxCode && InArrays(l[..1], freq, maxCode, desc)
    ensures PosCost(freq, desc, l[..1], [0], maxCode) == 0
  {
    assert l[..1][..0] == [] && [0][..0] == [];
  }

  /** The father of the next node has been given its length already. */
  lemma NextNode(l: seq<nat>, dad: seq<nat>, dl: seq<nat>, max: nat, d: seq<nat>, par: seq<nat>, pl: seq<nat>, maxCode: nat) returns (j: nat)
    requires TreeList(l, dad, maxCode)
    requires Assigned(l, dad, dl, max, d, par, pl) && |d| < |l|
    ensures j < |d| && d[j] <= max && l[|d|] < |dl| == |dad| && dl[l[|d|]] < |dl| && dl[dl[l[|d|]]] == d[j]
    ensures Assigned(l, dad, dl[l[|d|] := Min(max, d[j] + 1)], max, d + [Min(max, d[j] + 1)], par + [j], pl + [d[j]])
  {
    hide Min, Kids;
    assert HasFather(l, dad, maxCode, |d|);
    j :| 0 <= j < |d| && l[j] == dad[l[|d|]];
    AssignNext(l, dad, dl, max, d, par, pl, j, maxCode);
    DepthsLow(l, dad, dl, max, d, par, pl, maxCode);
  }

  lemma OverflowNext(pl: seq<nat>, p: nat, max: nat)
    requires |pl| >= 1
    ensures Count((pl + [p])[1..], max) == Count(pl[1..], max) + if p == max then 1 else 0
  {
    assert (pl + [p])[1..] == pl[1..] + [p];
    CountConcat(pl[1..], [p], max);
    CountOne(p, max);
  }

  lemma NextCounts(l: seq<nat>, d: seq<nat>, b: nat, max: nat, maxCode: nat,
                   freq: seq<nat>, desc: StaticDesc, bl: seq<nat>)
    requires InArrays(l, freq, maxCode, desc) && b <= max <= MAXBITS && |d| < |l|
    requires CountsOf(bl, Pick(l[..|d|], d, maxCode, true), max)
    ensures |bl| == MAXBITS + 1
    ensures var i := |d|;
      && CountsOf(if l[i] <= maxCode then bl[b := bl[b] + 1] else bl, Pick(l[..i + 1], d + [b], maxCode, true), max)
      && InArrays(l[..i + 1], freq, maxCode, desc) && InArrays(l[..i], freq, maxCode, desc)
      && PosCost(freq, desc, l[..i + 1], d + [b], maxCode)
         == PosCost(freq, desc, l[..i], d, maxCode) + (if l[i] <= maxCode then LeafCost(freq, b, desc, l[i]) else 0)
  {
    hide LeafCost, Count, Pick;
    var i := |d|;
    assert l[..i + 1][..i] == l[..i] && (d + [b])[..i] == d;
    CountsNext(bl, l[..i + 1], d + [b], maxCode, max);
    hide CountsOf;
  }

  lemma DepthsLow(l: seq<nat>, dad: seq<nat>, dl: seq<nat>, max: nat, d: seq<nat>, par: seq<nat>, pl: seq<nat>, maxCode: nat)
    requires TreeList(l, dad, maxCode) && Assigned(l, dad, dl, max, d, par, pl)
    ensures forall i :: 0 <= i < |d| ==> d[i] <= max
  {
    DepthsBounded(l[..|d|], dad, max, d, par, pl);
  }

  ghost function StaticCost(freq: seq<nat>, desc: StaticDesc, l: seq<nat>, maxCode: nat): int {
    if |desc.stree| == 0 then 0 else SumOver(l, maxCode + 1, Cost(freq, desc.stree, desc))
  }

  function BumpIf(bl: seq<nat>, leaf: bool, b: nat): seq<nat>
    requires b < |bl|
  {
    if leaf then bl[b := bl[b] + 1] else bl
  }

  /** The running totals of the first pass are those of the nodes gone through. */
  ghost predicate Totals(l: seq<nat>, freq: seq<nat>, desc: StaticDesc, maxCode: nat, d: seq<nat>, bl: seq<nat>, opt: int, stat: int)
  {
    && |d| <= |l| && InArrays(l, freq, maxCode, desc)
    && CountsOf(bl, Pick(l[..|d|], d, maxCode, true), desc.maxLength)
    && opt == PosCost(freq, desc, l[..|d|], d, maxCode)
    && stat == StaticCost(freq, desc, l[..|d|], maxCode)
  }

  lemma TotalsNext(l: seq<nat>, freq: seq<nat>, desc: StaticDesc, maxCode: nat, d: seq<nat>, bl: seq<nat>, opt: int, stat: int, b: nat)
    returns (bl': seq<nat>, opt': int, stat': int)
    requires Totals(l, freq, desc, maxCode, d, bl, opt, stat) && |d| < |l| && b <= desc.maxLength
    ensures desc.Valid() && maxCode < desc.elems < |freq| && b < |bl| == MAXBITS + 1
    ensures var n := l[|d|];
      && bl' == BumpIf(bl, n <= maxCode, b)
      && opt' == opt + (if n <= maxCode then LeafCost(freq, b, desc, n) else 0)
      && stat' == stat + if n <= maxCode && |desc.stree| != 0 then LeafCost(freq, desc.stree[n], desc, n) else 0
    ensures Totals(l, freq, desc, maxCode, d + [b], bl', opt', stat')
  {
    var n := l[|d|];
    bl' := BumpIf(bl, n <= maxCode, b);
    opt' := opt + (if n <= maxCode then LeafCost(freq, b, desc, n) else 0);
    stat' := stat + if n <= maxCode && |desc.stree| != 0 then LeafCost(freq, desc.stree[n], desc, n) else 0;
    NextStatic(freq, desc, l, |d|, maxCode);
    hide CountsOf, Count, Pick, PosCost, SumOver, LeafCost, StaticCost, Cost;
    NextCounts(l, d, b, desc.maxLength, maxCode, freq, desc, bl);
  }

  lemma NextStatic(freq: seq<nat>, desc: StaticDesc, l: seq<nat>, i: nat, maxCode: nat)
    requires InArrays(l, freq, maxCode, desc) && i < |l|
    ensures StaticCost(freq, desc, l[..i + 1], maxCode) == StaticCost(freq, desc, l[..i], maxCode)
      + if l[i] <= maxCode && |desc.stree| != 0 then LeafCost(freq, desc.stree[l[i]], desc, l[i]) else 0
  {
    SumOverStep(l, i, maxCode + 1, Cost(freq, desc.stree, desc));
  }

  /** 1 for the symbols of length x. */
  ghost function Is(lens: seq<nat>, x: nat): nat -> int {
    (n: nat) => if n < |lens| && lens[n] == x then 1 else 0
  }

  ghost function One(): nat -> int {
    (n: nat) => 1
  }

  /** Leaves among the listed nodes that have length x. */
  ghost function LeavesOf(l: seq<nat>, lens: seq<nat>, maxCode: nat, x: nat): int {
    SumOver(l, maxCode + 1, Is(lens, x))
  }

  lemma {:induction false} PickLeaves(l: seq<nat>, d: seq<nat>, lens: seq<nat>, maxCode: nat, x: nat)
    requires |d| == |l| && forall i :: 0 <= i < |l| ==> l[i] < |lens| && lens[l[i]] == d[i]
    ensures Count(Pick(l, d, maxCode, true), x) == LeavesOf(l, lens, maxCode, x)
    ensures |Pick(l, d, maxCode, true)| == SumOver(l, maxCode + 1, One())
  {
    if l != [] {
      PickLeaves(l[..|l| - 1], d[..|l| - 1], lens, maxCode, x);
      PickStep(l, d, maxCode, true, x);
    }
  }

  lemma {:induction false} CountIsSum(lens: seq<nat>, n: nat, x: nat)
    requires n <= |lens|
    ensures SumTo(n, Is(lens, x)) == Count(lens[..n], x)
  {
    if n > 0 {
      CountIsSum(lens, n - 1, x);
      CountStep(lens, x, n - 1);
    }
  }

  /** Counting the lengths 1..max counts every element. */
  lemma {:induction false} TotalCounts(bl: seq<nat>, s: seq<nat>, max: nat)
    requires CountsOf(bl, s, max) && max <= MAXBITS && InRange(s, max)
    ensures Total(bl, max) == |s|
    decreases |s|
  {
    if s == [] {
      NoTotal(bl, max);
    } else {
      var k := |s| - 1;
      var bl' := bl[s[k] := bl[s[k]] - 1];
      TotalCounts(bl', s[..k], max);
      WeightUpdate(bl, s[k], bl[s[k]] - 1, max, max);
    }
  }

  lemma {:induction false} NoTotal(bl: seq<nat>, k: nat)
    requires k < |bl| && forall x :: 0 <= x < |bl| ==> bl[x] == 0
    ensures Total(bl, k) == 0
  {
    if k > 0 { NoTotal(bl, k - 1); }
  }

  /** Leaves rewritten so far: all of each length above bits, all but n of length bits. */
  ghost predicate Done(s: seq<nat>, lens: seq<nat>, maxCode: nat, bl: seq<nat>, bits: nat, n: nat, max: nat)
    requires max < |bl|
  {
    forall x :: 1 <= x <= max ==>
      LeavesOf(s, lens, maxCode, x) == if x > bits then bl[x] else if x == bits then bl[x] - n else 0
  }

  /** The state of the second pass: the nodes l[p..] have their final lengths, and
      of length bits n more leaves are to come. */
  ghost predicate Rescanned(l: seq<nat>, p: nat, lens: seq<nat>, maxCode: nat, bl: seq<nat>, bits: nat, n: nat, max: nat)
  {
    && p <= |l| && |bl| == MAXBITS + 1 && bits <= max <= MAXBITS && n <= bl[bits] && maxCode < |lens|
    && Done(l[p..], lens, maxCode, bl, bits, n, max)
    && SumOver(l[..p], maxCode + 1, One()) == (if bits == 0 then 0 else Total(bl, bits - 1)) + n
  }

  lemma NothingBefore(l: seq<nat>, maxCode: nat)
    ensures SumOver(l[..0], maxCode + 1, One()) == 0
  {
    assert l[..0] == [];
  }

  /** The next node from the end is given length bits if it is a leaf. */
  lemma RescanNext(l: seq<nat>, p: nat, lens: seq<nat>, maxCode: nat, bl: seq<nat>, bits: nat, n: nat, max: nat)
    requires Rescanned(l, p, lens, maxCode, bl, bits, n, max) && n > 0 && 1 <= bits
    requires Distinct(l) && forall i :: 0 <= i < |l| ==> l[i] < |lens|
    ensures p >= 1
    ensures l[p - 1] > maxCode ==> Rescanned(l, p - 1, lens, maxCode, bl, bits, n, max)
    ensures l[p - 1] <= maxCode ==> Rescanned(l, p - 1, lens[l[p - 1] := bits], maxCode, bl, bits, n - 1, max)
  {
    NothingBefore(l, maxCode);
    SumOverStep(l, p - 1, maxCode + 1, One());
    assert p >= 1 && One()(l[p - 1]) == 1;
    DoneNext(l, p, lens, maxCode, bl, bits, n, max);
    hide Done;
  }

  lemma DoneNext(l: seq<nat>, p: nat, lens: seq<nat>, maxCode: nat, bl: seq<nat>, bits: nat, n: nat, max: nat)
    requires max < |bl| && 1 <= p <= |l| && Done(l[p..], lens, maxCode, bl, bits, n, max) && n > 0
    requires Distinct(l) && forall i :: 0 <= i < |l| ==> l[i] < |lens|
    ensures l[p - 1] > maxCode ==> Done(l[p - 1..], lens, maxCode, bl, bits, n, max)
    ensures l[p - 1] <= maxCode ==> Done(l[p - 1..], lens[l[p - 1] := bits], maxCode, bl, bits, n - 1, max)
  {
    hide LeavesOf;
    var s := l[p - 1..];
    if l[p - 1] > maxCode {
      forall x | 1 <= x <= max
        ensures LeavesOf(s, lens, maxCode, x) == if x > bits then bl[x] else if x == bits then bl[x] - n else 0
      {
        LeavesStep(l, p, lens, maxCode, bits, x);
      }
    } else {
      var lens' := lens[l[p - 1] := bits];
      forall x | 1 <= x <= max
        ensures LeavesOf(s, lens', maxCode, x) == if x > bits then bl[x] else if x == bits then bl[x] - (n - 1) else 0
      {
        LeavesStep(l, p, lens, maxCode, bits, x);
      }
    }
  }

  lemma LeavesStep(l: seq<nat>, p: nat, lens: seq<nat>, maxCode: nat, bits: nat, x: nat)
    requires 1 <= p <= |l| && Distinct(l) && forall i :: 0 <= i < |l| ==> l[i] < |lens|
    ensures l[p - 1] > maxCode ==> LeavesOf(l[p - 1..], lens, maxCode, x) == LeavesOf(l[p..], lens, maxCode, x)
    ensures l[p - 1] <= maxCode ==> LeavesOf(l[p - 1..], lens[l[p - 1] := bits], maxCode, x)
                                    == LeavesOf(l[p..], lens, maxCode, x) + if x == bits then 1 else 0
  {
    var m := l[p - 1];
    var f, g := Is(lens, x), Is(lens[m := bits], x);
    SumOverDrop(l, p - 1, maxCode + 1, f);
    SumOverDrop(l, p - 1, maxCode + 1, g);
    forall y | y in l[p..] && y < maxCode + 1
      ensures f(y) == g(y)
    {
      assert y != m;
    }
    SumOverSame(l[p..], maxCode + 1, f, g);
  }

  lemma RescanBits(l: seq<nat>, p: nat, lens: seq<nat>, maxCode: nat, bl: seq<nat>, bits: nat, max: nat)
    requires Rescanned(l, p, lens, maxCode, bl, bits, 0, max) && 1 <= bits
    ensures Rescanned(l, p, lens, maxCode, bl, bits - 1, if bits == 1 then 0 else bl[bits - 1], max)
  {
  }

  lemma RescanStart(l: seq<nat>, lens: seq<nat>, maxCode: nat, bl: seq<nat>, max: nat)
    requires |bl| == MAXBITS + 1 && 1 <= max <= MAXBITS && maxCode < |lens|
    requires SumOver(l, maxCode + 1, One()) == Total(bl, max)
    ensures Rescanned(l, |l|, lens, maxCode, bl, max, bl[max], max)
  {
    assert l[|l|..] == [] && l[..|l|] == l;
  }

  /** At the end every leaf has been given its final length. */
  lemma RescanDone(l: seq<nat>, p: nat, lens: seq<nat>, maxCode: nat, bl: seq<nat>, max: nat)
    requires Rescanned(l, p, lens, maxCode, bl, 0, 0, max)
    ensures forall x :: 1 <= x <= max ==> LeavesOf(l, lens, maxCode, x) == bl[x]
    ensures forall i :: 0 <= i < p ==> l[i] > maxCode
  {
    SumOverNone(l[..p], maxCode + 1, One(), One());
    forall x | 1 <= x <= max
      ensures LeavesOf(l, lens, maxCode, x) == bl[x]
    {
      SumOverNone(l[..p], maxCode + 1, One(), Is(lens, x));
      SumOverConcat(l[..p], l[p..], maxCode + 1, Is(lens, x));
      assert l[..p] + l[p..] == l;
    }
    forall i | 0 <= i < p
      ensures l[i] > maxCode
    {
      assert l[..p][i] == l[i];
    }
  }

  /** Only the leaves l[p..] have been rewritten, to lengths within the limit. */
  ghost predicate Rewritten(l: seq<nat>, p: nat, was: seq<nat>, lens: seq<nat>, maxCode: nat, max: nat) {
    && p <= |l| && |lens| == |was| && (forall i :: 0 <= i < |l| ==> l[i] < |lens|)
    && (forall i :: p <= i < |l| && l[i] <= maxCode ==> 1 <= lens[l[i]] <= max)
    && forall x :: 0 <= x < |lens| && (x !in l || x > maxCode) ==> lens[x] == was[x]
  }

  /** From p on no leaf has a shorter length than one before it, and none is shorter than bits. */
  ghost predicate Ranked(l: seq<nat>, p: nat, lens: seq<nat>, maxCode: nat, bits: nat) {
    && (forall i :: 0 <= i < |l| ==> l[i] < |lens|)
    && (forall i :: p <= i < |l| && l[i] <= maxCode ==> lens[l[i]] >= bits)
    && forall i, j :: p <= i < j < |l| && l[i] <= maxCode && l[j] <= maxCode ==> lens[l[i]] <= lens[l[j]]
  }

  lemma RankedNext(l: seq<nat>, p: nat, lens: seq<nat>, maxCode: nat, bits: nat)
    requires Ranked(l, p, lens, maxCode, bits) && 1 <= p <= |l| && Distinct(l)
    ensures l[p - 1] < |lens|
    ensures l[p - 1] > maxCode ==> Ranked(l, p - 1, lens, maxCode, bits)
    ensures l[p - 1] <= maxCode ==> Ranked(l, p - 1, lens[l[p - 1] := bits], maxCode, bits)
  {
  }

  lemma RankedBits(l: seq<nat>, p: nat, lens: seq<nat>, maxCode: nat, bits: nat)
    requires Ranked(l, p, lens, maxCode, bits) && bits >= 1
    ensures Ranked(l, p, lens, maxCode, bits - 1)
  {
  }

  /** At the end all leaves are ranked: only inner nodes are before p. */
  lemma RankedAll(l: seq<nat>, p: nat, lens: seq<nat>, maxCode: nat)
    requires Ranked(l, p, lens, maxCode, 0) && forall i :: 0 <= i < p && i < |l| ==> l[i] > maxCode
    ensures Ranked(l, 0, lens, maxCode, 0)
  {
  }

  lemma RankedStart(l: seq<nat>, lens: seq<nat>, maxCode: nat, bits: nat, freq: seq<nat>, desc: StaticDesc)
    requires InArrays(l, freq, maxCode, desc) && |lens| == |freq|
    ensures Ranked(l, |l|, lens, maxCode, bits)
  {
  }

  lemma RewriteStart(l: seq<nat>, was: seq<nat>, maxCode: nat, max: nat, freq: seq<nat>, desc: StaticDesc)
    requires InArrays(l, freq, maxCode, desc) && |was| == |freq|
    ensures Rewritten(l, |l|, was, was, maxCode, max)
    ensures desc.Valid() && maxCode < |was|
  {
  }

  lemma RewriteNodes(l: seq<nat>, p: nat, was: seq<nat>, lens: seq<nat>, maxCode: nat, max: nat, freq: seq<nat>, desc: StaticDesc)
    requires Rewritten(l, p, was, lens, maxCode, max) && InArrays(l, freq, maxCode, desc)
    ensures forall i :: 0 <= i < |l| ==> l[i] < |lens|
    ensures desc.Valid() && maxCode < desc.elems < |freq|
  {
  }

  lemma RewriteDone(l: seq<nat>, p: nat, was: seq<nat>, lens: seq<nat>, maxCode: nat, max: nat)
    requires Rewritten(l, p, was, lens, maxCode, max) && forall i :: 0 <= i < p ==> l[i] > maxCode
    ensures forall x :: x in l && x <= maxCode ==> x < |lens| && 1 <= lens[x] <= max
    ensures |lens| == |was| && forall x :: 0 <= x < |lens| && (x !in l || x > maxCode) ==> lens[x] == was[x]
  {
  }

  lemma RewriteNext(l: seq<nat>, p: nat, was: seq<nat>, lens: seq<nat>, maxCode: nat, max: nat, bits: nat)
    requires Rewritten(l, p, was, lens, maxCode, max) && 1 <= p && 1 <= bits <= max && Distinct(l)
    ensures l[p - 1] < |lens|
    ensures l[p - 1] > maxCode ==> Rewritten(l, p - 1, was, lens, maxCode, max)
    ensures l[p - 1] <= maxCode ==> Rewritten(l, p - 1, was, lens[l[p - 1] := bits], maxCode, max)
  {
  }

  /** What changing one leaf's length does to the total cost. */
  lemma CostChange(freq: seq<nat>, desc: StaticDesc, lens: seq<nat>, maxCode: nat, m: nat, bits: nat)
    requires desc.Valid() && m <= maxCode < desc.elems <= |freq| && |lens| == |freq|
    ensures SumTo(maxCode + 1, Cost(freq, lens[m := bits], desc))
         == SumTo(maxCode + 1, Cost(freq, lens, desc)) + (bits - lens[m]) * freq[m]
  {
    SumChange(maxCode + 1, Cost(freq, lens[m := bits], desc), Cost(freq, lens, desc), m);
    CostDelta(freq[m], bits, lens[m], desc.Xbits(m));
  }

  lemma CostDelta(f: int, a: int, b: int, x: int)
    ensures f * (a + x) - f * (b + x) == (a - b) * f
  {
  }

  /** The result of gen_bitlen: a complete code with one length, within the limit, per leaf. */
  ghost predicate LengthsFor(l: seq<nat>, lens: seq<nat>, maxCode: nat, max: nat, bl: seq<nat>) {
    && maxCode < |lens| && max <= MAXBITS && |bl| == MAXBITS + 1
    && (forall n :: 0 <= n <= maxCode ==> lens[n] <= max && (lens[n] != 0 <==> n in l))
    && Kraft(lens[..maxCode + 1]) == UNIT
    && bl[0] == 0 && forall x :: 1 <= x <= MAXBITS ==> bl[x] == Count(lens[..maxCode + 1], x)
  }

  ghost predicate InRange(s: seq<nat>, max: nat) {
    forall i :: 0 <= i < |s| ==> 1 <= s[i] <= max
  }

  lemma {:induction false} PickRange(l: seq<nat>, d: seq<nat>, maxCode: nat, max: nat)
    requires |d| == |l| && forall i :: 0 <= i < |l| && l[i] <= maxCode ==> 1 <= d[i] <= max
    ensures InRange(Pick(l, d, maxCode, true), max)
  {
    if l != [] {
      PickRange(l[..|l| - 1], d[..|l| - 1], maxCode, max);
    }
  }

  lemma {:induction false} CountOutside(s: seq<nat>, max: nat, x: nat)
    requires InRange(s, max) && (x == 0 || x > max)
    ensures Count(s, x) == 0
  {
    if s != [] { CountOutside(s[..|s| - 1], max, x); }
  }

  lemma {:induction false} PickHas(l: seq<nat>, d: seq<nat>, maxCode: nat, leaf: bool, i: nat)
    requires |d| == |l| && i < |l| && (l[i] <= maxCode) == leaf
    ensures Count(Pick(l, d, maxCode, leaf), d[i]) >= 1
  {
    PickStep(l, d, maxCode, leaf, d[i]);
    if i < |l| - 1 {
      PickHas(l[..|l| - 1], d[..|l| - 1], maxCode, leaf, i);
    }
  }

  lemma {:induction false} PickFinds(l: seq<nat>, d: seq<nat>, maxCode: nat, leaf: bool, x: nat) returns (i: nat)
    requires |d| == |l| && Count(Pick(l, d, maxCode, leaf), x) >= 1
    ensures i < |l| && d[i] == x
  {
    var k := |l| - 1;
    PickStep(l, d, maxCode, leaf, x);
    if d[k] == x {
      i := k;
    } else {
      i := PickFinds(l[..k], d[..k], maxCode, leaf, x);
    }
  }

  /** A node at the limit has an inner node just above the limit among its ancestors. */
  lemma {:induction false} AboveLimit(l: seq<nat>, dad: seq<nat>, maxCode: nat, max: nat, d: seq<nat>, par: seq<nat>, pl: seq<nat>, i: nat)
    returns (j: nat)
    requires TreeList(l, dad, maxCode) && FatherDepths(l, dad, max, d, par, pl) && d[0] == 0 && 1 <= max
    requires i < |l| && d[i] == max
    ensures j < |l| && l[j] > maxCode && d[j] == max - 1
    decreases i
  {
    FatherIsInner(l, dad, maxCode, i);
    if d[par[i]] == max - 1 {
      j := par[i];
    } else {
      DepthsBounded(l, dad, max, d, par, pl);
      j := AboveLimit(l, dad, maxCode, max, d, par, pl, par[i]);
    }
  }

  lemma RootAlone(l: seq<nat>, dad: seq<nat>, maxCode: nat, max: nat, d: seq<nat>, par: seq<nat>, pl: seq<nat>)
    requires TreeList(l, dad, maxCode) && FatherDepths(l, dad, max, d, par, pl) && d[0] == 0 && 1 <= max
    ensures Count(Pick(l, d, maxCode, false), 0) == 1
    ensures forall i :: 1 <= i < |l| ==> 1 <= d[i] <= max
  {
    DepthsBounded(l, dad, max, d, par, pl);
    RootOnly(l, d, maxCode, max);
  }

  lemma RootOnly(l: seq<nat>, d: seq<nat>, maxCode: nat, max: nat)
    requires |l| == |d| >= 1 && l[0] > maxCode && d[0] == 0 && forall i :: 1 <= i < |l| ==> 1 <= d[i] <= max
    ensures Count(Pick(l, d, maxCode, false), 0) == 1
  {
    PickRange(l, d, maxCode, max);
    assert InRange(d[1..], max);
    assert [d[0]] + d[1..] == d;
    hide Pick, Count, InRange;
    PickParts(l, d, maxCode, 0);
    CountOutside(Pick(l, d, maxCode, true), max, 0);
    CountOutside(d[1..], max, 0);
    CountConcat([d[0]], d[1..], 0);
    CountOne(d[0], 0);
  }

  /** The depths of the listed nodes: the root at zero, sons one below their fathers. */
  ghost predicate ListDepths(l: seq<nat>, dad: seq<nat>, dep: nat -> nat) {
    && |l| >= 1 && dep(l[0]) == 0
    && forall i :: 1 <= i < |l| ==> l[i] < |dad| && dep(l[i]) == dep(dad[l[i]]) + 1
  }

  /** The depths cut at the limit. */
  ghost function Cut(l: seq<nat>, dep: nat -> nat, max: nat): (d: seq<nat>)
    ensures |d| == |l| && forall i :: 0 <= i < |l| ==> d[i] == Min(max, dep(l[i]))
  {
    seq(|l|, i requires 0 <= i < |l| => Min(max, dep(l[i])))
  }

  /** How many nodes are deeper than the limit. */
  ghost function Deeper(l: seq<nat>, dep: nat -> nat, max: nat): nat {
    CountIf(|l|, (i: nat) => i < |l| && dep(l[i]) > max)
  }

  lemma {:induction false} CutAt(l: seq<nat>, dad: seq<nat>, max: nat, d: seq<nat>, par: seq<nat>, pl: seq<nat>, dep: nat -> nat, i: nat)
    requires (forall i :: 0 <= i < |l| ==> l[i] < |dad|) && FatherDepths(l, dad, max, d, par, pl) && d[0] == 0
    requires ListDepths(l, dad, dep) && i < |l| && max >= 1
    ensures d[i] == Min(max, dep(l[i])) && (i >= 1 ==> (pl[i] == max <==> dep(l[i]) > max))
  {
    if i > 0 { CutAt(l, dad, max, d, par, pl, dep, par[i]); }
  }

  /** The first pass cuts the depths at the limit, and overflow counts the nodes that were deeper. */
  lemma CutIs(l: seq<nat>, dad: seq<nat>, max: nat, d: seq<nat>, par: seq<nat>, pl: seq<nat>, dep: nat -> nat)
    requires (forall i :: 0 <= i < |l| ==> l[i] < |dad|) && FatherDepths(l, dad, max, d, par, pl) && d[0] == 0
    requires ListDepths(l, dad, dep) && max >= 1
    ensures d == Cut(l, dep, max) && Count(pl[1..], max) == Deeper(l, dep, max)
  {
    forall i | 0 <= i < |l|
      ensures d[i] == Min(max, dep(l[i])) && (i >= 1 ==> (pl[i] == max <==> dep(l[i]) > max))
    {
      CutAt(l, dad, max, d, par, pl, dep, i);
    }
    hide FatherDepths, Min, Count;
    var p := (i: nat) => i < |l| && dep(l[i]) > max;
    CountedAs(pl, max, |l|, p);
    assert pl[1..|l|] == pl[1..];
  }

  lemma {:induction false} CountedAs(pl: seq<nat>, max: nat, n: nat, p: nat -> bool)
    requires 1 <= n <= |pl| && !p(0) && forall i: nat :: 1 <= i < n ==> (p(i) <==> pl[i] == max)
    ensures Count(pl[1..n], max) == CountIf(n, p)
  {
    if n == 1 {
      assert pl[1..1] == [];
      CountNone(1, p);
    } else {
      CountedAs(pl, max, n - 1, p);
      assert pl[1..n] == pl[1..n - 1] + [pl[n - 1]];
      CountConcat(pl[1..n - 1], [pl[n - 1]], max);
      CountOne(pl[n - 1], max);
    }
  }

  /** Where nothing is deeper than the limit, nothing is cut. */
  lemma NotCut(l: seq<nat>, dep: nat -> nat, max: nat)
    requires Deeper(l, dep, max) == 0
    ensures forall i :: 0 <= i < |l| ==> dep(l[i]) <= max && Cut(l, dep, max)[i] == dep(l[i])
  {
    hide CountIf;
    var p := (i: nat) => i < |l| && dep(l[i]) > max;
    forall i | 0 <= i < |l|
      ensures dep(l[i]) <= max
    {
      NotCounted(|l|, p, i);
    }
  }

  lemma {:induction false} NotCounted(n: nat, p: nat -> bool, i: nat)
    requires CountIf(n, p) == 0 && i < n
    ensures !p(i)
  {
    if i < n - 1 { NotCounted(n - 1, p, i); }
  }

  lemma NoneDeeper(l: seq<nat>, dep: nat -> nat, max: nat)
    requires forall i :: 0 <= i < |l| ==> dep(l[i]) <= max
    ensures Deeper(l, dep, max) == 0
  {
    CountNone(|l|, (i: nat) => i < |l| && dep(l[i]) > max);
  }

  /** The weight of the limited depths, and the overflow that goes with it. */
  lemma OverflowMeans(l: seq<nat>, dad: seq<nat>, maxCode: nat, max: nat, d: seq<nat>, par: seq<nat>, pl: seq<nat>, bl: seq<nat>)
    requires TreeList(l, dad, maxCode) && FatherDepths(l, dad, max, d, par, pl) && d[0] == 0 && 1 <= max <= MAXBITS
    requires CountsOf(bl, Pick(l, d, maxCode, true), max)
    ensures Count(pl[1..], max) == 2 * (Weight(bl, max, max) - Pow2(max))
    ensures Count(pl[1..], max) > 0 ==> bl[max] > Weight(bl, max, max) - Pow2(max)
  {
    var leaves, inner := Pick(l, d, maxCode, true), Pick(l, d, maxCode, false);
    RootAlone(l, dad, maxCode, max, d, par, pl);
    forall x | 1 <= x <= max
      ensures Count(leaves, x) + Count(inner, x) == 2 * Count(inner, x - 1) + if x == max then 2 * Count(inner, max) else 0
    {
      Levels(l, dad, maxCode, max, d, par, pl, x);
    }
    assert Count(pl[1..], max) == 2 * Count(inner, max) by { Levels(l, dad, maxCode, max, d, par, pl, 1); }
    WeightLimited(leaves, inner, bl, max);
    if Count(inner, max) > 0 {
      var i := PickFinds(l, d, maxCode, false, max);
      var j := AboveLimit(l, dad, maxCode, max, d, par, pl, i);
      PickHas(l, d, maxCode, false, j);
    }
  }

  /** What the first pass leaves for the repair: overflow is twice the excess
      weight, and the counts are those of the leaves. */
  ghost predicate Repairable(l: seq<nat>, lens: seq<nat>, maxCode: nat, max: nat, bl: seq<nat>, overflow: nat) {
    && maxCode < |lens| && 1 <= max <= MAXBITS && |bl| == MAXBITS + 1 && Distinct(l)
    && overflow == 2 * (Weight(bl, max, max) - Pow2(max))
    && (overflow > 0 ==> bl[max] > Weight(bl, max, max) - Pow2(max))
    && SumOver(l, maxCode + 1, One()) == Total(bl, max) <= Pow2(max)
    && bl[0] == 0 && (forall x :: max < x <= MAXBITS ==> bl[x] == 0)
    && (forall x :: 1 <= x <= max ==> LeavesOf(l, lens, maxCode, x) == bl[x])
    && (forall n :: 0 <= n <= maxCode ==> if n in l then 1 <= lens[n] <= max else lens[n] == 0)
  }

  lemma FirstPassMeans(l: seq<nat>, dad: seq<nat>, freq: seq<nat>, desc: StaticDesc, maxCode: nat, lens: seq<nat>,
                       d: seq<nat>, par: seq<nat>, pl: seq<nat>, bl: seq<nat>)
    requires TreeList(l, dad, maxCode) && InArrays(l, freq, maxCode, desc) && |lens| == |freq|
    requires |d| == |l| && Assigned(l, dad, lens, desc.maxLength, d, par, pl)
    requires CountsOf(bl, Pick(l, d, maxCode, true), desc.maxLength)
    requires forall n :: 0 <= n <= maxCode && n !in l ==> dad[n] == 0
    requires SumTo(maxCode + 1, One()) <= Pow2(desc.maxLength)
    ensures Repairable(l, lens, maxCode, desc.maxLength, bl, Count(pl[1..], desc.maxLength))
  {
    hide TreeList, CountsOf, Pick, Weight, Total, Count, LeavesOf, FatherDepths, SumOver, SumTo, Pow2;
    var max := desc.maxLength;
    NodesSized(l, dad, freq, desc, maxCode, lens, d, par, pl);
    OverflowMeans(l, dad, maxCode, max, d, par, pl, bl);
    RootAlone(l, dad, maxCode, max, d, par, pl);
    LeavesMean(l, dad, maxCode, max, d, bl, lens);
  }

  lemma LeavesMean(l: seq<nat>, dad: seq<nat>, maxCode: nat, max: nat, d: seq<nat>, bl: seq<nat>, lens: seq<nat>)
    requires |d| == |l| >= 1 && l[0] > maxCode && Distinct(l) && max <= MAXBITS
    requires forall i :: 0 <= i < |l| ==> l[i] < |lens| && lens[l[i]] == d[i]
    requires forall i :: 1 <= i < |l| ==> 1 <= d[i] <= max
    requires CountsOf(bl, Pick(l, d, maxCode, true), max)
    requires SumTo(maxCode + 1, One()) <= Pow2(max)
    ensures |bl| == MAXBITS + 1 && SumOver(l, maxCode + 1, One()) == Total(bl, max) <= Pow2(max)
    ensures bl[0] == 0 && forall x :: max < x <= MAXBITS ==> bl[x] == 0
    ensures forall x :: 1 <= x <= max ==> LeavesOf(l, lens, maxCode, x) == bl[x]
    ensures forall n :: n in l && n <= maxCode ==> 1 <= lens[n] <= max
  {
    PickRange(l, d, maxCode, max);
    TotalCounts(bl, Pick(l, d, maxCode, true), max);
    CountsZero(bl, Pick(l, d, maxCode, true), max);
    hide CountsOf, InRange, Pick, Total, SumTo, SumOver, LeavesOf, Pow2;
    PickLeaves(l, d, lens, maxCode, 0);
    SymbolsAtMost(l, maxCode + 1);
    ByList(l, d, lens, maxCode, max, bl);
  }

  lemma CountsZero(bl: seq<nat>, leaves: seq<nat>, max: nat)
    requires CountsOf(bl, leaves, max) && InRange(leaves, max)
    ensures bl[0] == 0 && forall x :: max < x <= MAXBITS ==> bl[x] == 0
  {
    forall x | x == 0 || max < x <= MAXBITS
      ensures bl[x] == 0
    {
      CountOutside(leaves, max, x);
    }
  }

  lemma ByList(l: seq<nat>, d: seq<nat>, lens: seq<nat>, maxCode: nat, max: nat, bl: seq<nat>)
    requires |d| == |l| && forall i :: 0 <= i < |l| ==> l[i] < |lens| && lens[l[i]] == d[i]
    requires CountsOf(bl, Pick(l, d, maxCode, true), max) && max <= MAXBITS
    ensures forall x :: 1 <= x <= max ==> LeavesOf(l, lens, maxCode, x) == bl[x]
  {
    forall x | 1 <= x <= max
      ensures LeavesOf(l, lens, maxCode, x) == bl[x]
    {
      PickLeaves(l, d, lens, maxCode, x);
    }
  }

  lemma NodesSized(l: seq<nat>, dad: seq<nat>, freq: seq<nat>, desc: StaticDesc, maxCode: nat, lens: seq<nat>,
                   d: seq<nat>, par: seq<nat>, pl: seq<nat>)
    requires TreeList(l, dad, maxCode) && |d| == |l| && Assigned(l, dad, lens, desc.maxLength, d, par, pl)
    ensures Distinct(l) && forall i :: 0 <= i < |l| ==> l[i] < |lens| && lens[l[i]] == d[i]
    ensures forall x :: 0 <= x < |lens| && x !in l ==> lens[x] == dad[x]
    ensures |l| >= 1 && l[0] > maxCode && d[0] == 0 && (forall i :: 0 <= i < |l| ==> l[i] < |dad|)
    ensures FatherDepths(l, dad, desc.maxLength, d, par, pl)
  {
    assert l[..|d|] == l;
  }

  lemma SymbolsAtMost(l: seq<nat>, n: nat)
    requires Distinct(l)
    ensures SumOver(l, n, One()) <= SumTo(n, One())
  {
    var g := (x: nat) => if x in l then 1 else 0;
    SumByList(l, n, g);
    SumOverSame(l, n, One(), g);
    SumAtMost(n, g, One());
  }

  /** Costs by list are costs by symbol. */
  lemma CostsBySymbol(l: seq<nat>, freq: seq<nat>, desc: StaticDesc, maxCode: nat, d: seq<nat>, lens: seq<nat>)
    requires InArrays(l, freq, maxCode, desc) && |lens| == |freq| && |d| == |l| && Distinct(l)
    requires forall i :: 0 <= i < |l| ==> lens[l[i]] == d[i]
    requires forall n :: 0 <= n <= maxCode && n !in l ==> freq[n] == 0
    ensures PosCost(freq, desc, l, d, maxCode) == SumTo(maxCode + 1, Cost(freq, lens, desc))
    ensures StaticCost(freq, desc, l, maxCode) == if |desc.stree| == 0 then 0 else SumTo(maxCode + 1, Cost(freq, desc.stree, desc))
  {
    PosCostIs(freq, desc, l, d, maxCode, lens);
    SumByList(l, maxCode + 1, Cost(freq, lens, desc));
    SumByList(l, maxCode + 1, Cost(freq, desc.stree, desc));
  }

  lemma {:induction false} KraftOf(lens: seq<nat>, bl: seq<nat>, max: nat, k: nat)
    requires 1 <= max <= MAXBITS && |bl| == MAXBITS + 1 && k <= MAXBITS
    requires forall x :: 1 <= x <= MAXBITS ==> bl[x] == Count(lens, x)
    requires forall x :: max < x <= MAXBITS ==> bl[x] == 0
    ensures StartOf(lens, k + 1) == Weight(bl, if k <= max then k else max, max) * Pow2(MAXBITS - max)
  {
    if k > 0 {
      KraftOf(lens, bl, max, k - 1);
      if k <= max {
        Pow2Add(max - k, MAXBITS - max);
        MulAssoc(bl[k], Pow2(max - k), Pow2(MAXBITS - max));
        Distribute(Weight(bl, k - 1, max), bl[k] * Pow2(max - k), Pow2(MAXBITS - max));
      }
    }
  }

  /** Counts by list are counts by symbol; a weight of one is a complete code. */
  lemma KraftComplete(l: seq<nat>, lens: seq<nat>, maxCode: nat, max: nat, bl: seq<nat>)
    requires 1 <= max <= MAXBITS && maxCode < |lens| && |bl| == MAXBITS + 1 && Distinct(l)
    requires forall x :: 1 <= x <= max ==> LeavesOf(l, lens, maxCode, x) == bl[x]
    requires bl[0] == 0 && forall x :: max < x <= MAXBITS ==> bl[x] == 0
    requires forall n :: 0 <= n <= maxCode ==> if n in l then 1 <= lens[n] <= max else lens[n] == 0
    requires Weight(bl, max, max) == Pow2(max)
    ensures LengthsFor(l, lens, maxCode, max, bl)
  {
    forall x | 1 <= x <= MAXBITS
      ensures bl[x] == Count(lens[..maxCode + 1], x)
    {
      CountIsSum(lens, maxCode + 1, x);
      if x <= max {
        SumByList(l, maxCode + 1, Is(lens, x));
      } else {
        SumZero(maxCode + 1, Is(lens, x));
      }
    }
    KraftOf(lens[..maxCode + 1], bl, max, MAXBITS);
    Pow2Add(max, MAXBITS - max);
    Pow2Values();
  }

  lemma CountEmpty(x: nat)
    ensures Count([], x) == 0
  {
  }

  lemma LimitSome(l: seq<nat>, freq: seq<nat>, maxCode: nat, desc: StaticDesc)
    requires InArrays(l, freq, maxCode, desc)
    ensures 1 <= desc.maxLength <= MAXBITS
  {
  }

  lemma LimitedMin(max: nat, p: nat)
    ensures Min(max, p + 1) <= max
  {
  }

  class HuffState {
    const heap: array<nat>
    const depth: array<nat>
    const blCount: array<nat>
    var heapLen: nat
    var heapMax: nat
    var optLen: int
    var staticLen: int

    constructor ()
      ensures fresh(heap) && fresh(depth) && fresh(blCount) && Separate()
    {
      heap := new nat[HEAP_SIZE];
      depth := new nat[HEAP_SIZE];
      blCount := new nat[MAXBITS + 1];
      heapLen, heapMax, optLen, staticLen := 0, HEAP_SIZE, 0, 0;
    }

    ghost predicate Separate()
      reads this
    {
      && heap.Length == HEAP_SIZE && depth.Length == HEAP_SIZE && blCount.Length == MAXBITS + 1
      && heap != depth && heap != blCount && depth != blCount
    }

    ghost predicate Apart(fc: array<nat>, dl: array<nat>)
      reads this
    {
      && fc != dl && fc.Length == dl.Length
      && fc != heap && fc != depth && fc != blCount && dl != heap && dl != depth && dl != blCount
    }

    /** The nodes sorted by decreasing frequency, root first. */
    ghost function List(): seq<nat>
      reads this, heap
      requires heapMax <= heap.Length
    {
      heap[heapMax..]
    }

    /** Compute the limited depths of the nodes, root first; dl turns from father links into lengths. */
    method FirstPass(fc: array<nat>, dl: array<nat>, desc: StaticDesc, maxCode: nat)
      returns (overflow: nat, ghost d: seq<nat>, ghost par: seq<nat>, ghost pl: seq<nat>)
      requires Separate() && Apart(fc, dl) && heapMax < HEAP_SIZE
      requires TreeList(List(), dl[..], maxCode) && InArrays(List(), fc[..], maxCode, desc)
      modifies `optLen, `staticLen, blCount, dl
      ensures |d| == |List()| && Assigned(List(), old(dl[..]), dl[..], desc.maxLength, d, par, pl)
      ensures CountsOf(blCount[..], Pick(List(), d, maxCode, true), desc.maxLength)
      ensures overflow == Count(pl[1..], desc.maxLength)
      ensures optLen == old(optLen) + PosCost(fc[..], desc, List(), d, maxCode)
      ensures staticLen == old(staticLen) + StaticCost(fc[..], desc, List(), maxCode)
    {
      hide Assigned, TreeList, CountsOf, Pick, PosCost, SumOver, Cost, Count;
      ghost var l, dad, freq := List(), dl[..], fc[..];
      ClearCounts();
      overflow := 0;
      dl[heap[heapMax]] := 0;
      FirstNode(l, dad, desc.maxLength, maxCode, blCount[..], freq, desc, Cost(freq, desc.stree, desc));
      overflow, d, par, pl := LimitDepths(fc, dl, desc, maxCode, l, dad, freq);
      assert l[..|l|] == l;
    }

    method ClearCounts()
      requires Separate()
      modifies blCount
      ensures forall b :: 0 <= b <= MAXBITS ==> blCount[b] == 0
    {
      for bits := 0 to MAXBITS + 1
        invariant forall b :: 0 <= b < bits ==> blCount[b] == 0
      {
        blCount[bits] := 0;
      }
    }

    /** The loop of the first pass, from the node after the root. */
    method LimitDepths(fc: array<nat>, dl: array<nat>, desc: StaticDesc, maxCode: nat, ghost l: seq<nat>, ghost dad: seq<nat>, ghost freq: seq<nat>)
      returns (overflow: nat, ghost d: seq<nat>, ghost par: seq<nat>, ghost pl: seq<nat>)
      requires Separate() && Apart(fc, dl) && heapMax < HEAP_SIZE && fc[..] == freq && heap[heapMax..] == l
      requires TreeList(l, dad, maxCode) && InArrays(l, freq, maxCode, desc) && |dad| == dl.Length
      requires Assigned(l, dad, dl[..], desc.maxLength, [0], [0], [0])
      requires Totals(l, freq, desc, maxCode, [0], blCount[..], 0, 0)
      modifies `optLen, `staticLen, blCount, dl
      ensures |d| == |l| && Assigned(l, dad, dl[..], desc.maxLength, d, par, pl)
      ensures Totals(l, freq, desc, maxCode, d, blCount[..], optLen - old(optLen), staticLen - old(staticLen))
      ensures |pl| >= 1 && overflow == Count(pl[1..], desc.maxLength)
    {
      hide Assigned, Totals, TreeList, InArrays, Count;
      ghost var opt0, stat0 := optLen, staticLen;
      d, par, pl := [0], [0], [0];
      overflow := 0;
      assert [0][1..] == [];
      CountEmpty(desc.maxLength);
      for h := heapMax + 1 to HEAP_SIZE
        invariant |d| == h - heapMax && fc[..] == freq && |pl| >= 1
        invariant Assigned(l, dad, dl[..], desc.maxLength, d, par, pl)
        invariant Totals(l, freq, desc, maxCode, d, blCount[..], optLen - opt0, staticLen - stat0)
        invariant overflow == Count(pl[1..], desc.maxLength)
      {
        assert heap[h] == l[|d|];
        overflow, d, par, pl := LimitNext(fc, dl, desc, maxCode, heap[h], overflow, l, dad, freq, d, par, pl, optLen - opt0, staticLen - stat0);
      }
    }

    /** Compute the optimal bit lengths for a tree, limit them, and add up its cost: the leaves' depths,
        cut at the limit and repaired if over nodes are deeper; no leaf behind another in the list, which
        is at most as frequent, gets a shorter length. */
    method GenBitlen(fc: array<nat>, dl: array<nat>, desc: StaticDesc, maxCode: nat, ghost dep: nat -> nat)
      returns (ghost over: nat, ghost cut: seq<nat>)
      requires Separate() && Apart(fc, dl) && heapMax < HEAP_SIZE
      requires TreeList(List(), dl[..], maxCode) && InArrays(List(), fc[..], maxCode, desc)
      requires forall n :: 0 <= n <= maxCode && n !in List() ==> dl[n] == 0 && fc[n] == 0
      requires SumTo(maxCode + 1, One()) <= Pow2(desc.maxLength)
      requires ListDepths(List(), dl[..], dep)
      modifies `optLen, `staticLen, blCount, dl
      ensures LengthsFor(List(), dl[..], maxCode, desc.maxLength, blCount[..])
      ensures forall x :: maxCode < x < dl.Length && x !in List() ==> dl[x] == old(dl[x])
      ensures optLen == old(optLen) + SumTo(maxCode + 1, Cost(fc[..], dl[..], desc))
      ensures staticLen == old(staticLen) + if |desc.stree| == 0 then 0 else SumTo(maxCode + 1, Cost(fc[..], desc.stree, desc))
      ensures over == Deeper(List(), dep, desc.maxLength)
      ensures CountsOf(cut, Pick(List(), Cut(List(), dep, desc.maxLength), maxCode, true), desc.maxLength)
      ensures blCount[..] == Repaired(cut, desc.maxLength, over / 2)
      ensures over == 0 ==> forall i :: 0 <= i < |List()| && List()[i] <= maxCode && List()[i] < dl.Length ==> dl[List()[i]] == dep(List()[i])
      ensures over > 0 ==> Ranked(List(), 0, dl[..], maxCode, 0)
    {
      hide TreeList, Assigned, FatherDepths, CountsOf, Pick, PosCost, StaticCost, Repairable, LengthsFor, InArrays, SumTo, Cost, Pow2;
      hide ListDepths, Cut, Deeper, Repaired, Ranked;
      ghost var l, freq, dad := List(), fc[..], dl[..];
      var overflow;
      ghost var d, par, pl;
      overflow, d, par, pl := FirstPass(fc, dl, desc, maxCode);
      over, cut := overflow, blCount[..];
      NodesSized(l, dad, freq, desc, maxCode, dl[..], d, par, pl);
      CutIs(l, dad, desc.maxLength, d, par, pl, dep) by { LimitSome(l, freq, maxCode, desc); }
      if over == 0 { NotCut(l, dep, desc.maxLength); }
      FirstPassMeans(l, dad, freq, desc, maxCode, dl[..], d, par, pl, blCount[..]);
      CostsBySymbol(l, freq, desc, maxCode, d, dl[..]);
      LimitLengths(fc, dl, desc, maxCode, overflow);
    }

    /** Repair overflowing lengths, if there are any. */
    method LimitLengths(fc: array<nat>, dl: array<nat>, desc: StaticDesc, maxCode: nat, overflow: nat)
      requires Separate() && Apart(fc, dl) && heapMax < HEAP_SIZE && InArrays(List(), fc[..], maxCode, desc)
      requires Repairable(List(), dl[..], maxCode, desc.maxLength, blCount[..], overflow)
      modifies `optLen, blCount, dl
      ensures LengthsFor(List(), dl[..], maxCode, desc.maxLength, blCount[..])
      ensures forall x :: maxCode < x < dl.Length ==> dl[x] == old(dl[x])
      ensures optLen - old(optLen) == SumTo(maxCode + 1, Cost(fc[..], dl[..], desc))
                                    - SumTo(maxCode + 1, Cost(fc[..], old(dl[..]), desc))
      ensures blCount[..] == Repaired(old(blCount[..]), desc.maxLength, overflow / 2)
      ensures if overflow == 0 then dl[..] == old(dl[..]) else Ranked(List(), 0, dl[..], maxCode, 0)
    {
      hide Weight, Total, LeavesOf, LengthsFor, SumTo, SumOver, Cost, Pow2, InArrays, Repaired, Ranked;
      if overflow > 0 {
        Repair(blCount, desc.maxLength, overflow);
        SecondPass(fc, dl, desc, maxCode);
      } else {
        RepairedNone(blCount[..], desc.maxLength);
      }
      KraftComplete(List(), dl[..], maxCode, desc.maxLength, blCount[..]);
    }

    /** One turn: the next node gets its length, and the totals take it in. */
    method LimitNext(fc: array<nat>, dl: array<nat>, desc: StaticDesc, maxCode: nat, n: nat, overflow0: nat,
                     ghost l: seq<nat>, ghost dad: seq<nat>, ghost freq: seq<nat>,
                     ghost d0: seq<nat>, ghost par0: seq<nat>, ghost pl0: seq<nat>, ghost opt: int, ghost stat: int)
      returns (overflow: nat, ghost d: seq<nat>, ghost par: seq<nat>, ghost pl: seq<nat>)
      requires Separate() && Apart(fc, dl) && fc[..] == freq && |dad| == dl.Length
      requires TreeList(l, dad, maxCode) && |d0| < |l| && n == l[|d0|] && |pl0| >= 1
      requires Assigned(l, dad, dl[..], desc.maxLength, d0, par0, pl0)
      requires Totals(l, freq, desc, maxCode, d0, blCount[..], opt, stat)
      requires overflow0 == Count(pl0[1..], desc.maxLength)
      modifies `optLen, `staticLen, blCount, dl
      ensures |d| == |d0| + 1 && |pl| >= 1
      ensures Assigned(l, dad, dl[..], desc.maxLength, d, par, pl)
      ensures Totals(l, freq, desc, maxCode, d, blCount[..], opt + optLen - old(optLen), stat + staticLen - old(staticLen))
      ensures overflow == Count(pl[1..], desc.maxLength)
    {
      hide Assigned, Totals, TreeList, InArrays, LeafCost, BumpIf, Min, Count;
      ghost var j := NextNode(l, dad, dl[..], desc.maxLength, d0, par0, pl0, maxCode);
      OverflowNext(pl0, d0[j], desc.maxLength);
      LimitedMin(desc.maxLength, d0[j]);
      ghost var b := Min(desc.maxLength, d0[j] + 1);
      ghost var bl, opt', stat' := TotalsNext(l, freq, desc, maxCode, d0, blCount[..], opt, stat, b);
      overflow := LimitOne(fc, dl, desc, maxCode, n, overflow0, d0[j], b, freq);
      d, par, pl := d0 + [b], par0 + [j], pl0 + [d0[j]];
      assert blCount[..] == bl && opt' == opt + optLen - old(optLen) && stat' == stat + staticLen - old(staticLen);
    }

    /** One turn of the first pass: node n gets one more than its father's length p, within the limit. */
    method LimitOne(fc: array<nat>, dl: array<nat>, desc: StaticDesc, maxCode: nat, n: nat, overflow0: nat,
                    ghost p: nat, ghost b: nat, ghost freq: seq<nat>)
      returns (overflow: nat)
      requires fc[..] == freq && Separate() && Apart(fc, dl) && desc.Valid() && maxCode < desc.elems < fc.Length
      requires n < dl.Length && dl[n] < dl.Length && dl[dl[n]] == p <= desc.maxLength && b == Min(desc.maxLength, p + 1)
      modifies `optLen, `staticLen, blCount, dl
      ensures dl[..] == old(dl[..])[n := b]
      ensures blCount[..] == BumpIf(old(blCount[..]), n <= maxCode, b)
      ensures overflow == overflow0 + if p == desc.maxLength then 1 else 0
      ensures optLen == old(optLen) + if n <= maxCode then LeafCost(freq, b, desc, n) else 0
      ensures staticLen == old(staticLen)
        + if n <= maxCode && |desc.stree| != 0 then LeafCost(freq, desc.stree[n], desc, n) else 0
    {
      overflow := overflow0;
      var bits := dl[dl[n]] + 1;
      if bits > desc.maxLength {
        bits := desc.maxLength;
        overflow := overflow + 1;
      }
      dl[n] := bits;
      if n <= maxCode {
        blCount[bits] := blCount[bits] + 1;
        var xbits := 0;
        if n >= desc.base {
          xbits := desc.extra[n - desc.base];
        }
        var f := fc[n];
        optLen := optLen + f * (bits + xbits);
        if |desc.stree| != 0 {
          staticLen := staticLen + f * (desc.stree[n] + xbits);
        }
      }
    }

    method SetLength(fc: array<nat>, dl: array<nat>, m: nat, bits: nat, ghost lens: seq<nat>, ghost freq: seq<nat>)
      requires fc.Length == dl.Length && m < dl.Length && dl[..] == lens && fc[..] == freq && dl != fc
      modifies `optLen, dl
      ensures dl[..] == lens[m := bits]
      ensures optLen == old(optLen) + (bits - lens[m]) * freq[m]
    {
      if dl[m] != bits {
        optLen := optLen + (bits - dl[m]) * fc[m];
        dl[m] := bits;
      }
    }

    /** Recompute all bit lengths, scanning in increasing frequency. */
    method SecondPass(fc: array<nat>, dl: array<nat>, desc: StaticDesc, maxCode: nat)
      requires Separate() && Apart(fc, dl) && heapMax < HEAP_SIZE
      requires Distinct(List()) && InArrays(List(), fc[..], maxCode, desc)
      requires SumOver(List(), maxCode + 1, One()) == Total(blCount[..], desc.maxLength)
      modifies `optLen, dl
      ensures forall x :: 1 <= x <= desc.maxLength ==> LeavesOf(List(), dl[..], maxCode, x) == blCount[x]
      ensures forall x :: 0 <= x < dl.Length && (x !in List() || x > maxCode) ==> dl[x] == old(dl[x])
      ensures forall x :: x in List() && x <= maxCode ==> 1 <= dl[x] <= desc.maxLength
      ensures Ranked(List(), 0, dl[..], maxCode, 0)
      ensures optLen - old(optLen) == SumTo(maxCode + 1, Cost(fc[..], dl[..], desc))
                                    - SumTo(maxCode + 1, Cost(fc[..], old(dl[..]), desc))
    {
      hide Rescanned, Rewritten, Ranked, LeavesOf, Total, SumTo, SumOver, InArrays;
      ghost var l, freq, was, bl := List(), fc[..], dl[..], blCount[..];
      var h := HEAP_SIZE;
      RewriteStart(l, was, maxCode, desc.maxLength, freq, desc);
      RescanStart(l, was, maxCode, bl, desc.maxLength);
      RankedStart(l, was, maxCode, desc.maxLength, freq, desc);
      var bits: nat := desc.maxLength;
      while bits != 0
        invariant bits <= desc.maxLength && heapMax <= h <= HEAP_SIZE
        invariant fc[..] == freq && blCount[..] == bl
        invariant Rescanned(l, h - heapMax, dl[..], maxCode, bl, bits, if bits == 0 then 0 else bl[bits], desc.maxLength)
        invariant Rewritten(l, h - heapMax, was, dl[..], maxCode, desc.maxLength)
        invariant Ranked(l, h - heapMax, dl[..], maxCode, bits)
        invariant optLen - old(optLen) == SumTo(maxCode + 1, Cost(freq, dl[..], desc)) - SumTo(maxCode + 1, Cost(freq, was, desc))
      {
        h := GiveLength(fc, dl, desc, maxCode, h, bits, blCount[bits], l, was, freq);
        RescanBits(l, h - heapMax, dl[..], maxCode, bl, bits, desc.maxLength);
        RankedBits(l, h - heapMax, dl[..], maxCode, bits);
        bits := bits - 1;
      }
      RescanDone(l, h - heapMax, dl[..], maxCode, bl, desc.maxLength);
      RankedAll(l, h - heapMax, dl[..], maxCode);
      RewriteDone(l, h - heapMax, was, dl[..], maxCode, desc.maxLength);
    }

    /** Give length bits to the next n leaves from the end. */
    method GiveLength(fc: array<nat>, dl: array<nat>, desc: StaticDesc, maxCode: nat, h0: nat, bits: nat, n0: nat,
                      ghost l: seq<nat>, ghost was: seq<nat>, ghost freq: seq<nat>) returns (h: nat)
      requires Separate() && Apart(fc, dl) && heapMax <= h0 <= HEAP_SIZE && l == List() && freq == fc[..]
      requires Distinct(l) && InArrays(l, freq, maxCode, desc) && 1 <= bits <= desc.maxLength
      requires Rescanned(l, h0 - heapMax, dl[..], maxCode, blCount[..], bits, n0, desc.maxLength)
      requires Rewritten(l, h0 - heapMax, was, dl[..], maxCode, desc.maxLength)
      requires Ranked(l, h0 - heapMax, dl[..], maxCode, bits)
      modifies `optLen, dl
      ensures heapMax <= h <= HEAP_SIZE
      ensures Rescanned(l, h - heapMax, dl[..], maxCode, blCount[..], bits, 0, desc.maxLength)
      ensures Rewritten(l, h - heapMax, was, dl[..], maxCode, desc.maxLength)
      ensures Ranked(l, h - heapMax, dl[..], maxCode, bits)
      ensures optLen - old(optLen) == SumTo(maxCode + 1, Cost(freq, dl[..], desc)) - SumTo(maxCode + 1, Cost(freq, old(dl[..]), desc))
    {
      hide Rescanned, Rewritten, Ranked, LeavesOf, Total, SumTo, SumOver, InArrays, Cost;
      ghost var bl := blCount[..];
      h := h0;
      var n: nat := n0;
      while n != 0
        invariant heapMax <= h <= HEAP_SIZE && fc[..] == freq
        invariant Rescanned(l, h - heapMax, dl[..], maxCode, bl, bits, n, desc.maxLength)
        invariant Rewritten(l, h - heapMax, was, dl[..], maxCode, desc.maxLength)
        invariant Ranked(l, h - heapMax, dl[..], maxCode, bits)
        invariant optLen - old(optLen) == SumTo(maxCode + 1, Cost(freq, dl[..], desc)) - SumTo(maxCode + 1, Cost(freq, old(dl[..]), desc))
        decreases h
      {
        ghost var lens := dl[..];
        RewriteNodes(l, h - heapMax, was, lens, maxCode, desc.maxLength, freq, desc);
        RescanNext(l, h - heapMax, lens, maxCode, bl, bits, n, desc.maxLength);
        RewriteNext(l, h - heapMax, was, lens, maxCode, desc.maxLength, bits);
        RankedNext(l, h - heapMax, lens, maxCode, bits);
        h := h - 1;
        var m := heap[h];
        assert m == l[h - heapMax];
        if m > maxCode {
          continue;
        }
        CostChange(freq, desc, lens, maxCode, m, bits);
        SetLength(fc, dl, m, bits, lens, freq);
        n := n - 1;
      }
    }
  }
}
