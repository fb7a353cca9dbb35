/** The forest that build_tree keeps while it combines the two least frequent
    nodes: live roots in the heap, finished nodes in the order they left it. */
module Forests {
  import opened Canonical
  import opened Sums
  import opened TreeShape

  /** Sum of the listed nodes' frequencies. */
  ghost function FreqSum(s: seq<nat>, freq: seq<nat>): nat {
    if s == [] then 0 else FreqSum(s[..|s| - 1], freq) + FreqOf(freq, s[|s| - 1])
  }

  function FreqOf(freq: seq<nat>, n: nat): nat {
    if n < |freq| then freq[n] else 0
  }

  /** The height of the subtree below a node. */
  function HeightOf(deep: seq<nat>, n: nat): nat {
    if n < |deep| then deep[n] else 0
  }

  /** x may leave the heap before y: rarer, or as rare and not higher. */
  predicate Sooner(freq: seq<nat>, deep: seq<nat>, x: nat, y: nat) {
    FreqOf(freq, x) < FreqOf(freq, y) || (FreqOf(freq, x) == FreqOf(freq, y) && HeightOf(deep, x) <= HeightOf(deep, y))
  }

  lemma {:induction false} FreqSumConcat(a: seq<nat>, b: seq<nat>, freq: seq<nat>)
    ensures FreqSum(a + b, freq) == FreqSum(a, freq) + FreqSum(b, freq)
  {
    if b == [] {
      assert a + b == a;
    } else {
      FreqSumConcat(a, b[..|b| - 1], freq);
      assert (a + b)[..|a + b| - 1] == a + b[..|b| - 1];
    }
  }

  lemma FreqSumOne(x: nat, freq: seq<nat>)
    ensures FreqSum([x], freq) == FreqOf(freq, x)
  {
    assert [x][..0] == [];
  }

  /** The sum does not depend on the order of the list. */
  lemma {:induction false} FreqSumPermuted(s: seq<nat>, t: seq<nat>, freq: seq<nat>)
    requires multiset(s) == multiset(t)
    ensures FreqSum(s, freq) == FreqSum(t, freq)
    decreases |s|
  {
    assert |multiset(s)| == |s| && |multiset(t)| == |t|;
    if s != [] {
      var n := |s| - 1;
      var x := s[n];
      assert x in multiset(s);
      var k :| 0 <= k < |t| && t[k] == x;
      assert s == s[..n] + [x];
      Without(t, k);
      FreqSumPermuted(s[..n], t[..k] + t[k + 1..], freq);
      FreqSumWithout(t, k, freq);
    }
  }

  lemma Without(t: seq<nat>, k: nat)
    requires k < |t|
    ensures multiset(t[..k] + t[k + 1..]) == multiset(t) - multiset{t[k]}
  {
    assert t == t[..k] + [t[k]] + t[k + 1..];
  }

  lemma FreqSumWithout(t: seq<nat>, k: nat, freq: seq<nat>)
    requires k < |t|
    ensures FreqSum(t, freq) == FreqSum(t[..k] + t[k + 1..], freq) + FreqOf(freq, t[k])
  {
    FreqSumConcat(t[..k], [t[k]] + t[k + 1..], freq);
    FreqSumConcat([t[k]], t[k + 1..], freq);
    assert t[..k] + ([t[k]] + t[k + 1..]) == t;
    FreqSumConcat(t[..k], t[k + 1..], freq);
    FreqSumOne(t[k], freq);
  }

  lemma {:induction false} FreqSumSame(s: seq<nat>, f: seq<nat>, g: seq<nat>)
    requires forall i :: 0 <= i < |s| ==> FreqOf(f, s[i]) == FreqOf(g, s[i])
    ensures FreqSum(s, f) == FreqSum(s, g)
  {
    if s != [] { FreqSumSame(s[..|s| - 1], f, g); }
  }

  /** How many finished nodes have father x. */
  ghost function Sons(order: seq<nat>, dad: seq<nat>, x: nat): nat {
    CountIf(|order|, (i: nat) => i < |order| && order[i] < |dad| && dad[order[i]] == x)
  }

  /** The father of a finished node is still live or was finished later. */
  ghost predicate FatherLater(live: seq<nat>, order: seq<nat>, dad: seq<nat>, i: nat) {
    i < |order| && order[i] < |dad|
    && (dad[order[i]] in live || exists j :: i < j < |order| && order[j] == dad[order[i]])
  }

  /** Every leaf and created inner node is in exactly one place; finished nodes
      have their fathers later, and inner nodes have exactly two sons. */
  ghost predicate Forest(live: seq<nat>, order: seq<nat>, dad: seq<nat>, freq: seq<nat>, leaves: seq<nat>, elems: nat, node: nat) {
    && elems <= node && |dad| == |freq|
    && (forall i :: 0 <= i < |leaves| ==> leaves[i] < elems)
    && Distinct(live) && Distinct(order) && |live| + |order| == |leaves| + node - elems
    && (forall x: nat :: x in live || x in order <==> x in leaves || elems <= x < node)
    && (forall x :: x in order ==> x !in live)
    && (forall i: nat :: i < |order| ==> FatherLater(live, order, dad, i) && elems <= dad[order[i]] < node)
    && (forall x :: elems <= x < node ==> Sons(order, dad, x) == 2)
  }

  /** Nodes leave the heap in order of increasing frequency, and of increasing height where that is the same. */
  ghost predicate InOrder(live: seq<nat>, order: seq<nat>, freq: seq<nat>, deep: seq<nat>) {
    && (forall i, j :: 0 <= i < j < |order| ==> Sooner(freq, deep, order[i], order[j]))
    && (forall i, x :: 0 <= i < |order| && x in live ==> Sooner(freq, deep, order[i], x))
  }

  lemma {:induction false} MultisetDistinct(s: seq<nat>)
    requires Distinct(s)
    ensures forall x :: multiset(s)[x] <= 1
  {
    if s != [] {
      var n := |s| - 1;
      MultisetDistinct(s[..n]);
      assert s == s[..n] + [s[n]];
      assert s[n] !in s[..n];
    }
  }

  lemma TwoPlaces(s: seq<nat>, i: nat, j: nat)
    requires i < j < |s|
    ensures multiset(s)[s[i]] >= 1 + if s[i] == s[j] then 1 else 0
  {
    assert s == s[..i] + [s[i]] + s[i + 1..j] + [s[j]] + s[j + 1..];
  }

  /** A permutation of distinct elements is a list of the same distinct elements. */
  lemma Permuted(s: seq<nat>, t: seq<nat>)
    requires Distinct(s) && multiset(s) == multiset(t)
    ensures Distinct(t) && |s| == |t| && forall x :: x in s <==> x in t
  {
    MultisetDistinct(s);
    assert |multiset(s)| == |s| && |multiset(t)| == |t|;
    forall x
      ensures x in s <==> x in t
    {
      assert x in s <==> x in multiset(s);
      assert x in t <==> x in multiset(t);
    }
    forall i, j | 0 <= i < j < |t|
      ensures t[i] != t[j]
    {
      TwoPlaces(t, i, j);
    }
  }

  lemma SonsAppend(order: seq<nat>, n: nat, dad: seq<nat>, dad': seq<nat>, x: nat)
    requires n < |dad'| && |dad'| == |dad| && forall i :: 0 <= i < |order| ==> order[i] < |dad| && dad'[order[i]] == dad[order[i]]
    ensures Sons(order + [n], dad', x) == Sons(order, dad, x) + if dad'[n] == x then 1 else 0
  {
    var p := (i: nat) => i < |order| && order[i] < |dad| && dad[order[i]] == x;
    var q := (i: nat) => i < |order + [n]| && (order + [n])[i] < |dad'| && dad'[(order + [n])[i]] == x;
    CountSame(|order|, p, q);
  }

  /** Combining the two least frequent roots n and m under a new node. */
  lemma MergeForest(live: seq<nat>, live': seq<nat>, order: seq<nat>, dad: seq<nat>, freq: seq<nat>, leaves: seq<nat>,
                    elems: nat, node: nat, n: nat, m: nat, f: nat)
    requires Forest(live, order, dad, freq, leaves, elems, node) && node < |dad|
    requires n in live && m in live && n != m && n < |dad| && m < |dad|
    requires Distinct(live') && |live'| == |live| - 1
    requires forall x: nat :: x in live' <==> (x in live && x != n && x != m) || x == node
    ensures Forest(live', order + [n] + [m], dad[n := node][m := node], freq[node := f], leaves, elems, node + 1)
  {
    hide Sons, FatherLater;
    InDad(live, order, dad, freq, leaves, elems, node);
    var order', dad' := order + [n] + [m], dad[n := node][m := node];
    assert n !in order && m !in order;
    assert node !in live && node !in order;
    forall x | elems <= x < node + 1
      ensures Sons(order', dad', x) == 2
    {
      SonsMerged(order, dad, node, n, m, x);
      if x == node { NoSons(live, order, dad, freq, leaves, elems, node); }
    }
    forall i: nat | i < |order'|
      ensures FatherLater(live', order', dad', i) && elems <= dad'[order'[i]] < node + 1
    {
      FatherMerged(live, live', order, dad, node, n, m, elems, i);
    }
  }

  lemma InDad(live: seq<nat>, order: seq<nat>, dad: seq<nat>, freq: seq<nat>, leaves: seq<nat>, elems: nat, node: nat)
    requires Forest(live, order, dad, freq, leaves, elems, node)
    ensures forall i :: 0 <= i < |order| ==> order[i] < |dad|
  {
    hide Sons;
    forall i: nat | i < |order| ensures order[i] < |dad| { assert FatherLater(live, order, dad, i); }
  }

  lemma SonsMerged(order: seq<nat>, dad: seq<nat>, node: nat, n: nat, m: nat, x: nat)
    requires n != m && n < |dad| && m < |dad| && n !in order && m !in order
    requires forall i :: 0 <= i < |order| ==> order[i] < |dad|
    ensures Sons(order + [n] + [m], dad[n := node][m := node], x) == Sons(order, dad, x) + if x == node then 2 else 0
  {
    hide Sons;
    var dad' := dad[n := node][m := node];
    SonsAppend(order, n, dad, dad', x);
    SonsAppend(order + [n], m, dad', dad', x);
  }

  lemma NoSons(live: seq<nat>, order: seq<nat>, dad: seq<nat>, freq: seq<nat>, leaves: seq<nat>, elems: nat, node: nat)
    requires Forest(live, order, dad, freq, leaves, elems, node)
    ensures Sons(order, dad, node) == 0
  {
    CountNone(|order|, (i: nat) => i < |order| && order[i] < |dad| && dad[order[i]] == node);
  }

  lemma FatherMerged(live: seq<nat>, live': seq<nat>, order: seq<nat>, dad: seq<nat>, node: nat, n: nat, m: nat, elems: nat, i: nat)
    requires n != m && n < |dad| && m < |dad| && n !in order && m !in order && elems <= node && i < |order| + 2
    requires i < |order| ==> FatherLater(live, order, dad, i) && elems <= dad[order[i]] < node
    requires forall x: nat :: x in live' <==> (x in live && x != n && x != m) || x == node
    ensures var order', dad' := order + [n] + [m], dad[n := node][m := node];
      FatherLater(live', order', dad', i) && elems <= dad'[order'[i]] < node + 1
  {
    var order', dad' := order + [n] + [m], dad[n := node][m := node];
    if i < |order| {
      assert order[i] in order;
      var d := dad[order[i]];
      assert order'[i] == order[i] && dad'[order[i]] == d;
      assert order'[|order|] == n && order'[|order| + 1] == m;
      if d !in live {
        var j :| i < j < |order| && order[j] == d;
        assert order'[j] == d;
      }
    } else {
      assert order'[i] == if i == |order| then n else m;
    }
  }

  lemma MergeInOrder(live: seq<nat>, live': seq<nat>, order: seq<nat>, freq: seq<nat>, deep: seq<nat>, node: nat, n: nat, m: nat, h: nat)
    requires InOrder(live, order, freq, deep) && n in live && m in live && n != m
    requires node !in live && node !in order && node < |freq| && node < |deep|
    requires forall x: nat :: x in live' ==> (x in live && x != n && x != m) || x == node
    requires forall x :: x in live ==> Sooner(freq, deep, n, x)
    requires forall x :: x in live && x != n ==> Sooner(freq, deep, m, x)
    requires h > HeightOf(deep, n) && h > HeightOf(deep, m)
    ensures InOrder(live', order + [n] + [m], freq[node := FreqOf(freq, n) + FreqOf(freq, m)], deep[node := h])
  {
    var order', freq', deep' := order + [n] + [m], freq[node := FreqOf(freq, n) + FreqOf(freq, m)], deep[node := h];
    forall x: nat, y: nat | x != node && y != node
      ensures Sooner(freq', deep', x, y) == Sooner(freq, deep, x, y)
    {
    }
    assert Sooner(freq', deep', n, node) && Sooner(freq', deep', m, node);
    assert forall i :: 0 <= i < |order'| ==> order'[i] == if i < |order| then order[i] else if i == |order| then n else m;
    forall i | 0 <= i < |order'|
      ensures order'[i] != node && Sooner(freq', deep', order'[i], node)
    {
      if i < |order| {
        assert Sooner(freq, deep, order[i], n) && order[i] in order;
      }
    }
    hide Sooner;
  }

  /** Root first: the finished nodes in reverse, after the last live node. */
  function RootFirst(root: nat, order: seq<nat>): (l: seq<nat>)
    ensures |l| == |order| + 1 && l[0] == root
    ensures forall i :: 1 <= i < |l| ==> l[i] == order[|order| - i]
  {
    [root] + seq(|order|, i requires 0 <= i < |order| => order[|order| - 1 - i])
  }

  lemma {:induction false} CountFront(n: nat, p: nat -> bool, q: nat -> bool)
    requires n > 0 && forall i: nat :: i < n - 1 ==> q(i) == p(i + 1)
    ensures CountIf(n, p) == CountIf(n - 1, q) + if p(0) then 1 else 0
  {
    if n > 1 { CountFront(n - 1, p, q); }
  }

  lemma {:induction false} CountReverse(n: nat, p: nat -> bool, q: nat -> bool)
    requires forall i: nat :: i < n ==> q(i) == p(n - 1 - i)
    ensures CountIf(n, q) == CountIf(n, p)
  {
    if n > 0 {
      var p' := (i: nat) => p(i + 1);
      CountFront(n, p, p');
      CountReverse(n - 1, p', q);
    }
  }

  lemma KidsAreSons(root: nat, order: seq<nat>, dad: seq<nat>, x: nat)
    ensures Kids(RootFirst(root, order), dad, x) == Sons(order, dad, x)
  {
    var l, n := RootFirst(root, order), |order|;
    var p := (i: nat) => 1 <= i < |l| && l[i] < |dad| && dad[l[i]] == x;
    var p' := (i: nat) => p(i + 1);
    var q := (i: nat) => i < |order| && order[i] < |dad| && dad[order[i]] == x;
    CountFront(n + 1, p, p');
    CountReverse(n, q, p');
  }

  /** When one root is left, the forest is a tree with the used symbols as leaves. */
  lemma ForestIsTree(root: nat, order: seq<nat>, dad: seq<nat>, freq: seq<nat>, leaves: seq<nat>, elems: nat, node: nat, maxCode: nat)
    requires Forest([root], order, dad, freq, leaves, elems, node) && |leaves| >= 2 && maxCode < elems
    requires forall i :: 0 <= i < |leaves| ==> leaves[i] <= maxCode
    requires node <= |dad|
    ensures TreeList(RootFirst(root, order), dad, maxCode)
    ensures forall x :: x <= maxCode ==> (x in RootFirst(root, order) <==> x in leaves)
  {
    hide Sons, Kids, FatherLater, HasFather;
    var l := RootFirst(root, order);
    InList(root, order);
    RootIsInner(root, order, dad, freq, leaves, elems, node);
    RootPlace(root, order, dad, freq, leaves, elems, node);
    ListDistinct(root, order);
    forall i | 1 <= i < |l|
      ensures l[i] < |dad| && HasFather(l, dad, maxCode, i)
    {
      ListedFather(root, order, dad, freq, leaves, elems, node, maxCode, i);
    }
    forall i | 0 <= i < |l| && l[i] > maxCode
      ensures Kids(l, dad, l[i]) == 2
    {
      KidsAreSons(root, order, dad, l[i]);
      assert l[i] in l;
    }
  }

  lemma RootPlace(root: nat, order: seq<nat>, dad: seq<nat>, freq: seq<nat>, leaves: seq<nat>, elems: nat, node: nat)
    requires Forest([root], order, dad, freq, leaves, elems, node)
    ensures root < node && root !in order && Distinct(order)
  {
    hide Sons, FatherLater;
    assert root in [root];
  }

  lemma ListDistinct(root: nat, order: seq<nat>)
    requires Distinct(order) && root !in order
    ensures Distinct(RootFirst(root, order))
  {
  }

  lemma ListedFather(root: nat, order: seq<nat>, dad: seq<nat>, freq: seq<nat>, leaves: seq<nat>, elems: nat, node: nat, maxCode: nat, i: nat)
    requires Forest([root], order, dad, freq, leaves, elems, node) && maxCode < elems && 1 <= i <= |order|
    ensures RootFirst(root, order)[i] < |dad| && HasFather(RootFirst(root, order), dad, maxCode, i)
  {
    hide Forest;
    var k := |order| - i;
    FatherOf([root], order, dad, freq, leaves, elems, node, k);
    var l, d := RootFirst(root, order), dad[order[k]];
    if d in [root] {
      assert l[0] == d;
    } else {
      var j :| k < j < |order| && order[j] == d;
      assert l[|order| - j] == d;
    }
  }

  lemma FatherOf(live: seq<nat>, order: seq<nat>, dad: seq<nat>, freq: seq<nat>, leaves: seq<nat>, elems: nat, node: nat, k: nat)
    requires Forest(live, order, dad, freq, leaves, elems, node) && k < |order|
    ensures FatherLater(live, order, dad, k) && order[k] < |dad| && dad[order[k]] >= elems
  {
    hide Sons, Distinct;
    assert FatherLater(live, order, dad, k);
  }

  lemma InList(root: nat, order: seq<nat>)
    ensures forall x :: x in RootFirst(root, order) <==> x == root || x in order
  {
    var l := RootFirst(root, order);
    forall x | x in order
      ensures x in l
    {
      var k :| 0 <= k < |order| && order[k] == x;
      assert l[|order| - k] == x;
    }
    forall x | x in l
      ensures x == root || x in order
    {
      var i :| 0 <= i < |l| && l[i] == x;
      if i >= 1 { assert order[|order| - i] == x; }
    }
  }

  /** The last root is an inner node: its two sons are in the list. */
  lemma RootIsInner(root: nat, order: seq<nat>, dad: seq<nat>, freq: seq<nat>, leaves: seq<nat>, elems: nat, node: nat)
    requires Forest([root], order, dad, freq, leaves, elems, node) && |leaves| >= 2
    ensures root >= elems
  {
    if |order| > 0 {
      var k := |order| - 1;
      assert FatherLater([root], order, dad, k);
      assert dad[order[k]] in [root];
    }
  }

  /** Taking one element out of a list of distinct elements, in any order. */
  lemma RemoveOne(live: seq<nat>, rest: seq<nat>, n: nat, freq: seq<nat>)
    requires Distinct(live) && n in live && multiset(rest) == multiset(live) - multiset{n}
    ensures Distinct(rest) && |rest| + 1 == |live|
    ensures forall x :: x in rest <==> x in live && x != n
    ensures FreqSum(live, freq) == FreqSum(rest, freq) + FreqOf(freq, n)
  {
    var k :| 0 <= k < |live| && live[k] == n;
    Without(live, k);
    var t := live[..k] + live[k + 1..];
    DropAt(live, k);
    Permuted(t, rest);
    FreqSumWithout(live, k, freq);
    FreqSumPermuted(t, rest, freq);
  }

  lemma DropAt(live: seq<nat>, k: nat)
    requires Distinct(live) && k < |live|
    ensures var t := live[..k] + live[k + 1..]; Distinct(t) && forall x :: x in t <==> x in live && x != live[k]
  {
    var t := live[..k] + live[k + 1..];
    forall x
      ensures x in t <==> x in live && x != live[k]
    {
      if x in live && x != live[k] {
        var i :| 0 <= i < |live| && live[i] == x;
        if i < k { assert t[i] == x; } else { assert t[i - 1] == x; }
      }
    }
  }
}
