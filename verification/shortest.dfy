/** What "optimal bit lengths" means for the code lengths of a frequency table, and
    what the tree gives in those terms. */
module ShortestCodes {
  import opened Bits
  import Canonical
  import opened Sums
  import opened Forests
  import opened OptimalTrees
  import opened BitLengths

  ghost function At(e: seq<nat>): nat -> nat {
    (x: nat) => FreqOf(e, x)
  }

  /** The room that a used symbol's code takes. */
  ghost function Room(freq: seq<nat>, e: seq<nat>, top: nat): nat -> int {
    (x: nat) => if FreqOf(freq, x) == 0 then 0 else Share(At(e), top)(x)
  }

  /** A prefix code for the used symbols can have these lengths, from one bit up to top. */
  ghost predicate CanCode(freq: seq<nat>, e: seq<nat>, elems: nat, top: nat) {
    && (forall n: nat :: n < elems && FreqOf(freq, n) != 0 ==> 1 <= FreqOf(e, n) <= top)
    && SumTo(elems, Room(freq, e, top)) <= Pow2(top)
  }

  /** The bits spent on all occurrences of all symbols. */
  ghost function Spent(freq: seq<nat>, e: seq<nat>, elems: nat): int {
    SumTo(elems, Term(freq, At(e)))
  }

  /** No prefix code, however long its codes may be, spends fewer bits. */
  ghost predicate Shortest(freq: seq<nat>, lens: seq<nat>, elems: nat) {
    forall e: seq<nat>, top: nat :: CanCode(freq, e, elems, top) ==> Spent(freq, lens, elems) <= Spent(freq, e, elems)
  }

  /** A rarer symbol has no shorter code. */
  ghost predicate RarerNotShorter(freq: seq<nat>, lens: seq<nat>, elems: nat) {
    forall a: nat, b: nat :: a < elems && b < elems && FreqOf(freq, a) < FreqOf(freq, b) && FreqOf(lens, a) != 0 && FreqOf(lens, b) != 0 ==>
      FreqOf(lens, a) >= FreqOf(lens, b)
  }

  /** Some code with no length above max is as short as codes can be. */
  ghost predicate LimitAllows(freq: seq<nat>, elems: nat, max: nat) {
    exists e: seq<nat> :: CanCode(freq, e, elems, max) && Shortest(freq, e, elems)
  }

  /** A code within the limit, as short as any if and only if the limit allows that, that follows the frequencies. */
  ghost predicate ShortAsPossible(freq: seq<nat>, lens: seq<nat>, elems: nat, max: nat) {
    && CanCode(freq, lens, elems, max)
    && (Shortest(freq, lens, elems) <==> LimitAllows(freq, elems, max))
    && RarerNotShorter(freq, lens, elems)
  }

  /** The leaves are the used symbols. */
  ghost predicate UsedLeaves(leaves: seq<nat>, elems: nat, freq: seq<nat>) {
    Distinct(leaves) && |leaves| >= 2 && forall x: nat :: x in leaves <==> x < elems && FreqOf(freq, x) != 0
  }

  // ---- sums over symbols are sums over leaves ----

  lemma {:induction false} SumOverWider(l: seq<nat>, n: nat, m: nat, g: nat -> int)
    requires n <= m && forall i :: 0 <= i < |l| ==> l[i] < n
    ensures SumOver(l, n, g) == SumOver(l, m, g)
  {
    if l != [] { SumOverWider(l[..|l| - 1], n, m, g); }
  }

  lemma BySymbol(leaves: seq<nat>, elems: nat, node: nat, f: nat -> int, g: nat -> int)
    requires Distinct(leaves) && elems <= node && forall x: nat :: x in leaves ==> x < elems && f(x) == g(x)
    requires forall x: nat :: x < elems && x !in leaves ==> f(x) == 0
    ensures SumTo(elems, f) == SumOver(leaves, node, g)
  {
    SumByList(leaves, elems, f);
    assert forall i :: 0 <= i < |leaves| ==> leaves[i] in leaves;
    SumOverWider(leaves, elems, node, f);
    SumOverSame(leaves, node, f, g);
  }

  /** Lengths for the symbols are lengths for the leaves. */
  lemma LeafLengths(leaves: seq<nat>, elems: nat, node: nat, freq: seq<nat>, e: seq<nat>, top: nat)
    requires UsedLeaves(leaves, elems, freq) && elems <= node
    ensures Spent(freq, e, elems) == Path(leaves, node, freq, At(e))
    ensures CanCode(freq, e, elems, top) ==> Lengths(leaves, node, At(e), top)
    ensures Lengths(leaves, node, At(e), top) && (forall x :: x in leaves ==> FreqOf(e, x) >= 1) ==> CanCode(freq, e, elems, top)
  {
    hide SumTo, SumOver, Share, Distinct, Pow2;
    BySymbol(leaves, elems, node, Term(freq, At(e)), Term(freq, At(e)));
    BySymbol(leaves, elems, node, Room(freq, e, top), Share(At(e), top));
  }

  // ---- the tree ----

  /** A full tree uses up the code space: each step of building it does. */
  lemma {:induction false} TreeFills(root: nat, order: seq<nat>, dad: seq<nat>, freq: seq<nat>, deep: seq<nat>, leaves: seq<nat>, elems: nat, node: nat,
                                     k: nat, dep: nat -> nat, top: nat)
    requires Built(root, order, dad, freq, deep, leaves, elems, node) && k <= node - elems && Depths(root, order, dad, dep)
    requires forall x :: x in order ==> dep(x) <= top
    ensures SumOver(Live(leaves, order, elems, k), node, Share(dep, top)) == Pow2(top)
    decreases node - elems - k
  {
    hide *;
    BuiltSize(root, order, dad, freq, deep, leaves, elems, node);
    if elems + k == node {
      OnlyRootFills(root, order, dad, freq, deep, leaves, elems, node, dep, top);
    } else {
      NextRarest(root, order, dad, freq, deep, leaves, elems, node, k);
      MergeFreq(order, dad, freq, elems, k);
      LiveNext(leaves, order, elems, k);
      SonDepths(root, order, dad, freq, elems, k, dep);
      RarestIn(Live(leaves, order, elems, k), freq, deep, order[2 * k], order[2 * k + 1]);
      MergedSum(Live(leaves, order, elems, k), node, Share(dep, top), Share(dep, top), order[2 * k], order[2 * k + 1], elems + k);
      assert order[2 * k] in order;
      FatherShare(dep, top, order[2 * k], order[2 * k + 1], elems + k);
      TreeFills(root, order, dad, freq, deep, leaves, elems, node, k + 1, dep, top);
    }
  }

  lemma FatherShare(dep: nat -> nat, top: nat, a: nat, b: nat, father: nat)
    requires dep(a) == dep(b) == dep(father) + 1 && dep(a) <= top
    ensures Share(dep, top)(a) + Share(dep, top)(b) == Share(dep, top)(father)
  {
    hide Pow2;
    Doubled(top - dep(father));
  }

  lemma OnlyRootFills(root: nat, order: seq<nat>, dad: seq<nat>, freq: seq<nat>, deep: seq<nat>, leaves: seq<nat>, elems: nat, node: nat,
                      dep: nat -> nat, top: nat)
    requires Built(root, order, dad, freq, deep, leaves, elems, node) && |order| == 2 * (node - elems) && Depths(root, order, dad, dep)
    ensures SumOver(Live(leaves, order, elems, node - elems), node, Share(dep, top)) == Pow2(top)
  {
    hide *;
    var l, g := Live(leaves, order, elems, node - elems), Share(dep, top);
    RootDepth(root, order, dad, dep);
    LiveIs(root, order, dad, freq, deep, leaves, elems, node, node - elems);
    assert order[..2 * (node - elems)] == order;
    BuiltForest(root, order, dad, freq, deep, leaves, elems, node);
    LastLive(root, order, dad, freq, leaves, elems, node, l);
    OneDistinct(root);
    SumOverSet(l, [root], node, g);
    SumOverSnoc([], root, node, g);
    assert [] + [root] == [root];
    NoSum(node, g);
    RootShare(dep, top, root);
  }

  lemma OneDistinct(x: nat)
    ensures Distinct([x])
  {
  }

  lemma RootShare(dep: nat -> nat, top: nat, root: nat)
    requires dep(root) == 0
    ensures Share(dep, top)(root) == Pow2(top)
  {
  }

  lemma BuiltForest(root: nat, order: seq<nat>, dad: seq<nat>, freq: seq<nat>, deep: seq<nat>, leaves: seq<nat>, elems: nat, node: nat)
    requires Built(root, order, dad, freq, deep, leaves, elems, node)
    ensures Forest([root], order, dad, freq, leaves, elems, node) && Distinct(leaves) && elems <= node
    ensures root < node && forall i, j :: 0 <= i < j < |order| ==> Sooner(freq, deep, order[i], order[j])
  {
    hide FatherLater, Sons, Merged, Heights, Sooner;
    assert root in [root];
  }

  /** Leaves are below the root, so they have at least one bit. */
  lemma LeafPlaces(root: nat, order: seq<nat>, dad: seq<nat>, freq: seq<nat>, deep: seq<nat>, leaves: seq<nat>, elems: nat, node: nat, x: nat)
    requires Built(root, order, dad, freq, deep, leaves, elems, node) && |leaves| >= 2 && x in leaves
    ensures x in order && DepthAt(root, dad, node, x) >= 1
  {
    hide *;
    BuiltForest(root, order, dad, freq, deep, leaves, elems, node);
    RootIsInner(root, order, dad, freq, leaves, elems, node);
    LeafInOrder(root, order, dad, freq, leaves, elems, node, x);
    var i :| 0 <= i < |order| && order[i] == x;
    FatherAbove(root, order, dad, freq, deep, leaves, elems, node, i);
    DepthNext(root, dad, node, x);
  }

  lemma LeafInOrder(root: nat, order: seq<nat>, dad: seq<nat>, freq: seq<nat>, leaves: seq<nat>, elems: nat, node: nat, x: nat)
    requires Forest([root], order, dad, freq, leaves, elems, node) && x in leaves && root >= elems
    ensures x in order && x < elems
  {
    hide FatherLater, Sons, Distinct;
    assert x in [root] || x in order;
  }

  /** The depths of the leaves, as lengths. */
  ghost function DepthLens(root: nat, dad: seq<nat>, node: nat, elems: nat): (e: seq<nat>)
    ensures |e| == elems && forall x :: 0 <= x < elems ==> e[x] == DepthAt(root, dad, node, x)
  {
    seq(elems, x requires 0 <= x < elems => DepthAt(root, dad, node, x))
  }

  lemma DepthPath(root: nat, dad: seq<nat>, node: nat, elems: nat, leaves: seq<nat>, freq: seq<nat>, e: seq<nat>)
    requires forall x :: x in leaves ==> FreqOf(e, x) == DepthAt(root, dad, node, x)
    ensures Path(leaves, node, freq, At(e)) == Path(leaves, node, freq, DepthIs(root, dad, node))
    ensures forall top :: SumOver(leaves, node, Share(At(e), top)) == SumOver(leaves, node, Share(DepthIs(root, dad, node), top))
  {
    hide SumOver, DepthAt, Pow2;
    SumOverSame(leaves, node, Term(freq, At(e)), Term(freq, DepthIs(root, dad, node)));
    forall top
      ensures SumOver(leaves, node, Share(At(e), top)) == SumOver(leaves, node, Share(DepthIs(root, dad, node), top))
    {
      SumOverSame(leaves, node, Share(At(e), top), Share(DepthIs(root, dad, node), top));
    }
  }

  /** The depths are lengths of a prefix code. */
  lemma DepthsCode(root: nat, order: seq<nat>, dad: seq<nat>, freq: seq<nat>, deep: seq<nat>, leaves: seq<nat>, elems: nat, node: nat,
                   lens: seq<nat>) returns (top: nat)
    requires Built(root, order, dad, freq, deep, leaves, elems, node) && UsedLeaves(leaves, elems, freq)
    requires forall x :: x in leaves ==> FreqOf(lens, x) == DepthAt(root, dad, node, x)
    ensures Lengths(leaves, node, At(lens), top) && CanCode(freq, lens, elems, top)
  {
    hide *;
    var dep := DepthIs(root, dad, node);
    top := HeightOf(deep, root);
    BuiltForest(root, order, dad, freq, deep, leaves, elems, node);
    DepthsAre(root, order, dad, freq, deep, leaves, elems, node);
    LeafCount(leaves, elems, freq);
    Shallow(root, order, dad, freq, deep, leaves, elems, node);
    TreeFills(root, order, dad, freq, deep, leaves, elems, node, 0, dep, top);
    LiveNone(leaves, order, elems);
    DepthPath(root, dad, node, elems, leaves, freq, lens);
    forall x | x in leaves
      ensures x < node && 1 <= FreqOf(lens, x) <= top
    {
      LeafPlaces(root, order, dad, freq, deep, leaves, elems, node, x);
      DepthsFit(root, order, dad, freq, deep, leaves, elems, node, x);
    }
    LengthsOf(leaves, node, lens, top);
    LeafLengths(leaves, elems, node, freq, lens, top);
  }

  lemma LeafCount(leaves: seq<nat>, elems: nat, freq: seq<nat>)
    requires UsedLeaves(leaves, elems, freq)
    ensures |leaves| >= 2 && forall x :: x in leaves ==> x < elems
  {
    hide FreqOf;
  }

  lemma LengthsOf(leaves: seq<nat>, node: nat, lens: seq<nat>, top: nat)
    requires forall x :: x in leaves ==> x < node && FreqOf(lens, x) <= top
    requires SumOver(leaves, node, Share(At(lens), top)) == Pow2(top)
    ensures Lengths(leaves, node, At(lens), top)
  {
    hide SumOver, Share, Pow2, FreqOf;
  }

  lemma Shallow(root: nat, order: seq<nat>, dad: seq<nat>, freq: seq<nat>, deep: seq<nat>, leaves: seq<nat>, elems: nat, node: nat)
    requires Built(root, order, dad, freq, deep, leaves, elems, node)
    ensures forall x :: x in order ==> DepthIs(root, dad, node)(x) <= HeightOf(deep, root)
  {
    hide Built, DepthAt, HeightOf;
    forall x | x in order
      ensures DepthAt(root, dad, node, x) <= HeightOf(deep, root)
    {
      DepthsFit(root, order, dad, freq, deep, leaves, elems, node, x);
    }
  }

  /** The depths of the tree are as short as code lengths can be, and follow the frequencies. */
  lemma DepthsShortest(root: nat, order: seq<nat>, dad: seq<nat>, freq: seq<nat>, deep: seq<nat>, leaves: seq<nat>, elems: nat, node: nat,
                       lens: seq<nat>)
    requires Built(root, order, dad, freq, deep, leaves, elems, node) && UsedLeaves(leaves, elems, freq)
    requires forall x :: x in leaves ==> FreqOf(lens, x) == DepthAt(root, dad, node, x)
    ensures Shortest(freq, lens, elems)
    ensures forall a, b :: a in leaves && b in leaves && FreqOf(freq, a) < FreqOf(freq, b) ==> FreqOf(lens, a) >= FreqOf(lens, b)
  {
    hide Built, UsedLeaves, SumTo, CanCode, FreqOf, Spent, Lengths, Path, DepthAt;
    var top := DepthsCode(root, order, dad, freq, deep, leaves, elems, node, lens);
    BuiltForest(root, order, dad, freq, deep, leaves, elems, node);
    LeafLengths(leaves, elems, node, freq, lens, top);
    DepthPath(root, dad, node, elems, leaves, freq, lens);
    forall e: seq<nat>, most: nat | CanCode(freq, e, elems, most)
      ensures Spent(freq, lens, elems) <= Spent(freq, e, elems)
    {
      LeafLengths(leaves, elems, node, freq, e, most);
      MinimalPath(root, order, dad, freq, deep, leaves, elems, node, At(e), most);
    }
    forall a, b | a in leaves && b in leaves && FreqOf(freq, a) < FreqOf(freq, b)
      ensures FreqOf(lens, a) >= FreqOf(lens, b)
    {
      RarerLonger(root, order, dad, freq, deep, leaves, elems, node, At(lens), top, a, b);
    }
  }

  /** If a code within the limit is as short as any, the tree is no deeper than the limit: nothing is cut. */
  lemma CutOnlyIfNeeded(root: nat, order: seq<nat>, dad: seq<nat>, freq: seq<nat>, deep: seq<nat>, leaves: seq<nat>, elems: nat, node: nat,
                        e: seq<nat>, max: nat)
    requires Built(root, order, dad, freq, deep, leaves, elems, node) && UsedLeaves(leaves, elems, freq)
    requires CanCode(freq, e, elems, max) && Shortest(freq, e, elems)
    ensures Deeper(RootFirst(root, order), DepthIs(root, dad, node), max) == 0
  {
    hide Built, UsedLeaves, SumTo, CanCode, FreqOf, Spent, Lengths, Path, DepthAt, Deeper, RootFirst;
    var d := DepthLens(root, dad, node, elems);
    LeafCount(leaves, elems, freq);
    DepthLensAt(root, dad, node, elems, leaves);
    var top := DepthsCode(root, order, dad, freq, deep, leaves, elems, node, d);
    BuiltForest(root, order, dad, freq, deep, leaves, elems, node);
    LeafLengths(leaves, elems, node, freq, d, top);
    LeafLengths(leaves, elems, node, freq, e, max);
    DepthPath(root, dad, node, elems, leaves, freq, d);
    LeastDepth(root, order, dad, freq, deep, leaves, elems, node, At(e), max);
    InList(root, order);
    var l := RootFirst(root, order);
    forall i | 0 <= i < |l|
      ensures DepthIs(root, dad, node)(l[i]) <= max
    {
      assert l[i] in l;
    }
    NoneDeeper(l, DepthIs(root, dad, node), max);
  }

  lemma DepthLensAt(root: nat, dad: seq<nat>, node: nat, elems: nat, leaves: seq<nat>)
    requires forall x :: x in leaves ==> x < elems
    ensures forall x :: x in leaves ==> FreqOf(DepthLens(root, dad, node, elems), x) == DepthAt(root, dad, node, x)
  {
    hide DepthAt;
  }

  /** The list from the root down has these depths. */
  lemma ListHasDepths(root: nat, order: seq<nat>, dad: seq<nat>, freq: seq<nat>, deep: seq<nat>, leaves: seq<nat>, elems: nat, node: nat)
    requires Built(root, order, dad, freq, deep, leaves, elems, node)
    ensures ListDepths(RootFirst(root, order), dad, DepthIs(root, dad, node))
  {
    hide Built, DepthAt;
    DepthsAre(root, order, dad, freq, deep, leaves, elems, node);
    RootDepth(root, order, dad, DepthIs(root, dad, node));
    var l := RootFirst(root, order);
    forall i | 1 <= i < |l|
      ensures l[i] < |dad| && DepthIs(root, dad, node)(l[i]) == DepthIs(root, dad, node)(dad[l[i]]) + 1
    {
      assert l[i] == order[|order| - i];
    }
  }

  /** Lengths given in the order of the list follow the frequencies too. */
  lemma RankedRarer(root: nat, order: seq<nat>, dad: seq<nat>, freq: seq<nat>, deep: seq<nat>, leaves: seq<nat>, elems: nat, node: nat,
                    lens: seq<nat>, maxCode: nat, a: nat, b: nat)
    requires Built(root, order, dad, freq, deep, leaves, elems, node) && |leaves| >= 2
    requires Ranked(RootFirst(root, order), 0, lens, maxCode, 0)
    requires a in leaves && b in leaves && a <= maxCode && b <= maxCode && FreqOf(freq, a) < FreqOf(freq, b)
    ensures FreqOf(lens, a) >= FreqOf(lens, b)
  {
    hide Built, DepthAt, Ranked, FreqOf, HeightOf;
    LeafPlaces(root, order, dad, freq, deep, leaves, elems, node, a);
    LeafPlaces(root, order, dad, freq, deep, leaves, elems, node, b);
    BuiltForest(root, order, dad, freq, deep, leaves, elems, node);
    var i :| 0 <= i < |order| && order[i] == a;
    var j :| 0 <= j < |order| && order[j] == b;
    LaterCommoner(order, freq, deep, j, i);
    RankedAt(root, order, lens, maxCode, i, j);
  }

  lemma LaterCommoner(order: seq<nat>, freq: seq<nat>, deep: seq<nat>, i: nat, j: nat)
    requires forall i, j :: 0 <= i < j < |order| ==> Sooner(freq, deep, order[i], order[j])
    requires i < |order| && j < |order|
    ensures i <= j ==> FreqOf(freq, order[i]) <= FreqOf(freq, order[j])
  {
    if i < j {
      assert Sooner(freq, deep, order[i], order[j]);
    }
  }

  lemma RankedAt(root: nat, order: seq<nat>, lens: seq<nat>, maxCode: nat, i: nat, j: nat)
    requires i < j < |order| && order[i] <= maxCode && order[j] <= maxCode && Ranked(RootFirst(root, order), 0, lens, maxCode, 0)
    ensures FreqOf(lens, order[i]) >= FreqOf(lens, order[j])
  {
    var l := RootFirst(root, order);
    assert l[|order| - j] == order[j] && l[|order| - i] == order[i];
  }

  /** What the tree's lengths come to, cut or not. */
  lemma TreeShort(root: nat, order: seq<nat>, leaves: seq<nat>, freq: seq<nat>, deep: seq<nat>, dad: seq<nat>, elems: nat, node: nat,
                  lens: seq<nat>, maxCode: nat, max: nat, over: nat)
    requires Built(root, order, dad, freq, deep, leaves, elems, node) && UsedLeaves(leaves, elems, freq)
    requires over == Deeper(RootFirst(root, order), DepthIs(root, dad, node), max)
    requires over == 0 ==> forall x :: x in leaves ==> FreqOf(lens, x) == DepthIs(root, dad, node)(x)
    requires over > 0 ==> Ranked(RootFirst(root, order), 0, lens, maxCode, 0)
    requires forall n: nat :: n < elems && FreqOf(lens, n) != 0 ==> n in leaves && n <= maxCode
    requires CanCode(freq, lens, elems, max)
    ensures ShortAsPossible(freq, lens, elems, max)
  {
    hide Built, UsedLeaves, CanCode, Shortest, Deeper, RootFirst, DepthAt, Ranked, FreqOf;
    LeafCount(leaves, elems, freq);
    if over == 0 { DepthsShortest(root, order, dad, freq, deep, leaves, elems, node, lens); }
    forall e: seq<nat> | CanCode(freq, e, elems, max) && Shortest(freq, e, elems)
      ensures Shortest(freq, lens, elems)
    {
      CutOnlyIfNeeded(root, order, dad, freq, deep, leaves, elems, node, e, max);
    }
    forall a: nat, b: nat | a < elems && b < elems && FreqOf(freq, a) < FreqOf(freq, b) && FreqOf(lens, a) != 0 && FreqOf(lens, b) != 0
      ensures FreqOf(lens, a) >= FreqOf(lens, b)
    {
      if over > 0 { RankedRarer(root, order, dad, freq, deep, leaves, elems, node, lens, maxCode, a, b); }
    }
  }

  /** Only the frequencies of the symbols matter. */
  lemma SameShort(freq: seq<nat>, freq0: seq<nat>, lens: seq<nat>, elems: nat, max: nat)
    requires forall x: nat :: x < elems ==> FreqOf(freq0, x) == FreqOf(freq, x)
    requires ShortAsPossible(freq, lens, elems, max)
    ensures ShortAsPossible(freq0, lens, elems, max)
  {
    hide FreqOf, Share, Pow2, RarerNotShorter, CanCode, Spent;
    forall e: seq<nat>
      ensures Spent(freq0, e, elems) == Spent(freq, e, elems)
    {
      SameSpent(freq, freq0, e, elems);
    }
    forall e: seq<nat>, top: nat
      ensures CanCode(freq0, e, elems, top) <==> CanCode(freq, e, elems, top)
    {
      SameCode(freq, freq0, e, elems, top);
    }
    SameRarer(freq, freq0, lens, elems);
  }

  lemma SameSpent(freq: seq<nat>, freq0: seq<nat>, e: seq<nat>, elems: nat)
    requires forall x: nat :: x < elems ==> FreqOf(freq0, x) == FreqOf(freq, x)
    ensures Spent(freq0, e, elems) == Spent(freq, e, elems)
  {
    hide FreqOf;
    SumSame(elems, Term(freq0, At(e)), Term(freq, At(e)));
  }

  lemma SameCode(freq: seq<nat>, freq0: seq<nat>, e: seq<nat>, elems: nat, top: nat)
    requires forall x: nat :: x < elems ==> FreqOf(freq0, x) == FreqOf(freq, x)
    ensures CanCode(freq0, e, elems, top) <==> CanCode(freq, e, elems, top)
  {
    hide FreqOf, Share, Pow2;
    SumSame(elems, Room(freq0, e, top), Room(freq, e, top));
  }

  lemma SameRarer(freq: seq<nat>, freq0: seq<nat>, lens: seq<nat>, elems: nat)
    requires forall x: nat :: x < elems ==> FreqOf(freq0, x) == FreqOf(freq, x)
    requires RarerNotShorter(freq, lens, elems)
    ensures RarerNotShorter(freq0, lens, elems)
  {
    hide FreqOf;
  }

  /** Codes of one bit are as short as codes can be. */
  lemma OneBitShort(freq: seq<nat>, lens: seq<nat>, elems: nat, max: nat)
    requires forall n: nat :: n < elems ==> FreqOf(lens, n) <= 1
    requires CanCode(freq, lens, elems, max)
    ensures ShortAsPossible(freq, lens, elems, max)
  {
    hide FreqOf, Pow2, Share, SumTo;
    forall e: seq<nat>, top: nat | CanCode(freq, e, elems, top)
      ensures Spent(freq, lens, elems) <= Spent(freq, e, elems)
    {
      forall x: nat | x < elems
        ensures Term(freq, At(lens))(x) <= Term(freq, At(e))(x)
      {
        NotMore(FreqOf(freq, x), FreqOf(lens, x), FreqOf(e, x));
      }
      SumAtMost(elems, Term(freq, At(lens)), Term(freq, At(e)));
    }
  }

  lemma NotMore(f: nat, a: nat, b: nat)
    requires f != 0 ==> a <= b
    ensures f * a <= f * b
  {
  }

  // ---- a complete canonical code is a code in this sense ----

  ghost function WidthAt(lens: seq<nat>): nat -> int {
    (x: nat) => if Canonical.Used(lens, x) then Canonical.Width(lens[x]) else 0
  }

  lemma {:induction false} StartSnoc(lens: seq<nat>, k: nat)
    requires |lens| >= 1 && k <= Canonical.MAXBITS + 1
    ensures var last := |lens| - 1;
      Canonical.StartOf(lens, k) == Canonical.StartOf(lens[..last], k) + if lens[last] < k then WidthAt(lens)(last) else 0
  {
    if k > 1 {
      StartSnoc(lens, k - 1);
      var last := |lens| - 1;
      MoreOf(Canonical.Count(lens[..last], k - 1), Canonical.Width(k - 1));
    }
  }

  lemma MoreOf(c: int, w: int)
    ensures (c + 1) * w == c * w + w
  {
  }

  /** The Kraft sum is the sum of the widths of all codes. */
  lemma {:induction false} KraftByWidth(lens: seq<nat>)
    ensures SumTo(|lens|, WidthAt(lens)) == Canonical.Kraft(lens)
  {
    if lens == [] {
      NoStart(Canonical.MAXBITS + 1);
    } else {
      var last := |lens| - 1;
      KraftByWidth(lens[..last]);
      SumSame(last, WidthAt(lens), WidthAt(lens[..last]));
      StartSnoc(lens, Canonical.MAXBITS + 1);
    }
  }

  lemma {:induction false} NoStart(k: nat)
    requires k <= Canonical.MAXBITS + 1
    ensures Canonical.StartOf([], k) == 0
  {
    if k > 1 { NoStart(k - 1); }
  }

  lemma {:induction false} SumScaled(n: nat, f: nat -> int, g: nat -> int, k: int)
    requires forall x: nat :: x < n ==> f(x) == k * g(x)
    ensures SumTo(n, f) == k * SumTo(n, g)
  {
    if n > 0 { SumScaled(n - 1, f, g, k); }
  }

  lemma Scaled(max: nat, l: nat)
    requires l <= max <= Canonical.MAXBITS
    ensures Pow2(Canonical.MAXBITS - l) == Pow2(Canonical.MAXBITS - max) * Pow2(max - l)
  {
    hide Pow2;
    Pow2Add(max - l, Canonical.MAXBITS - max);
    Commute(Pow2(max - l), Pow2(Canonical.MAXBITS - max));
  }

  lemma Commute(a: int, b: int)
    ensures a * b == b * a
  {
  }

  lemma Cancel(k: int, a: int, b: int)
    requires k >= 1
    ensures k * a <= k * b ==> a <= b
  {
    if a > b { Distributed(k, a, b); }
  }

  lemma Distributed(k: int, a: int, b: int)
    requires k >= 1 && a > b
    ensures k * a > k * b
  {
    assert k * (a - b) >= 1;
  }

  lemma OneRoom(freq: seq<nat>, lens: seq<nat>, maxCode: nat, max: nat, x: nat)
    requires max <= Canonical.MAXBITS && x <= maxCode < |lens| && 1 <= lens[x] <= max && FreqOf(freq, x) != 0
    ensures WidthAt(lens[..maxCode + 1])(x) == Pow2(Canonical.MAXBITS - max) * Room(freq, lens, max)(x)
  {
    hide Pow2;
    Scaled(max, lens[x]);
    RoomIs(freq, lens, max, x);
    assert WidthAt(lens[..maxCode + 1])(x) == Pow2(Canonical.MAXBITS - lens[x]);
  }

  lemma RoomIs(freq: seq<nat>, e: seq<nat>, top: nat, x: nat)
    ensures Room(freq, e, top)(x) == if FreqOf(freq, x) == 0 || FreqOf(e, x) > top then 0 else Pow2(top - FreqOf(e, x))
  {
    hide Pow2;
    assert At(e)(x) == FreqOf(e, x);
    assert FreqOf(freq, x) != 0 ==> Room(freq, e, top)(x) == Share(At(e), top)(x);
  }

  /** Code lengths with Kraft sum one, for symbols up to maxCode, can code any frequencies of these symbols. */
  lemma CompleteCodes(freq: seq<nat>, lens: seq<nat>, maxCode: nat, elems: nat, max: nat)
    requires maxCode < elems && maxCode < |lens| && max <= Canonical.MAXBITS
    requires Canonical.Kraft(lens[..maxCode + 1]) == Canonical.UNIT
    requires forall n: nat :: n < elems && FreqOf(freq, n) != 0 ==> n <= maxCode && 1 <= lens[n] <= max
    ensures CanCode(freq, lens, elems, max)
  {
    hide Canonical.Kraft, SumTo, Pow2, WidthAt, Room, FreqOf;
    Below(lens);
    var short := lens[..maxCode + 1];
    var k := Pow2(Canonical.MAXBITS - max);
    var f := (x: nat) => if x <= maxCode && FreqOf(freq, x) != 0 then WidthAt(short)(x) else 0;
    KraftByWidth(short);
    FewerTerms(maxCode + 1, elems, f);
    assert forall x: nat :: x < elems && FreqOf(freq, x) == 0 ==> Room(freq, lens, max)(x) == 0 by { NoRoom(freq, lens, max); }
    forall x: nat | x < maxCode + 1
      ensures f(x) <= WidthAt(short)(x)
    {
      WidthPositive(short, x);
    }
    SumAtMost(maxCode + 1, f, WidthAt(short));
    forall x: nat | x < elems
      ensures f(x) == k * Room(freq, lens, max)(x)
    {
      if FreqOf(freq, x) != 0 { OneRoom(freq, lens, maxCode, max, x); }
    }
    SumScaled(elems, f, Room(freq, lens, max), k);
    Scaled(max, 0);
    Pow2Values();
    Cancel(k, SumTo(elems, Room(freq, lens, max)), Pow2(max));
  }

  lemma Below(lens: seq<nat>)
    ensures forall n: nat :: n < |lens| ==> FreqOf(lens, n) == lens[n]
  {
  }

  lemma NoRoom(freq: seq<nat>, lens: seq<nat>, max: nat)
    ensures forall x: nat :: FreqOf(freq, x) == 0 ==> Room(freq, lens, max)(x) == 0
  {
    hide FreqOf;
  }

  lemma WidthPositive(lens: seq<nat>, x: nat)
    ensures WidthAt(lens)(x) >= 0
  {
  }

  lemma {:induction false} FewerTerms(n: nat, m: nat, f: nat -> int)
    requires n <= m && forall x: nat :: n <= x < m ==> f(x) == 0
    ensures SumTo(m, f) == SumTo(n, f)
  {
    if n < m { FewerTerms(n, m - 1, f); }
  }

  // ---- where the limit does cost something ----

  /** Nine symbols whose tree is eight deep. */
  const DOUBLING: seq<nat> := [1, 1, 2, 4, 8, 16, 32, 64, 128]
  const UNLIMITED: seq<nat> := [8, 8, 7, 6, 5, 4, 3, 2, 1]

  /** What such a symbol takes at least, bits and three times its room together, with seven bits at most. */
  ghost function AtLeast(x: nat): int {
    if x < 2 then 10 else if x == 2 then 17 else if x == 3 then 30 else if x == 4 then 52 else if x == 5 then 88
    else if x == 6 then 144 else if x == 7 then 224 else if x == 8 then 320 else 0
  }

  lemma Eight()
    ensures Pow2(0) == 1 && Pow2(1) == 2 && Pow2(2) == 4 && Pow2(3) == 8 && Pow2(4) == 16 && Pow2(5) == 32
    ensures Pow2(6) == 64 && Pow2(7) == 128 && Pow2(8) == 256
  {
    Pow2Values();
  }

  lemma Values()
    ensures |DOUBLING| == |UNLIMITED| == 9
    ensures FreqOf(DOUBLING, 0) == 1 && FreqOf(DOUBLING, 1) == 1 && FreqOf(DOUBLING, 2) == 2 && FreqOf(DOUBLING, 3) == 4
    ensures FreqOf(DOUBLING, 4) == 8 && FreqOf(DOUBLING, 5) == 16 && FreqOf(DOUBLING, 6) == 32 && FreqOf(DOUBLING, 7) == 64
    ensures FreqOf(DOUBLING, 8) == 128
    ensures FreqOf(UNLIMITED, 0) == 8 && forall x: nat :: 1 <= x < 9 ==> FreqOf(UNLIMITED, x) == 9 - x
    ensures forall x: nat :: x >= 9 ==> FreqOf(DOUBLING, x) == 0
  {
  }

  lemma OneAtLeast(x: nat, l: nat)
    requires x < 9 && 1 <= l <= 7
    ensures FreqOf(DOUBLING, x) * l + 3 * Pow2(7 - l) >= AtLeast(x) && FreqOf(DOUBLING, x) != 0
  {
    hide FreqOf, Pow2;
    Values();
    Eight();
    assert l == 1 || l == 2 || l == 3 || l == 4 || l == 5 || l == 6 || l == 7;
  }

  lemma {:induction false} SumTriple(n: nat, f: nat -> int, g: nat -> int, h: nat -> int)
    requires forall x: nat :: x < n ==> h(x) == f(x) + 3 * g(x)
    ensures SumTo(n, h) == SumTo(n, f) + 3 * SumTo(n, g)
  {
    if n > 0 { SumTriple(n - 1, f, g, h); }
  }

  lemma NineSum(g: nat -> int)
    ensures SumTo(9, g) == g(0) + g(1) + g(2) + g(3) + g(4) + g(5) + g(6) + g(7) + g(8)
  {
    assert SumTo(3, g) == g(0) + g(1) + g(2);
    assert SumTo(6, g) == SumTo(3, g) + g(3) + g(4) + g(5);
  }

  /** With seven bits at most these symbols take 511 bits. */
  lemma LimitedSpends(e: seq<nat>, elems: nat)
    requires elems >= 9 && CanCode(DOUBLING, e, elems, 7)
    ensures Spent(DOUBLING, e, elems) >= 511
  {
    hide SumTo, Pow2, FreqOf, AtLeast;
    Eight();
    Values();
    var f, g := Term(DOUBLING, At(e)), Room(DOUBLING, e, 7);
    var h := (x: nat) => f(x) + 3 * g(x);
    FewerTerms(9, elems, f);
    FewerTerms(9, elems, g);
    SumTriple(9, f, g, h);
    forall x: nat | x < 9
      ensures AtLeast(x) <= h(x)
    {
      OneAtLeast(x, FreqOf(e, x));
      RoomIs(DOUBLING, e, 7, x);
    }
    SumAtMost(9, AtLeast, h);
    NineSum(AtLeast);
    AtLeasts();
  }

  lemma AtLeasts()
    ensures AtLeast(0) + AtLeast(1) + AtLeast(2) + AtLeast(3) + AtLeast(4) + AtLeast(5) + AtLeast(6) + AtLeast(7) + AtLeast(8) == 895
  {
  }

  /** Without the limit they take 510. */
  lemma UnlimitedSpends(elems: nat)
    requires elems >= 9
    ensures CanCode(DOUBLING, UNLIMITED, elems, 8) && Spent(DOUBLING, UNLIMITED, elems) == 510
  {
    hide SumTo, Pow2, FreqOf;
    Eight();
    Values();
    var f, g := Term(DOUBLING, At(UNLIMITED)), Room(DOUBLING, UNLIMITED, 8);
    FewerTerms(9, elems, f);
    FewerTerms(9, elems, g);
    forall x: nat | x < 9
      ensures g(x) == Pow2(8 - FreqOf(UNLIMITED, x))
    {
      RoomIs(DOUBLING, UNLIMITED, 8, x);
    }
    NineSum(f);
    NineSum(g);
  }

  /** So no code within seven bits is as short as codes can be. */
  lemma LimitCosts(elems: nat)
    requires elems >= 9
    ensures !LimitAllows(DOUBLING, elems, 7)
  {
    hide CanCode, Spent;
    UnlimitedSpends(elems);
    forall e: seq<nat> | CanCode(DOUBLING, e, elems, 7)
      ensures !Shortest(DOUBLING, e, elems)
    {
      LimitedSpends(e, elems);
    }
  }
}
