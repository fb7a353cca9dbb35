/** build_tree: the Huffman tree of a frequency table, its code lengths and its codes. */
module BuildTrees {
  import opened Bits
  import opened Canonical
  import opened Sums
  import opened TreeHeap
  import opened TreeShape
  import opened Forests
  import OptimalTrees
  import ShortestCodes
  import opened BitLengths
  import opened HuffBits
  import GenCodes
  import SortedSymbols

  /** heap[1..heapLen] is a heap of usable nodes. */
  ghost predicate HeapReady(h: seq<nat>, len: nat, freq: seq<nat>, depth: seq<nat>) {
    Nodes(h, len, freq, depth) && HeapFrom(h, len, 1, freq, depth)
  }

  function LiveIn(h: seq<nat>, len: nat): seq<nat>
    requires len < |h|
  {
    h[1..len + 1]
  }

  lemma LiveIs(h: seq<nat>, len: nat)
    requires len < |h|
    ensures LiveIn(h, len) == h[1..len + 1]
  {
  }

  lemma RootLeast(h: seq<nat>, len: nat, freq: seq<nat>, depth: seq<nat>)
    requires HeapReady(h, len, freq, depth) && len >= 1
    ensures forall x :: x in LiveIn(h, len) ==> x < |freq| && Sooner(freq, depth, h[1], x)
    ensures h[1] in LiveIn(h, len) && h[1] < |freq| && h[1] < |depth|
  {
    forall x | x in LiveIn(h, len)
      ensures x < |freq| && Sooner(freq, depth, h[1], x)
    {
      var i :| 0 <= i < len && LiveIn(h, len)[i] == x;
      RootSmallest(h, len, i + 1, freq, depth);
    }
    assert LiveIn(h, len)[0] == h[1];
  }

  /** Remove the smallest element from the heap and recreate the heap with one less element. */
  method PqRemove(s: HuffState, fc: array<nat>, ghost freq: seq<nat>, ghost deep: seq<nat>) returns (top: nat)
    requires s.Separate() && fc != s.heap && fc[..] == freq && s.depth[..] == deep
    requires s.heapLen >= 2 && HeapReady(s.heap[..], s.heapLen, freq, deep)
    modifies s`heapLen, s.heap
    ensures fc[..] == freq && s.depth[..] == deep
    ensures s.heapLen == old(s.heapLen) - 1 && HeapReady(s.heap[..], s.heapLen, freq, deep)
    ensures Removed(old(s.heap[..]), old(s.heapLen), s.heap[..], freq, deep, top)
    ensures forall i :: old(s.heapLen) < i < HEAP_SIZE ==> s.heap[i] == old(s.heap[i])
  {
    ghost var h, len := s.heap[..], s.heapLen;
    hide HeapReady, Nodes, HeapFrom, FreqOf, Removed;
    top := s.heap[1];
    s.heap[1] := s.heap[s.heapLen];
    s.heapLen := s.heapLen - 1;
    assert s.heap[..] == h[1 := h[len]];
    LastMoved(h, len, freq, deep);
    PqDownHeap(s.heap, s.heapLen, fc, s.depth, 1);
    assert fc[..] == freq && s.depth[..] == deep;
    Ready(s.heap[..], s.heapLen, freq, deep);
    assert s.heap[1..len] == s.heap[..][1..len];
    RootRemoved(h, len, s.heap[..], freq, deep);
  }

  lemma RootRemoved(h: seq<nat>, len: nat, h': seq<nat>, freq: seq<nat>, depth: seq<nat>)
    requires HeapReady(h, len, freq, depth) && len >= 2 && len - 1 < |h'|
    requires multiset(h'[1..len]) == multiset(LiveIn(h, len)) - multiset{h[1]}
    ensures Removed(h, len, h', freq, depth, h[1])
  {
    RootLeast(h, len, freq, depth);
    hide HeapReady;
  }

  /** h' holds the live nodes of h without top, which is the least frequent of them, and among those the least high. */
  ghost predicate Removed(h: seq<nat>, len: nat, h': seq<nat>, freq: seq<nat>, deep: seq<nat>, top: nat) {
    && 2 <= len < |h| && len - 1 < |h'| && top < |freq| && top in LiveIn(h, len)
    && multiset(LiveIn(h', len - 1)) == multiset(LiveIn(h, len)) - multiset{top}
    && forall x :: x in LiveIn(h, len) ==> x < |freq| && Sooner(freq, deep, top, x)
  }

  lemma Ready(h: seq<nat>, len: nat, freq: seq<nat>, depth: seq<nat>)
    requires Nodes(h, len, freq, depth) && HeapFrom(h, len, 1, freq, depth)
    ensures HeapReady(h, len, freq, depth)
  {
  }

  lemma LastMoved(h: seq<nat>, len: nat, freq: seq<nat>, depth: seq<nat>)
    requires HeapReady(h, len, freq, depth) && len >= 2
    ensures Nodes(h[1 := h[len]], len - 1, freq, depth) && HeapFrom(h[1 := h[len]], len - 1, 2, freq, depth)
    ensures multiset(LiveIn(h[1 := h[len]], len - 1)) == multiset(LiveIn(h, len)) - multiset{h[1]}
  {
    LiveMoved(h, len);
  }

  lemma LiveMoved(h: seq<nat>, len: nat)
    requires 2 <= len < |h|
    ensures multiset(LiveIn(h[1 := h[len]], len - 1)) == multiset(LiveIn(h, len)) - multiset{h[1]}
  {
    var h' := h[1 := h[len]];
    assert h[1..len + 1] == [h[1]] + h[2..len] + [h[len]];
    assert h'[2..len] == h[2..len];
    assert h'[1..len] == [h'[1]] + h'[2..len];
  }

  /** Replace the root of the heap by a new node and restore the heap. */
  method ReplaceTop(s: HuffState, fc: array<nat>, node: nat, ghost freq: seq<nat>, ghost deep: seq<nat>)
    requires s.Separate() && fc != s.heap && fc[..] == freq && s.depth[..] == deep
    requires s.heapLen >= 1 && node < |freq| && node < HEAP_SIZE
    requires Nodes(s.heap[..], s.heapLen, freq, deep) && HeapFrom(s.heap[..], s.heapLen, 2, freq, deep)
    modifies s.heap
    ensures fc[..] == freq && s.depth[..] == deep
    ensures HeapReady(s.heap[..], s.heapLen, freq, deep)
    ensures multiset(LiveIn(s.heap[..], s.heapLen)) == multiset(old(LiveIn(s.heap[..], s.heapLen))[0 := node])
    ensures forall i :: s.heapLen < i < HEAP_SIZE ==> s.heap[i] == old(s.heap[i])
  {
    ghost var h := s.heap[..];
    hide HeapReady, Nodes, HeapFrom;
    TopMoved(h, s.heapLen, freq, deep, node);
    s.heap[1] := node;
    assert s.heap[..] == h[1 := node];
    assert LiveIn(h[1 := node], s.heapLen) == LiveIn(h, s.heapLen)[0 := node];
    PqDownHeap(s.heap, s.heapLen, fc, s.depth, 1);
    assert fc[..] == freq && s.depth[..] == deep;
    Ready(s.heap[..], s.heapLen, freq, deep);
  }

  lemma TopMoved(h: seq<nat>, len: nat, freq: seq<nat>, depth: seq<nat>, node: nat)
    requires Nodes(h, len, freq, depth) && HeapFrom(h, len, 2, freq, depth) && 1 <= len
    requires node < |freq| && node < |depth|
    ensures Nodes(h[1 := node], len, freq, depth) && HeapFrom(h[1 := node], len, 2, freq, depth)
  {
  }

  /** The state of the combining loop. */
  ghost predicate Combining(h: seq<nat>, heapLen: nat, heapMax: nat, order: seq<nat>, dad: seq<nat>, freq: seq<nat>,
                            depth: seq<nat>, leaves: seq<nat>, elems: nat, node: nat, total: nat)
  {
    && |h| == |depth| == HEAP_SIZE && heapLen < HEAP_SIZE && elems <= L_CODES && |leaves| <= elems
    && Forest(LiveIn(h, heapLen), order, dad, freq, leaves, elems, node)
    && InOrder(LiveIn(h, heapLen), order, freq, depth)
    && FreqSum(LiveIn(h, heapLen), freq) == total <= 65535
    && |order| == 2 * (node - elems) && heapMax + |order| == HEAP_SIZE
    && (forall i :: 0 <= i < |order| ==> h[HEAP_SIZE - 1 - i] == order[i])
    && HeapReady(h, heapLen, freq, depth)
  }

  lemma CombiningSizes(h: seq<nat>, heapLen: nat, heapMax: nat, order: seq<nat>, dad: seq<nat>, freq: seq<nat>,
                       depth: seq<nat>, leaves: seq<nat>, elems: nat, node: nat, total: nat)
    requires Combining(h, heapLen, heapMax, order, dad, freq, depth, leaves, elems, node, total)
    ensures heapLen + (node - elems) == |leaves| <= elems <= node
    ensures heapLen >= 1 ==> heapLen < heapMax <= HEAP_SIZE && node < 2 * elems
    ensures heapLen >= 2 ==> heapLen + 1 < heapMax - 1
    ensures |dad| == |freq| && total <= 65535 && elems <= L_CODES
  {
  }

  /** m is the least frequent live node after n. */
  lemma SecondLeast(h: seq<nat>, len: nat, h1: seq<nat>, freq: seq<nat>, deep: seq<nat>, n: nat)
    requires Removed(h, len, h1, freq, deep, n) && HeapReady(h1, len - 1, freq, deep) && Distinct(LiveIn(h, len))
    ensures var m := h1[1];
      && m in LiveIn(h, len) && m != n && m < |freq| && m < |deep|
      && (forall x :: x in LiveIn(h, len) && x != n ==> Sooner(freq, deep, m, x))
      && Distinct(LiveIn(h1, len - 1)) && LiveIn(h1, len - 1)[0] == m
      && (forall x :: x in LiveIn(h1, len - 1) <==> x in LiveIn(h, len) && x != n)
  {
    RemoveOne(LiveIn(h, len), LiveIn(h1, len - 1), n, freq);
    RootLeast(h1, len - 1, freq, deep);
    hide HeapReady, Sooner;
  }

  lemma SumAfterMerge(h: seq<nat>, len: nat, h1: seq<nat>, freq: seq<nat>, deep: seq<nat>, n: nat, node: nat, f: nat)
    requires Removed(h, len, h1, freq, deep, n) && node < |freq| && node !in LiveIn(h, len) && Distinct(LiveIn(h, len))
    requires f == FreqOf(freq, n) + FreqOf(freq, h1[1])
    ensures FreqSum(LiveIn(h1, len - 1)[0 := node], freq[node := f]) == FreqSum(LiveIn(h, len), freq) >= f
  {
    var live, rest := LiveIn(h, len), LiveIn(h1, len - 1);
    assert rest[0] == h1[1];
    RemoveOne(live, rest, n, freq);
    hide LiveIn, Removed, FreqSum;
    SumReplaced(rest, node, freq, f);
  }

  lemma SumReplaced(rest: seq<nat>, node: nat, freq: seq<nat>, f: nat)
    requires |rest| >= 1 && node !in rest && node < |freq|
    ensures FreqSum(rest[0 := node], freq[node := f]) + FreqOf(freq, rest[0]) == FreqSum(rest, freq) + f
    ensures FreqSum(rest, freq) >= FreqOf(freq, rest[0])
  {
    var freq' := freq[node := f];
    FreqSumConcat([rest[0]], rest[1..], freq);
    FreqSumOne(rest[0], freq);
    assert [rest[0]] + rest[1..] == rest;
    FreqSumConcat([node], rest[1..], freq');
    FreqSumOne(node, freq');
    assert [node] + rest[1..] == rest[0 := node];
    FreqSumSame(rest[1..], freq, freq');
  }

  /** Keys of the remaining nodes do not change when the new node gets its own. */
  lemma KeysKept(h: seq<nat>, h2: seq<nat>, len: nat, freq: seq<nat>, deep: seq<nat>, node: nat, f: nat, d: nat)
    requires HeapReady(h, len, freq, deep) && node < |freq| && node < |deep| && node !in LiveIn(h, len)
    requires |h2| == |h| && forall i :: 1 <= i <= len ==> h2[i] == h[i]
    ensures Nodes(h2, len, freq[node := f], deep[node := d]) && HeapFrom(h2, len, 2, freq[node := f], deep[node := d])
    ensures LiveIn(h2, len) == LiveIn(h, len)
  {
    forall i | 1 <= i <= len
      ensures h[i] != node
    {
      assert LiveIn(h, len)[i - 1] == h[i];
    }
  }

  /** One turn of the combining loop, from removing n to inserting the new node. */
  lemma CombineStep(h: seq<nat>, len: nat, heapMax: nat, order: seq<nat>, dad: seq<nat>, freq: seq<nat>, deep: seq<nat>,
                    leaves: seq<nat>, elems: nat, node: nat, total: nat, n: nat, h1: seq<nat>, h3: seq<nat>, f: nat, d: nat)
    requires Combining(h, len, heapMax, order, dad, freq, deep, leaves, elems, node, total) && len >= 2
    requires Removed(h, len, h1, freq, deep, n) && HeapReady(h1, len - 1, freq, deep) && node < |freq|
    requires f == FreqOf(freq, n) + FreqOf(freq, h1[1]) && d > HeightOf(deep, n) && d > HeightOf(deep, h1[1])
    requires |h3| == |h| && node < |deep| && HeapReady(h3, len - 1, freq[node := f], deep[node := d])
    requires multiset(LiveIn(h3, len - 1)) == multiset(LiveIn(h1, len - 1)[0 := node])
    requires h3[heapMax - 1] == n && h3[heapMax - 2] == h1[1]
    requires forall i :: heapMax <= i < HEAP_SIZE ==> h3[i] == h[i]
    requires n < |dad| && h1[1] < |dad|
    ensures f <= 65535
    ensures Combining(h3, len - 1, heapMax - 2, order + [n] + [h1[1]], dad[n := node][h1[1] := node], freq[node := f],
                      deep[node := d], leaves, elems, node + 1, total)
  {
    hide HeapReady, FreqSum, FreqOf, HeightOf, Sooner, LiveIn, Removed;
    RemovedLeast(h, len, h1, freq, deep, n);
    SecondLeast(h, len, h1, freq, deep, n);
    SumAfterMerge(h, len, h1, freq, deep, n, node, f);
    OrderStored(h, h3, heapMax, order, n, h1[1]);
    LivesMerged(LiveIn(h, len), LiveIn(h1, len - 1), LiveIn(h3, len - 1), order, dad, freq, deep, leaves, elems, node, n, f, d);
  }

  lemma RemovedLeast(h: seq<nat>, len: nat, h1: seq<nat>, freq: seq<nat>, deep: seq<nat>, n: nat)
    requires Removed(h, len, h1, freq, deep, n)
    ensures 2 <= len < |h| && len - 1 < |h1| && n < |freq| && |LiveIn(h, len)| == len && |LiveIn(h1, len - 1)| == len - 1
    ensures n in LiveIn(h, len) && forall x :: x in LiveIn(h, len) ==> Sooner(freq, deep, n, x)
  {
  }

  lemma LivesMerged(live: seq<nat>, rest: seq<nat>, live': seq<nat>, order: seq<nat>, dad: seq<nat>, freq: seq<nat>, deep: seq<nat>,
                    leaves: seq<nat>, elems: nat, node: nat, n: nat, f: nat, h: nat)
    requires Forest(live, order, dad, freq, leaves, elems, node) && InOrder(live, order, freq, deep)
    requires Distinct(rest) && |rest| >= 1 && multiset(live') == multiset(rest[0 := node]) && |rest| + 1 == |live|
    requires n in live && n < |dad| && rest[0] < |dad| && node < |freq| && node < |deep|
    requires forall x :: x in rest <==> x in live && x != n
    requires forall x :: x in live ==> Sooner(freq, deep, n, x)
    requires forall x :: x in live && x != n ==> Sooner(freq, deep, rest[0], x)
    requires f == FreqOf(freq, n) + FreqOf(freq, rest[0]) && h > HeightOf(deep, n) && h > HeightOf(deep, rest[0])
    ensures Forest(live', order + [n] + [rest[0]], dad[n := node][rest[0] := node], freq[node := f], leaves, elems, node + 1)
    ensures InOrder(live', order + [n] + [rest[0]], freq[node := f], deep[node := h])
    ensures FreqSum(live', freq[node := f]) == FreqSum(rest[0 := node], freq[node := f])
  {
    hide FreqSum, FreqOf, HeightOf, Sooner, FatherLater, Sons;
    assert node !in live && node !in order && rest[0] in rest;
    TopReplaced(rest, rest[0 := node], live, n, rest[0], node);
    Permuted(rest[0 := node], live');
    FreqSumPermuted(rest[0 := node], live', freq[node := f]);
    hide Forest, InOrder;
    MergeForest(live, live', order, dad, freq, leaves, elems, node, n, rest[0], f);
    MergeInOrder(live, live', order, freq, deep, node, n, rest[0], h);
  }

  lemma TopReplaced(rest: seq<nat>, t: seq<nat>, live: seq<nat>, n: nat, m: nat, node: nat)
    requires Distinct(rest) && |rest| >= 1 && rest[0] == m && t == rest[0 := node] && node !in live
    requires forall x :: x in rest <==> x in live && x != n
    ensures Distinct(t) && forall x: nat :: x in t <==> (x in live && x != n && x != m) || x == node
  {
    forall x: nat
      ensures x in t <==> (x in live && x != n && x != m) || x == node
    {
      if x in live && x != n && x != m {
        var i :| 0 <= i < |rest| && rest[i] == x;
        assert t[i] == x;
      }
      assert t[0] == node;
    }
  }

  lemma OrderStored(h: seq<nat>, h3: seq<nat>, heapMax: nat, order: seq<nat>, n: nat, m: nat)
    requires |h| == |h3| == HEAP_SIZE && heapMax + |order| == HEAP_SIZE && heapMax >= 2
    requires forall i :: 0 <= i < |order| ==> h[HEAP_SIZE - 1 - i] == order[i]
    requires h3[heapMax - 1] == n && h3[heapMax - 2] == m && forall i :: heapMax <= i < HEAP_SIZE ==> h3[i] == h[i]
    ensures var o := order + [n] + [m]; forall i :: 0 <= i < |o| ==> h3[HEAP_SIZE - 1 - i] == o[i]
  {
  }

  /** Take the two least frequent nodes out of the heap and put their father in. */
  method CombineOne(s: HuffState, fc: array<nat>, dl: array<nat>, node: nat, ghost order: seq<nat>, ghost dad: seq<nat>,
                    ghost freq: seq<nat>, ghost deep: seq<nat>, ghost leaves: seq<nat>, ghost elems: nat, ghost total: nat)
    returns (ghost order': seq<nat>)
    requires s.Separate() && s.Apart(fc, dl) && s.heapLen >= 2 && fc.Length >= 2 * elems
    requires fc[..] == freq && dl[..] == dad && s.depth[..] == deep
    requires Combining(s.heap[..], s.heapLen, s.heapMax, order, dad, freq, deep, leaves, elems, node, total)
    requires OptimalTrees.Merged(order, dad, freq, elems, node) && OptimalTrees.Heights(order, freq, deep, leaves, elems, node)
    modifies s`heapLen, s`heapMax, s.heap, s.depth, fc, dl
    ensures s.heapLen == old(s.heapLen) - 1 && OptimalTrees.Merged(order', dl[..], fc[..], elems, node + 1)
    ensures OptimalTrees.Heights(order', fc[..], s.depth[..], leaves, elems, node + 1)
    ensures forall x :: 0 <= x < elems ==> fc[x] == old(fc[x])
    ensures Combining(s.heap[..], s.heapLen, s.heapMax, order', dl[..], fc[..], s.depth[..], leaves, elems, node + 1, total)
    ensures forall x :: 0 <= x < dl.Length && x !in order' ==> dl[x] == old(dl[x])
    ensures forall x :: x in order ==> x in order'
  {
    hide Combining, HeapReady, Removed, Nodes, HeapFrom, LiveIn, Forest, InOrder, OptimalTrees.Merged, OptimalTrees.Heights;
    ghost var h, len, hm := s.heap[..], s.heapLen, s.heapMax;
    CombiningSizes(h, len, hm, order, dad, freq, deep, leaves, elems, node, total);
    CombiningReady(h, len, hm, order, dad, freq, deep, leaves, elems, node, total);
    var n := PqRemove(s, fc, freq, deep);
    ghost var h1 := s.heap[..];
    RemovedSecond(h, len, h1, freq, deep, n);
    var m := s.heap[1];
    PutBoth(s, n, m);
    ghost var h2 := s.heap[..];
    SumFits(h, len, hm, order, dad, freq, deep, leaves, elems, node, total, h1, n);
    ghost var f := freq[n] + freq[m];
    ghost var d := (if deep[n] >= deep[m] then deep[n] else deep[m]) + 1;
    MergeStep(h, len, hm, order, dad, freq, deep, leaves, elems, node, total, n, h1, f, d);
    MakeFather(s, fc, dl, node, n, m);
    KeysKept(h1, h2, len - 1, freq, deep, node, f, d);
    ReplaceTop(s, fc, node, freq[node := f], deep[node := d]);
    order' := order + [n] + [m];
    CombineStep(h, len, hm, order, dad, freq, deep, leaves, elems, node, total, n, h1, s.heap[..], f, d);
  }

  /** The merge, as the optimality of the tree sees it: the height fits its byte. */
  lemma MergeStep(h: seq<nat>, len: nat, heapMax: nat, order: seq<nat>, dad: seq<nat>, freq: seq<nat>, deep: seq<nat>,
                  leaves: seq<nat>, elems: nat, node: nat, total: nat, n: nat, h1: seq<nat>, f: nat, d: nat)
    requires Combining(h, len, heapMax, order, dad, freq, deep, leaves, elems, node, total) && len >= 2
    requires Removed(h, len, h1, freq, deep, n) && HeapReady(h1, len - 1, freq, deep) && node < |freq| && node < |deep|
    requires f == FreqOf(freq, n) + FreqOf(freq, h1[1]) <= 65535 && OptimalTrees.Merged(order, dad, freq, elems, node)
    requires n < |deep| && h1[1] < |deep| && d == (if deep[n] >= deep[h1[1]] then deep[n] else deep[h1[1]]) + 1
    requires OptimalTrees.Heights(order, freq, deep, leaves, elems, node)
    ensures n < |dad| && h1[1] < |dad| && d < 256 && d > HeightOf(deep, n) && d > HeightOf(deep, h1[1])
    ensures OptimalTrees.Merged(order + [n] + [h1[1]], dad[n := node][h1[1] := node], freq[node := f], elems, node + 1)
    ensures OptimalTrees.Heights(order + [n] + [h1[1]], freq[node := f], deep[node := d], leaves, elems, node + 1)
  {
    hide HeapReady, FreqSum, FreqOf, LiveIn, OptimalTrees.Merged, OptimalTrees.Heights, OptimalTrees.MergedAt, OptimalTrees.HigherAt;
    SecondLeast(h, len, h1, freq, deep, n);
    OptimalTrees.MergedNext(order, dad, freq, elems, node, n, h1[1], f);
    OptimalTrees.HeightsNext(LiveIn(h, len), order, dad, freq, deep, leaves, elems, node, n, h1[1]);
    HeightFits(f, d);
  }

  lemma HeightFits(f: nat, d: nat)
    requires Pow2(d / 2) <= f <= 65535
    ensures d < 32
  {
    if d >= 32 {
      Pow2Mono(16, d / 2);
      Pow2Values();
    }
  }

  /** Create a new node, father of n and m. */
  method MakeFather(s: HuffState, fc: array<nat>, dl: array<nat>, node: nat, n: nat, m: nat)
    requires s.Separate() && s.Apart(fc, dl) && node < fc.Length && node < s.depth.Length
    requires n < fc.Length && n < dl.Length && n < s.depth.Length && m < fc.Length && m < dl.Length && m < s.depth.Length
    requires fc[n] + fc[m] < 65536
    modifies s.depth, fc, dl
    ensures fc[..] == old(fc[..])[node := old(fc[n] + fc[m])]
    ensures s.depth[..] == old(s.depth[..])[node := old((if s.depth[n] >= s.depth[m] then s.depth[n] else s.depth[m]) + 1) % 256]
    ensures dl[..] == old(dl[..])[n := node][m := node]
  {
    fc[node] := (fc[n] + fc[m]) % 65536;
    s.depth[node] := ((if s.depth[n] >= s.depth[m] then s.depth[n] else s.depth[m]) + 1) % 256;
    dl[n] := node;
    dl[m] := node;
  }

  /** Keep the nodes sorted by frequency, behind the heap. */
  method PutBoth(s: HuffState, n: nat, m: nat)
    requires 2 <= s.heapMax <= s.heap.Length
    modifies s`heapMax, s.heap
    ensures s.heapMax == old(s.heapMax) - 2
    ensures s.heap[..] == old(s.heap[..])[old(s.heapMax) - 1 := n][old(s.heapMax) - 2 := m]
  {
    s.heapMax := s.heapMax - 1;
    s.heap[s.heapMax] := n;
    s.heapMax := s.heapMax - 1;
    s.heap[s.heapMax] := m;
  }

  lemma CombiningReady(h: seq<nat>, heapLen: nat, heapMax: nat, order: seq<nat>, dad: seq<nat>, freq: seq<nat>,
                       depth: seq<nat>, leaves: seq<nat>, elems: nat, node: nat, total: nat)
    requires Combining(h, heapLen, heapMax, order, dad, freq, depth, leaves, elems, node, total)
    ensures HeapReady(h, heapLen, freq, depth) && |h| == |depth| == HEAP_SIZE
  {
  }

  lemma RemovedSecond(h: seq<nat>, len: nat, h1: seq<nat>, freq: seq<nat>, deep: seq<nat>, n: nat)
    requires Removed(h, len, h1, freq, deep, n) && HeapReady(h1, len - 1, freq, deep)
    ensures n < |freq| && h1[1] < |freq| && h1[1] < |deep|
  {
    RootLeast(h1, len - 1, freq, deep);
  }

  lemma SumFits(h: seq<nat>, len: nat, heapMax: nat, order: seq<nat>, dad: seq<nat>, freq: seq<nat>, deep: seq<nat>,
                leaves: seq<nat>, elems: nat, node: nat, total: nat, h1: seq<nat>, n: nat)
    requires Combining(h, len, heapMax, order, dad, freq, deep, leaves, elems, node, total)
    requires Removed(h, len, h1, freq, deep, n) && HeapReady(h1, len - 1, freq, deep) && node < |freq|
    ensures n < |deep| && h1[1] < |freq| && n < |freq| && freq[n] + freq[h1[1]] <= 65535
    ensures node !in LiveIn(h1, len - 1) && n != h1[1] && n != node && h1[1] != node
  {
    hide HeapReady, InOrder, FreqSum;
    SecondLeast(h, len, h1, freq, deep, n);
    var live := LiveIn(h, len);
    assert node !in live;
    SumAfterMerge(h, len, h1, freq, deep, n, node, FreqOf(freq, n) + FreqOf(freq, h1[1]));
    DeepEnough(h, len, freq, deep, n);
  }

  lemma DeepEnough(h: seq<nat>, len: nat, freq: seq<nat>, deep: seq<nat>, n: nat)
    requires HeapReady(h, len, freq, deep) && n in LiveIn(h, len)
    ensures n < |deep| && n < |freq|
  {
    var i :| 0 <= i < len && LiveIn(h, len)[i] == n;
  }

  // ---- the used symbols ----

  /** heap[1..len] lists the used symbols below n, and maxCode is the largest. */
  ghost predicate Collected(h: seq<nat>, len: nat, n: nat, freq: seq<nat>, depth: seq<nat>, lens: seq<nat>, maxCode: int) {
    && len <= n < |h| && n <= |freq| == |lens| && n <= |depth| && -1 <= maxCode < n
    && (forall i :: 1 <= i <= len ==> h[i] <= maxCode && freq[h[i]] != 0 && depth[h[i]] == 0)
    && (forall i, j :: 1 <= i < j <= len ==> h[i] != h[j])
    && (forall x: nat :: x < n && freq[x] != 0 ==> x in h[1..len + 1])
    && (forall x: nat :: x < n && freq[x] == 0 ==> lens[x] == 0)
    && (if len == 0 then maxCode == -1 else maxCode >= 0 && freq[maxCode] != 0)
  }

  lemma CollectStart(h: seq<nat>, freq: seq<nat>, depth: seq<nat>, lens: seq<nat>)
    requires |h| > 0 && |freq| == |lens|
    ensures Collected(h, 0, 0, freq, depth, lens, -1)
  {
  }

  lemma CollectNext(h: seq<nat>, len: nat, n: nat, freq: seq<nat>, depth: seq<nat>, lens: seq<nat>, maxCode: int)
    requires Collected(h, len, n, freq, depth, lens, maxCode) && n + 1 < |h| && n < |freq| && n < |depth|
    ensures freq[n] == 0 ==> Collected(h, len, n + 1, freq, depth, lens[n := 0], maxCode)
    ensures freq[n] != 0 ==> Collected(h[len + 1 := n], len + 1, n + 1, freq, depth[n := 0], lens, n)
  {
    assert h[len + 1 := n][1..len + 2] == h[1..len + 1] + [n];
  }

  method CollectLeaves(s: HuffState, fc: array<nat>, dl: array<nat>, elems: nat) returns (maxCode: int)
    requires s.Separate() && s.Apart(fc, dl) && elems <= L_CODES && elems < fc.Length
    modifies s`heapLen, s`heapMax, s.heap, s.depth, dl
    ensures s.heapMax == HEAP_SIZE && s.heapLen <= elems
    ensures Collected(s.heap[..], s.heapLen, elems, fc[..], s.depth[..], dl[..], maxCode)
  {
    hide Collected;
    ghost var freq := fc[..];
    s.heapLen, s.heapMax := 0, HEAP_SIZE;
    maxCode := -1;
    CollectStart(s.heap[..], freq, s.depth[..], dl[..]);
    for n := 0 to elems
      invariant fc[..] == freq && s.heapLen <= n && s.heapMax == HEAP_SIZE
      invariant Collected(s.heap[..], s.heapLen, n, freq, s.depth[..], dl[..], maxCode)
    {
      CollectNext(s.heap[..], s.heapLen, n, freq, s.depth[..], dl[..], maxCode);
      ghost var h, len, deep, lens := s.heap[..], s.heapLen, s.depth[..], dl[..];
      if fc[n] != 0 {
        s.heapLen := s.heapLen + 1;
        s.heap[s.heapLen] := n;
        maxCode := n;
        s.depth[n] := 0;
        assert s.heap[..] == h[len + 1 := n] && s.depth[..] == deep[n := 0] && dl[..] == lens;
      } else {
        dl[n] := 0;
        assert dl[..] == lens[n := 0] && s.heap[..] == h && s.depth[..] == deep;
      }
    }
  }

  /** The code forced when fewer than two symbols are used. */
  function ForcedCode(maxCode: int): int {
    if maxCode < 2 then maxCode + 1 else 0
  }

  lemma ForceNext(h: seq<nat>, len: nat, n: nat, freq: seq<nat>, depth: seq<nat>, lens: seq<nat>, maxCode: int)
    requires Collected(h, len, n, freq, depth, lens, maxCode) && len < 2 && 3 <= n
    ensures var m := ForcedCode(maxCode);
      && 0 <= m <= 2 && freq[m] == 0 && len + 1 < |h|
      && Collected(h[len + 1 := m], len + 1, n, freq[m := 1], depth[m := 0], lens, if maxCode < 2 then m else maxCode)
  {
    var m := ForcedCode(maxCode);
    if len == 1 { assert maxCode in h[1..2]; }
    assert m !in h[1..len + 1];
    assert h[len + 1 := m][1..len + 2] == h[1..len + 1] + [m];
  }

  /** The frequencies once the listed codes have been forced. */
  function WithOnes(freq: seq<nat>, forced: seq<nat>): (f: seq<nat>)
    ensures |f| == |freq|
  {
    if forced == [] then freq
    else
      var f, m := WithOnes(freq, forced[..|forced| - 1]), forced[|forced| - 1];
      if m < |freq| then f[m := 1] else f
  }

  /** Each forced code was unused before it was forced. */
  ghost predicate Unused(freq: seq<nat>, forced: seq<nat>) {
    forced != [] ==>
      var init, m := forced[..|forced| - 1], forced[|forced| - 1];
      Unused(freq, init) && m <= 2 && m < |freq| && WithOnes(freq, init)[m] == 0
  }

  function LensAt(lens: seq<nat>, forced: seq<nat>): nat {
    if forced == [] then 0
    else LensAt(lens, forced[..|forced| - 1]) + FreqOf(lens, forced[|forced| - 1])
  }

  lemma ForceMore(freq: seq<nat>, forced: seq<nat>, m: nat, lens: seq<nat>)
    requires Unused(freq, forced) && m <= 2 && m < |freq| && WithOnes(freq, forced)[m] == 0
    ensures Unused(freq, forced + [m]) && WithOnes(freq, forced + [m]) == WithOnes(freq, forced)[m := 1]
    ensures LensAt(lens, forced + [m]) == LensAt(lens, forced) + FreqOf(lens, m)
  {
    assert (forced + [m])[..|forced|] == forced;
  }

  /** Force at least two codes of non-zero frequency. */
  method ForceTwo(s: HuffState, fc: array<nat>, dl: array<nat>, desc: StaticDesc, maxCode0: int)
    returns (maxCode: nat, ghost forced: seq<nat>)
    requires s.Separate() && s.Apart(fc, dl) && desc.Valid() && desc.elems < fc.Length
    requires Collected(s.heap[..], s.heapLen, desc.elems, fc[..], s.depth[..], dl[..], maxCode0)
    modifies s`heapLen, s`optLen, s`staticLen, s.heap, s.depth, fc
    ensures 2 <= s.heapLen <= desc.elems && (forced != [] ==> s.heapLen == 2 && |forced| <= 2)
    ensures Collected(s.heap[..], s.heapLen, desc.elems, fc[..], s.depth[..], dl[..], maxCode)
    ensures Unused(old(fc[..]), forced) && fc[..] == WithOnes(old(fc[..]), forced)
    ensures s.optLen == old(s.optLen) - |forced|
    ensures s.staticLen == old(s.staticLen) - if |desc.stree| == 0 then 0 else LensAt(desc.stree, forced)
  {
    hide Collected, Unused, WithOnes;
    ghost var freq := fc[..];
    var max := maxCode0;
    forced := [];
    ForceStart(freq, desc.stree);
    while s.heapLen < 2
      invariant forced != [] ==> s.heapLen <= 2 && |forced| <= s.heapLen
      invariant Collected(s.heap[..], s.heapLen, desc.elems, fc[..], s.depth[..], dl[..], max)
      invariant Unused(freq, forced) && fc[..] == WithOnes(freq, forced)
      invariant s.optLen == old(s.optLen) - |forced|
      invariant s.staticLen == old(s.staticLen) - if |desc.stree| == 0 then 0 else LensAt(desc.stree, forced)
      decreases 2 - s.heapLen
    {
      ForceNext(s.heap[..], s.heapLen, desc.elems, fc[..], s.depth[..], dl[..], max);
      ForceMore(freq, forced, ForcedCode(max), desc.stree);
      ghost var node := ForcedCode(max);
      max := ForceOne(s, fc, dl, desc, max);
      forced := forced + [node];
    }
    CollectedSizes(s.heap[..], s.heapLen, desc.elems, fc[..], s.depth[..], dl[..], max);
    maxCode := max;
  }

  /** Force one more code. */
  method ForceOne(s: HuffState, fc: array<nat>, dl: array<nat>, desc: StaticDesc, max0: int) returns (max: int)
    requires s.Separate() && s.Apart(fc, dl) && desc.Valid() && desc.elems < fc.Length && s.heapLen < 2 && -1 <= max0
    requires Collected(s.heap[..], s.heapLen, desc.elems, fc[..], s.depth[..], dl[..], max0)
    modifies s`heapLen, s`optLen, s`staticLen, s.heap, s.depth, fc
    ensures s.heapLen == old(s.heapLen) + 1 && fc[..] == old(fc[..])[ForcedCode(max0) := 1]
    ensures Collected(s.heap[..], s.heapLen, desc.elems, fc[..], s.depth[..], dl[..], max)
    ensures s.optLen == old(s.optLen) - 1
    ensures s.staticLen == old(s.staticLen) - if |desc.stree| == 0 then 0 else FreqOf(desc.stree, ForcedCode(max0))
  {
    hide Collected;
    ghost var h, len, f, deep := s.heap[..], s.heapLen, fc[..], s.depth[..];
    ForceNext(h, len, desc.elems, f, deep, dl[..], max0);
    max := max0;
    var node: nat := if max < 2 then max + 1 else 0;
    if max < 2 { max := max + 1; }
    s.heapLen := s.heapLen + 1;
    s.heap[s.heapLen] := node;
    fc[node] := 1;
    s.depth[node] := 0;
    s.optLen := s.optLen - 1;
    if |desc.stree| != 0 { s.staticLen := s.staticLen - desc.stree[node]; }
    assert s.heap[..] == h[len + 1 := node] && fc[..] == f[node := 1] && s.depth[..] == deep[node := 0];
  }

  lemma ForceStart(freq: seq<nat>, stree: seq<nat>)
    ensures Unused(freq, []) && WithOnes(freq, []) == freq && LensAt(stree, []) == 0
  {
  }

  lemma CollectedSizes(h: seq<nat>, len: nat, n: nat, freq: seq<nat>, depth: seq<nat>, lens: seq<nat>, maxCode: int)
    requires Collected(h, len, n, freq, depth, lens, maxCode) && len >= 1
    ensures len <= n && 0 <= maxCode < n
  {
  }

  // ---- what forcing does to the sums ----

  ghost function FreqAt(freq: seq<nat>): nat -> int {
    (n: nat) => FreqOf(freq, n)
  }

  lemma {:induction false} ForcedTotal(freq: seq<nat>, forced: seq<nat>, n: nat)
    requires Unused(freq, forced)
    ensures SumTo(n, FreqAt(WithOnes(freq, forced))) <= SumTo(n, FreqAt(freq)) + |forced|
  {
    if forced != [] {
      var init, m := forced[..|forced| - 1], forced[|forced| - 1];
      ForcedTotal(freq, init, n);
      var f := WithOnes(freq, init);
      if m < n {
        SumChange(n, FreqAt(f), FreqAt(f[m := 1]), m);
      } else {
        SumSame(n, FreqAt(f), FreqAt(f[m := 1]));
      }
    }
  }

  /** A forced code costs its length once: its symbol has no extra bits. */
  lemma {:induction false} ForcedCost(freq: seq<nat>, forced: seq<nat>, lens: seq<nat>, desc: StaticDesc, n: nat)
    requires Unused(freq, forced) && desc.Valid() && n <= desc.elems < |freq| && n <= |lens|
    requires forall i :: 0 <= i < |forced| ==> forced[i] < n
    ensures SumTo(n, Cost(WithOnes(freq, forced), lens, desc)) == SumTo(n, Cost(freq, lens, desc)) + LensAt(lens, forced)
  {
    if forced != [] {
      var init, m := forced[..|forced| - 1], forced[|forced| - 1];
      ForcedCost(freq, init, lens, desc, n);
      var f := WithOnes(freq, init);
      SumChange(n, Cost(f, lens, desc), Cost(f[m := 1], lens, desc), m);
    }
  }

  lemma {:induction false} AllOnes(lens: seq<nat>, forced: seq<nat>)
    requires forall i :: 0 <= i < |forced| ==> FreqOf(lens, forced[i]) == 1
    ensures LensAt(lens, forced) == |forced|
  {
    if forced != [] { AllOnes(lens, forced[..|forced| - 1]); }
  }

  lemma {:induction false} ForcedSets(freq: seq<nat>, forced: seq<nat>)
    requires Unused(freq, forced)
    ensures forall i :: 0 <= i < |forced| ==> forced[i] < |freq| && WithOnes(freq, forced)[forced[i]] == 1 && freq[forced[i]] == 0
    ensures forall x :: 0 <= x < |freq| && freq[x] != 0 ==> WithOnes(freq, forced)[x] == freq[x]
    ensures forall x :: 0 <= x < |freq| && x !in forced ==> WithOnes(freq, forced)[x] == freq[x]
  {
    if forced != [] {
      ForcedSets(freq, forced[..|forced| - 1]);
    }
  }

  /** A complete code of two symbols gives both of them one bit. */
  lemma TwoSymbols(lens: seq<nat>, a: nat, b: nat)
    requires Used(lens, a) && Used(lens, b) && a != b && Kraft(lens) == UNIT
    requires forall n :: Used(lens, n) ==> n == a || n == b
    ensures lens[a] == 1 && lens[b] == 1
  {
    SortedSymbols.SymAtPos(lens, a);
    SortedSymbols.SymAtPos(lens, b);
    SortedSymbols.PosInjective(lens, a, b);
    OnlyTwo(lens, a, b);
    SortedSymbols.BeginZero(lens);
    SortedSymbols.BeginStep(lens, 0);
    SortedSymbols.BeginStep(lens, 1);
    HalfWidth(SortedSymbols.LenAt(lens, 0));
    HalfWidth(SortedSymbols.LenAt(lens, 1));
  }

  lemma OnlyTwo(lens: seq<nat>, a: nat, b: nat)
    requires Used(lens, a) && Used(lens, b) && a != b
    requires forall n :: Used(lens, n) ==> n == a || n == b
    requires SortedSymbols.Pos(lens, a) < SortedSymbols.Symbols(lens) && SortedSymbols.Pos(lens, b) < SortedSymbols.Symbols(lens)
    requires SortedSymbols.Pos(lens, a) != SortedSymbols.Pos(lens, b)
    ensures SortedSymbols.Symbols(lens) == 2
  {
    hide SortedSymbols.Symbols, SortedSymbols.Pos;
    if SortedSymbols.Symbols(lens) > 2 {
      var x, y, z := SortedSymbols.SymAt(lens, 0), SortedSymbols.SymAt(lens, 1), SortedSymbols.SymAt(lens, 2);
    }
  }

  lemma HalfWidth(l: nat)
    requires 1 <= l <= MAXBITS
    ensures Width(l) <= 16384 && (Width(l) == 16384 ==> l == 1)
  {
    Pow2Values();
    if l > 1 { Pow2Mono(MAXBITS - l, 13); }
  }

  // ---- the heap and the tree ----

  /** Establish sub-heaps of increasing lengths. */
  method Heapify(s: HuffState, fc: array<nat>, ghost freq: seq<nat>, ghost deep: seq<nat>)
    requires s.Separate() && fc != s.heap && fc[..] == freq && s.depth[..] == deep
    requires 2 <= s.heapLen < HEAP_SIZE && Nodes(s.heap[..], s.heapLen, freq, deep)
    modifies s.heap
    ensures fc[..] == freq && s.depth[..] == deep
    ensures HeapReady(s.heap[..], s.heapLen, freq, deep)
    ensures multiset(s.heap[1..s.heapLen + 1]) == old(multiset(s.heap[1..s.heapLen + 1]))
  {
    hide Nodes, HeapFrom, HeapReady;
    var n: nat := s.heapLen / 2;
    LeavesAreHeaps(s.heap[..], s.heapLen, freq, deep);
    while n >= 1
      invariant n <= s.heapLen / 2 && fc[..] == freq && s.depth[..] == deep
      invariant Nodes(s.heap[..], s.heapLen, freq, deep) && HeapFrom(s.heap[..], s.heapLen, n + 1, freq, deep)
      invariant multiset(s.heap[1..s.heapLen + 1]) == old(multiset(s.heap[1..s.heapLen + 1]))
    {
      PqDownHeap(s.heap, s.heapLen, fc, s.depth, n);
      n := n - 1;
    }
    Ready(s.heap[..], s.heapLen, freq, deep);
  }

  lemma LeavesAreHeaps(h: seq<nat>, len: nat, freq: seq<nat>, depth: seq<nat>)
    requires Nodes(h, len, freq, depth)
    ensures HeapFrom(h, len, len / 2 + 1, freq, depth)
  {
  }

  lemma {:induction false} FreqSumIs(l: seq<nat>, n: nat, freq: seq<nat>)
    requires forall i :: 0 <= i < |l| ==> l[i] < n
    ensures FreqSum(l, freq) == SumOver(l, n, FreqAt(freq))
  {
    if l != [] { FreqSumIs(l[..|l| - 1], n, freq); }
  }

  /** The used symbols are listed once each. */
  ghost predicate LeafList(leaves: seq<nat>, elems: nat, freq: seq<nat>, maxCode: int) {
    && Distinct(leaves)
    && (forall x: nat :: x in leaves <==> x < elems && FreqOf(freq, x) != 0)
    && forall i :: 0 <= i < |leaves| ==> leaves[i] <= maxCode
  }

  lemma LeavesListed(h: seq<nat>, len: nat, elems: nat, freq: seq<nat>, depth: seq<nat>, lens: seq<nat>, maxCode: int, leaves: seq<nat>)
    requires Collected(h, len, elems, freq, depth, lens, maxCode) && leaves == h[1..len + 1]
    ensures LeafList(leaves, elems, freq, maxCode) && Nodes(h, len, freq, depth)
  {
    forall x: nat | x in leaves
      ensures x < elems && FreqOf(freq, x) != 0 && x <= maxCode
    {
      var i :| 0 <= i < |leaves| && leaves[i] == x;
      assert leaves[i] == h[i + 1];
    }
  }

  /** Before any node is combined the forest is the list of used symbols. */
  lemma CombineStart(h: seq<nat>, len: nat, elems: nat, freq: seq<nat>, depth: seq<nat>, lens: seq<nat>,
                     maxCode: int, leaves: seq<nat>, total: nat)
    requires LeafList(leaves, elems, freq, maxCode) && HeapReady(h, len, freq, depth) && |freq| == |lens|
    requires multiset(LiveIn(h, len)) == multiset(leaves) && len == |leaves| <= elems
    requires elems <= L_CODES && |h| == |depth| == HEAP_SIZE
    requires SumTo(elems, FreqAt(freq)) == total <= 65535
    ensures Combining(h, len, HEAP_SIZE, [], lens, freq, depth, leaves, elems, elems, total)
  {
    hide HeapReady;
    var live := LiveIn(h, len);
    Permuted(leaves, live);
    FreqSumPermuted(leaves, live, freq);
    forall i | 0 <= i < |leaves|
      ensures leaves[i] < elems
    {
      assert leaves[i] in leaves;
    }
    FreqSumIs(leaves, elems, freq);
    SumByList(leaves, elems, FreqAt(freq));
    hide FreqSum, LiveIn;
    assert Forest(live, [], lens, freq, leaves, elems, elems);
  }

  /** Construct the tree by repeatedly combining the least two frequent nodes. */
  method CombineAll(s: HuffState, fc: array<nat>, dl: array<nat>, ghost leaves: seq<nat>, elems: nat, ghost total: nat)
    returns (ghost order: seq<nat>, ghost node: nat)
    requires s.Separate() && s.Apart(fc, dl) && s.heapLen >= 2 && fc.Length > 2 * elems && |leaves| == s.heapLen
    requires Combining(s.heap[..], s.heapLen, s.heapMax, [], dl[..], fc[..], s.depth[..], leaves, elems, elems, total)
    requires Distinct(leaves) && OptimalTrees.Heights([], fc[..], s.depth[..], leaves, elems, elems)
    modifies s`heapLen, s`heapMax, s.heap, s.depth, fc, dl
    ensures s.heapLen == 1 && |order| + 1 <= HEAP_SIZE && s.heapMax == HEAP_SIZE - |order| - 1
    ensures s.List() == RootFirst(s.heap[1], order) && node <= dl.Length
    ensures Forest([s.heap[1]], order, dl[..], fc[..], leaves, elems, node)
    ensures OptimalTrees.Built(s.heap[1], order, dl[..], fc[..], s.depth[..], leaves, elems, node)
    ensures forall x :: 0 <= x < elems ==> fc[x] == old(fc[x])
    ensures forall x :: 0 <= x < dl.Length && x !in order ==> dl[x] == old(dl[x])
  {
    hide Combining, OptimalTrees.Merged, OptimalTrees.Heights;
    var father := elems;
    order := [];
    OptimalTrees.MergedNone(dl[..], fc[..], elems);
    while s.heapLen >= 2
      invariant s.heapLen >= 1
      invariant Combining(s.heap[..], s.heapLen, s.heapMax, order, dl[..], fc[..], s.depth[..], leaves, elems, father, total)
      invariant OptimalTrees.Merged(order, dl[..], fc[..], elems, father)
      invariant OptimalTrees.Heights(order, fc[..], s.depth[..], leaves, elems, father)
      invariant forall x :: 0 <= x < elems ==> fc[x] == old(fc[x])
      invariant forall x :: 0 <= x < dl.Length && x !in order ==> dl[x] == old(dl[x])
      decreases s.heapLen
    {
      order := CombineOne(s, fc, dl, father, order, dl[..], fc[..], s.depth[..], leaves, elems, total);
      father := father + 1;
    }
    ghost var h := s.heap[..];
    node := father;
    CombiningSizes(h, 1, s.heapMax, order, dl[..], fc[..], s.depth[..], leaves, elems, node, total);
    CombineEnd(h, s.heapMax, order, dl[..], fc[..], s.depth[..], leaves, elems, node, total);
    s.heapMax := s.heapMax - 1;
    s.heap[s.heapMax] := s.heap[1];
    assert s.heap[..] == h[s.heapMax := h[1]];
    assert s.List() == s.heap[..][s.heapMax..];
  }

  lemma CombineEnd(h: seq<nat>, heapMax: nat, order: seq<nat>, dad: seq<nat>, freq: seq<nat>, depth: seq<nat>,
                   leaves: seq<nat>, elems: nat, node: nat, total: nat)
    requires Combining(h, 1, heapMax, order, dad, freq, depth, leaves, elems, node, total) && 2 <= heapMax
    ensures Forest([h[1]], order, dad, freq, leaves, elems, node) && InOrder([h[1]], order, freq, depth)
    ensures |order| + 1 <= HEAP_SIZE && heapMax == HEAP_SIZE - |order|
    ensures h[heapMax - 1 := h[1]][heapMax - 1..] == RootFirst(h[1], order)
  {
    assert LiveIn(h, 1) == [h[1]];
    var l, r := h[heapMax - 1 := h[1]][heapMax - 1..], RootFirst(h[1], order);
    forall i | 0 <= i < |l|
      ensures l[i] == r[i]
    {
      if i >= 1 { assert r[i] == order[|order| - i]; }
    }
  }

  /** What the tree construction hands to gen_bitlen. */
  ghost predicate TreeMade(l: seq<nat>, leaves: seq<nat>, freq0: seq<nat>, forced: seq<nat>, freq: seq<nat>, dad: seq<nat>,
                           maxCode: nat, desc: StaticDesc)
  {
    && desc.Valid() && maxCode < desc.elems < |freq| == |freq0| && TreeList(l, dad, maxCode) && InArrays(l, freq, maxCode, desc)
    && Unused(freq0, forced) && LeafList(leaves, desc.elems, WithOnes(freq0, forced), maxCode)
    && (forall x :: 0 <= x < desc.elems ==> freq[x] == WithOnes(freq0, forced)[x])
    && freq[maxCode] != 0 && |leaves| >= 2 && (forced != [] ==> |leaves| == 2)
    && (forall x: nat :: x < desc.elems ==> (x in l <==> x in leaves))
    && (forall x: nat :: x < desc.elems && x !in l ==> x < |dad| && dad[x] == 0)
  }

  lemma TreeIsMade(root: nat, order: seq<nat>, leaves: seq<nat>, freq0: seq<nat>, forced: seq<nat>, freq: seq<nat>,
                   dad: seq<nat>, node: nat, maxCode: nat, desc: StaticDesc)
    requires desc.Valid() && maxCode < desc.elems < |freq| == |freq0| == |dad| && node <= |dad|
    requires Forest([root], order, dad, freq, leaves, desc.elems, node)
    requires Unused(freq0, forced) && LeafList(leaves, desc.elems, WithOnes(freq0, forced), maxCode)
    requires forall x :: 0 <= x < desc.elems ==> freq[x] == WithOnes(freq0, forced)[x]
    requires freq[maxCode] != 0 && |leaves| >= 2 && (forced != [] ==> |leaves| == 2)
    requires forall x: nat :: x < desc.elems && freq[x] == 0 ==> x in order || dad[x] == 0
    ensures TreeMade(RootFirst(root, order), leaves, freq0, forced, freq, dad, maxCode, desc)
  {
    ForestIsTree(root, order, dad, freq, leaves, desc.elems, node, maxCode);
    InList(root, order);
    var l := RootFirst(root, order);
    InForest(root, order, dad, freq, leaves, desc.elems, node);
    hide Forest, TreeList, RootFirst, Unused, WithOnes, Distinct, LeafList;
    AllInArrays(l, freq, maxCode, desc);
    MadeOf(l, leaves, freq0, forced, freq, dad, maxCode, desc);
  }

  lemma AllInArrays(l: seq<nat>, freq: seq<nat>, maxCode: nat, desc: StaticDesc)
    requires desc.Valid() && maxCode < desc.elems < |freq| && forall x :: x in l ==> x < |freq|
    ensures InArrays(l, freq, maxCode, desc)
  {
    forall i | 0 <= i < |l|
      ensures l[i] < |freq|
    {
      assert l[i] in l;
    }
  }

  lemma MadeOf(l: seq<nat>, leaves: seq<nat>, freq0: seq<nat>, forced: seq<nat>, freq: seq<nat>, dad: seq<nat>,
               maxCode: nat, desc: StaticDesc)
    requires desc.Valid() && maxCode < desc.elems < |freq| == |freq0| == |dad| && TreeList(l, dad, maxCode)
    requires InArrays(l, freq, maxCode, desc) && Unused(freq0, forced)
    requires LeafList(leaves, desc.elems, WithOnes(freq0, forced), maxCode)
    requires forall x :: 0 <= x < desc.elems ==> freq[x] == WithOnes(freq0, forced)[x]
    requires freq[maxCode] != 0 && |leaves| >= 2 && (forced != [] ==> |leaves| == 2)
    requires forall x: nat :: x < desc.elems ==> (x in l <==> x in leaves)
    requires forall x: nat :: x < desc.elems && freq[x] == 0 ==> x in l || dad[x] == 0
    ensures TreeMade(l, leaves, freq0, forced, freq, dad, maxCode, desc)
  {
    hide TreeList, InArrays, Unused, WithOnes, Distinct;
  }

  lemma InForest(root: nat, order: seq<nat>, dad: seq<nat>, freq: seq<nat>, leaves: seq<nat>, elems: nat, node: nat)
    requires Forest([root], order, dad, freq, leaves, elems, node)
    ensures forall x: nat :: x == root || x in order <==> x in leaves || elems <= x < node
    ensures forall x :: x in leaves ==> x < elems <= node
  {
    assert forall x: nat :: x in [root] <==> x == root;
  }

  /** Choose the leaves and make the heap. */
  method MakeHeap(s: HuffState, fc: array<nat>, dl: array<nat>, desc: StaticDesc)
    returns (maxCode: nat, ghost leaves: seq<nat>, ghost forced: seq<nat>, ghost total: nat)
    requires s.Separate() && s.Apart(fc, dl) && desc.Valid() && fc.Length == 2 * desc.elems + 1
    requires SumTo(desc.elems, FreqAt(fc[..])) <= 65533
    modifies s`heapLen, s`heapMax, s`optLen, s`staticLen, s.heap, s.depth, fc, dl
    ensures 2 <= s.heapLen == |leaves| && s.heapMax == HEAP_SIZE && (forced != [] ==> |leaves| == 2)
    ensures maxCode < desc.elems && fc[maxCode] != 0 && LeafList(leaves, desc.elems, fc[..], maxCode)
    ensures Combining(s.heap[..], s.heapLen, HEAP_SIZE, [], dl[..], fc[..], s.depth[..], leaves, desc.elems, desc.elems, total)
    ensures OptimalTrees.Heights([], fc[..], s.depth[..], leaves, desc.elems, desc.elems)
    ensures Unused(old(fc[..]), forced) && fc[..] == WithOnes(old(fc[..]), forced)
    ensures forall x: nat :: x < desc.elems && fc[x] == 0 ==> dl[x] == 0
    ensures s.optLen == old(s.optLen) - |forced|
    ensures s.staticLen == old(s.staticLen) - if |desc.stree| == 0 then 0 else LensAt(desc.stree, forced)
  {
    hide Collected, Combining, HeapReady, Nodes, HeapFrom, Unused, WithOnes, LeafList, OptimalTrees.Heights, LiveIn;
    ghost var freq0 := fc[..];
    var max := CollectLeaves(s, fc, dl, desc.elems);
    maxCode, forced := ForceTwo(s, fc, dl, desc, max);
    ghost var freq, deep, h, lens := fc[..], s.depth[..], s.heap[..], dl[..];
    leaves := s.heap[1..s.heapLen + 1];
    LeavesListed(h, s.heapLen, desc.elems, freq, deep, lens, maxCode, leaves);
    CollectedLens(h, s.heapLen, desc.elems, freq, deep, lens, maxCode);
    ForcedTotal(freq0, forced, desc.elems);
    FreqTotal(desc.elems, freq);
    total := SumTo(desc.elems, FreqAt(freq));
    Heapify(s, fc, freq, deep);
    LiveIs(s.heap[..], s.heapLen);
    assert s.heap[..][1..s.heapLen + 1] == s.heap[1..s.heapLen + 1];
    CombineStart(s.heap[..], s.heapLen, desc.elems, freq, deep, lens, maxCode, leaves, total);
  }

  /** Choose the leaves, heapify, and combine. */
  method MakeTree(s: HuffState, fc: array<nat>, dl: array<nat>, desc: StaticDesc)
    returns (maxCode: nat, ghost leaves: seq<nat>, ghost forced: seq<nat>, ghost order: seq<nat>, ghost node: nat)
    requires s.Separate() && s.Apart(fc, dl) && desc.Valid() && fc.Length == 2 * desc.elems + 1
    requires SumTo(desc.elems, FreqAt(fc[..])) <= 65533
    modifies s`heapLen, s`heapMax, s`optLen, s`staticLen, s.heap, s.depth, fc, dl
    ensures s.heapMax < HEAP_SIZE
    ensures TreeMade(s.List(), leaves, old(fc[..]), forced, fc[..], dl[..], maxCode, desc)
    ensures s.List() == RootFirst(s.heap[1], order)
    ensures OptimalTrees.Built(s.heap[1], order, dl[..], fc[..], s.depth[..], leaves, desc.elems, node)
    ensures s.optLen == old(s.optLen) - |forced|
    ensures s.staticLen == old(s.staticLen) - if |desc.stree| == 0 then 0 else LensAt(desc.stree, forced)
  {
    hide Combining, Unused, WithOnes, LeafList, Forest, TreeMade, RootFirst, OptimalTrees.Built, OptimalTrees.Heights, Distinct;
    hide SumTo, LensAt, FreqOf;
    ghost var freq0, total := fc[..], 0;
    maxCode, leaves, forced, total := MakeHeap(s, fc, dl, desc);
    ghost var lens := dl[..];
    LeavesDistinct(leaves, desc.elems, fc[..], maxCode);
    order, node := CombineAll(s, fc, dl, leaves, desc.elems, total);
    TreeIsMade(s.heap[1], order, leaves, freq0, forced, fc[..], dl[..], node, maxCode, desc);
  }

  lemma LeavesDistinct(leaves: seq<nat>, elems: nat, freq: seq<nat>, maxCode: int)
    requires LeafList(leaves, elems, freq, maxCode)
    ensures Distinct(leaves)
  {
  }

  lemma CollectedLens(h: seq<nat>, len: nat, n: nat, freq: seq<nat>, depth: seq<nat>, lens: seq<nat>, maxCode: int)
    requires Collected(h, len, n, freq, depth, lens, maxCode) && len >= 1
    ensures 0 <= maxCode < n <= |freq| == |lens| && len <= n && len + 1 <= |h| && freq[maxCode] != 0
    ensures forall x: nat :: x < n && freq[x] == 0 ==> lens[x] == 0
    ensures OptimalTrees.Heights([], freq, depth, h[1..len + 1], n, n)
  {
    var leaves := h[1..len + 1];
    forall x | x in leaves
      ensures HeightOf(depth, x) == 0 && FreqOf(freq, x) >= 1
    {
      var i :| 0 <= i < |leaves| && leaves[i] == x;
      assert h[i + 1] == x;
    }
    OptimalTrees.HeightsNone(freq, depth, leaves, n);
  }

  lemma {:induction false} FreqTotal(n: nat, freq: seq<nat>)
    ensures SumTo(n, FreqAt(freq)) >= 0
  {
    if n > 0 { FreqTotal(n - 1, freq); }
  }

  lemma {:induction false} SymbolsBelow(n: nat)
    ensures SumTo(n, One()) == n
  {
    if n > 0 { SymbolsBelow(n - 1); }
  }

  /** The lengths build_tree promises: a complete code within the limit that has
      exactly the used symbols, or two of them when fewer are used. */
  ghost predicate TreeLens(freq: seq<nat>, lens: seq<nat>, maxCode: nat, desc: StaticDesc) {
    && 0 < maxCode < desc.elems < |lens| == |freq|
    && (forall n :: 0 <= n <= maxCode ==> lens[n] <= desc.maxLength) && desc.maxLength <= MAXBITS
    && Kraft(lens[..maxCode + 1]) == UNIT
    && lens[maxCode] != 0 && (forall n :: maxCode < n < desc.elems ==> lens[n] == 0)
    && (forall n :: 0 <= n < desc.elems && freq[n] != 0 ==> lens[n] != 0)
    && ((exists a, b :: 0 <= a < b < desc.elems && freq[a] != 0 && freq[b] != 0) ==>
          forall n :: 0 <= n < desc.elems && lens[n] != 0 ==> freq[n] != 0)
  }

  /** Construct one Huffman tree and assign the code bit strings and lengths. */
  method BuildTree(s: HuffState, fc: array<nat>, dl: array<nat>, desc: StaticDesc) returns (maxCode: nat)
    requires s.Separate() && s.Apart(fc, dl) && desc.Valid() && fc.Length == 2 * desc.elems + 1
    requires SumTo(desc.elems, FreqAt(fc[..])) <= 65533
    modifies s`heapLen, s`heapMax, s`optLen, s`staticLen, s.heap, s.depth, s.blCount, fc, dl
    ensures TreeLens(old(fc[..]), dl[..], maxCode, desc)
    ensures ShortestCodes.ShortAsPossible(old(fc[..]), dl[..], desc.elems, desc.maxLength)
    ensures forall n :: 0 <= n <= maxCode && dl[n] != 0 ==> fc[n] == Huff(dl[..maxCode + 1], n)
    ensures s.optLen == old(s.optLen) + SumTo(maxCode + 1, Cost(old(fc[..]), dl[..], desc))
    ensures s.staticLen == old(s.staticLen) + if |desc.stree| == 0 then 0 else SumTo(maxCode + 1, Cost(old(fc[..]), desc.stree, desc))
  {
    hide TreeMade, TreeList, InArrays, TreeLens, LengthsFor, Cost, ShortestCodes.ShortAsPossible, OptimalTrees.Built;
    hide RootFirst, OptimalTrees.DepthIs, ListDepths, Deeper, Cut, CountsOf, Repaired, Ranked, Pick;
    ghost var freq0 := fc[..];
    ghost var leaves, forced, order, node;
    maxCode, leaves, forced, order, node := MakeTree(s, fc, dl, desc);
    ghost var l, freq, dad := s.List(), fc[..], dl[..];
    MadeReady(l, leaves, freq0, forced, freq, dad, maxCode, desc);
    SymbolsBelow(maxCode + 1);
    ghost var root, deep := s.heap[1], s.depth[..];
    ghost var dep := OptimalTrees.DepthIs(root, dad, node);
    ShortestCodes.ListHasDepths(root, order, dad, freq, deep, leaves, desc.elems, node);
    ghost var over, cut := s.GenBitlen(fc, dl, desc, maxCode, dep);
    ghost var lens := dl[..];
    MadeShort(root, order, l, leaves, freq0, forced, freq, deep, dad, node, lens, maxCode, desc, s.blCount[..], over);
    MadeLens(l, leaves, freq0, forced, freq, dad, lens, maxCode, desc, s.blCount[..]);
    GenCodes.GenCodes(fc, dl, maxCode, s.blCount);
    assert dl[..] == lens;
  }

  /** The lengths are as short as possible, also where a code was forced. */
  lemma MadeShort(root: nat, order: seq<nat>, l: seq<nat>, leaves: seq<nat>, freq0: seq<nat>, forced: seq<nat>, freq: seq<nat>, deep: seq<nat>,
                  dad: seq<nat>, node: nat, lens: seq<nat>, maxCode: nat, desc: StaticDesc, bl: seq<nat>, over: nat)
    requires TreeMade(l, leaves, freq0, forced, freq, dad, maxCode, desc) && LengthsFor(l, lens, maxCode, desc.maxLength, bl)
    requires OptimalTrees.Built(root, order, dad, freq, deep, leaves, desc.elems, node) && l == RootFirst(root, order)
    requires |lens| == |dad| == |freq| && forall x :: maxCode < x < |lens| && x !in l ==> lens[x] == dad[x]
    requires over == Deeper(l, OptimalTrees.DepthIs(root, dad, node), desc.maxLength)
    requires over == 0 ==> forall i :: 0 <= i < |l| && l[i] <= maxCode && l[i] < |lens| ==> lens[l[i]] == OptimalTrees.DepthIs(root, dad, node)(l[i])
    requires over > 0 ==> Ranked(l, 0, lens, maxCode, 0)
    ensures ShortestCodes.ShortAsPossible(freq0, lens, desc.elems, desc.maxLength)
  {
    hide *;
    var dep := OptimalTrees.DepthIs(root, dad, node);
    MadeLeaves(l, leaves, freq0, forced, freq, dad, lens, maxCode, desc, bl);
    if forced == [] {
      LeavesAsDeep(l, leaves, lens, maxCode, dep, over);
      ShortestCodes.TreeShort(root, order, leaves, freq, deep, dad, desc.elems, node, lens, maxCode, desc.maxLength, over);
      ShortestCodes.SameShort(freq, freq0, lens, desc.elems, desc.maxLength);
    } else {
      ShortestCodes.OneBitShort(freq0, lens, desc.elems, desc.maxLength);
    }
  }

  lemma MadeLeaves(l: seq<nat>, leaves: seq<nat>, freq0: seq<nat>, forced: seq<nat>, freq: seq<nat>, dad: seq<nat>, lens: seq<nat>,
                   maxCode: nat, desc: StaticDesc, bl: seq<nat>)
    requires TreeMade(l, leaves, freq0, forced, freq, dad, maxCode, desc) && LengthsFor(l, lens, maxCode, desc.maxLength, bl)
    requires |lens| == |dad| == |freq| && forall x :: maxCode < x < |lens| && x !in l ==> lens[x] == dad[x]
    ensures ShortestCodes.UsedLeaves(leaves, desc.elems, freq)
    ensures ShortestCodes.CanCode(freq, lens, desc.elems, desc.maxLength) && ShortestCodes.CanCode(freq0, lens, desc.elems, desc.maxLength)
    ensures forall x :: x in leaves ==> x in l && x <= maxCode < |lens|
    ensures forall n: nat :: n < desc.elems && FreqOf(lens, n) != 0 ==> n in leaves && n <= maxCode
    ensures forced == [] ==> forall x: nat :: x < desc.elems ==> FreqOf(freq0, x) == FreqOf(freq, x)
    ensures forced != [] ==> forall n: nat :: n < desc.elems ==> FreqOf(lens, n) <= 1
  {
    hide TreeList, InArrays, Kraft, Count, WithOnes, Unused, ValidLens, LengthsFor;
    UsedOnly(l, leaves, freq0, forced, freq, dad, lens, maxCode, desc, bl);
    ForcedOnes(leaves, freq0, forced, lens, maxCode, desc) by {
      assert 3 <= desc.elems && Kraft(lens[..maxCode + 1]) == UNIT;
    }
    hide TreeLens;
    ForceStart(freq0, desc.stree);
    forall n: nat | n < desc.elems && FreqOf(lens, n) != 0
      ensures n in leaves && n <= maxCode
    {
      LeafOnly(leaves, freq0, lens, maxCode, desc, n);
    }
    BothCode(leaves, freq0, freq, lens, maxCode, desc);
  }

  lemma BothCode(leaves: seq<nat>, freq0: seq<nat>, freq: seq<nat>, lens: seq<nat>, maxCode: nat, desc: StaticDesc)
    requires TreeLens(freq0, lens, maxCode, desc) && (forall x :: x in leaves ==> Used(lens[..maxCode + 1], x))
    requires forall x: nat :: x < desc.elems && FreqOf(freq, x) != 0 ==> x in leaves
    ensures ShortestCodes.CanCode(freq, lens, desc.elems, desc.maxLength) && ShortestCodes.CanCode(freq0, lens, desc.elems, desc.maxLength)
  {
    hide Kraft, ShortestCodes.CanCode;
    ShortestCodes.CompleteCodes(freq, lens, maxCode, desc.elems, desc.maxLength);
    ShortestCodes.CompleteCodes(freq0, lens, maxCode, desc.elems, desc.maxLength);
  }

  lemma LeafOnly(leaves: seq<nat>, freq0: seq<nat>, lens: seq<nat>, maxCode: nat, desc: StaticDesc, n: nat)
    requires TreeLens(freq0, lens, maxCode, desc) && n < desc.elems && FreqOf(lens, n) != 0
    requires forall x :: Used(lens[..maxCode + 1], x) ==> x in leaves
    ensures n in leaves && n <= maxCode
  {
    hide Kraft;
    assert Used(lens[..maxCode + 1], n);
  }

  lemma LeavesAsDeep(l: seq<nat>, leaves: seq<nat>, lens: seq<nat>, maxCode: nat, dep: nat -> nat, over: nat)
    requires forall x :: x in leaves ==> x in l && x <= maxCode < |lens|
    requires over == 0 ==> forall i :: 0 <= i < |l| && l[i] <= maxCode && l[i] < |lens| ==> lens[l[i]] == dep(l[i])
    ensures over == 0 ==> forall x :: x in leaves ==> FreqOf(lens, x) == dep(x)
  {
    forall x | x in leaves && over == 0
      ensures FreqOf(lens, x) == dep(x)
    {
      var i :| 0 <= i < |l| && l[i] == x;
    }
  }

  lemma MadeReady(l: seq<nat>, leaves: seq<nat>, freq0: seq<nat>, forced: seq<nat>, freq: seq<nat>, dad: seq<nat>,
                  maxCode: nat, desc: StaticDesc)
    requires TreeMade(l, leaves, freq0, forced, freq, dad, maxCode, desc)
    ensures TreeList(l, dad, maxCode) && InArrays(l, freq, maxCode, desc) && maxCode < desc.elems <= Pow2(desc.maxLength)
    ensures forall n :: 0 <= n <= maxCode && n !in l ==> n < |dad| && dad[n] == 0 && freq[n] == 0
    ensures |desc.stree| in {0, desc.elems}
  {
    ForcedSets(freq0, forced);
    hide TreeList, InArrays, WithOnes, Unused;
  }

  lemma MadeLens(l: seq<nat>, leaves: seq<nat>, freq0: seq<nat>, forced: seq<nat>, freq: seq<nat>, dad: seq<nat>, lens: seq<nat>,
                 maxCode: nat, desc: StaticDesc, bl: seq<nat>)
    requires TreeMade(l, leaves, freq0, forced, freq, dad, maxCode, desc) && LengthsFor(l, lens, maxCode, desc.maxLength, bl)
    requires |lens| == |dad| == |freq| && forall x :: maxCode < x < |lens| && x !in l ==> lens[x] == dad[x]
    ensures TreeLens(freq0, lens, maxCode, desc)
    ensures SumTo(maxCode + 1, Cost(freq, lens, desc)) == SumTo(maxCode + 1, Cost(freq0, lens, desc)) + |forced|
    ensures |desc.stree| != 0 ==>
      SumTo(maxCode + 1, Cost(freq, desc.stree, desc)) == SumTo(maxCode + 1, Cost(freq0, desc.stree, desc)) + LensAt(desc.stree, forced)
    ensures ValidLens(lens[..maxCode + 1]) && Kraft(lens[..maxCode + 1]) == UNIT
    ensures |bl| == MAXBITS + 1 && bl[0] == 0 && forall x :: 1 <= x <= MAXBITS ==> bl[x] == Count(lens[..maxCode + 1], x)
  {
    hide TreeList, InArrays, Kraft, Count, WithOnes, Unused, Cost, SumTo;
    ForcedSets(freq0, forced);
    UsedOnly(l, leaves, freq0, forced, freq, dad, lens, maxCode, desc, bl);
    ForcedOnes(leaves, freq0, forced, lens, maxCode, desc);
    hide TreeLens, LeafList, LengthsFor, LensAt;
    CostsSame(WithOnes(freq0, forced), freq, lens, desc, maxCode + 1);
    ForcedCost(freq0, forced, lens, desc, maxCode + 1);
    if |desc.stree| != 0 {
      CostsSame(WithOnes(freq0, forced), freq, desc.stree, desc, maxCode + 1);
      ForcedCost(freq0, forced, desc.stree, desc, maxCode + 1);
    }
  }

  /** Codes are forced only into trees of two leaves, where each gets one bit. */
  lemma ForcedOnes(leaves: seq<nat>, freq0: seq<nat>, forced: seq<nat>, lens: seq<nat>, maxCode: nat, desc: StaticDesc)
    requires Unused(freq0, forced) && LeafList(leaves, desc.elems, WithOnes(freq0, forced), maxCode) && 3 <= desc.elems
    requires |leaves| >= 2 && (forced != [] ==> |leaves| == 2)
    requires maxCode < |lens| && Kraft(lens[..maxCode + 1]) == UNIT
    requires forall x: nat :: x in leaves <==> Used(lens[..maxCode + 1], x)
    ensures LensAt(lens, forced) == |forced|
    ensures forall i :: 0 <= i < |forced| ==> forced[i] <= maxCode
    ensures forced != [] ==> forall x :: x in leaves ==> FreqOf(lens, x) == 1
  {
    hide Kraft, WithOnes, Unused;
    ForcedWithin(leaves, freq0, forced, maxCode, desc);
    hide LeafList;
    if forced != [] {
      LeavesPair(leaves, desc.elems, WithOnes(freq0, forced), maxCode);
      var ls := lens[..maxCode + 1];
      forall n | Used(ls, n)
        ensures n == leaves[0] || n == leaves[1]
      {
        assert (n as nat) in leaves;
      }
      TwoSymbols(ls, leaves[0], leaves[1]);
    }
    AllOnes(lens, forced);
  }

  lemma LeavesPair(leaves: seq<nat>, elems: nat, freq: seq<nat>, maxCode: nat)
    requires LeafList(leaves, elems, freq, maxCode) && |leaves| == 2
    ensures leaves[0] != leaves[1] && leaves[0] in leaves && leaves[1] in leaves
    ensures forall x :: x in leaves ==> x == leaves[0] || x == leaves[1]
  {
  }

  lemma CostsSame(f: seq<nat>, freq: seq<nat>, lens: seq<nat>, desc: StaticDesc, n: nat)
    requires |f| == |freq| && n <= desc.elems <= |freq| && forall x :: 0 <= x < desc.elems ==> freq[x] == f[x]
    ensures SumTo(n, Cost(freq, lens, desc)) == SumTo(n, Cost(f, lens, desc))
  {
    SumSame(n, Cost(freq, lens, desc), Cost(f, lens, desc));
  }

  lemma ForcedWithin(leaves: seq<nat>, freq0: seq<nat>, forced: seq<nat>, maxCode: nat, desc: StaticDesc)
    requires Unused(freq0, forced) && LeafList(leaves, desc.elems, WithOnes(freq0, forced), maxCode) && 3 <= desc.elems
    ensures forall i :: 0 <= i < |forced| ==> forced[i] <= maxCode && forced[i] in leaves
  {
    ForcedSets(freq0, forced);
    ForcedSmall(freq0, forced);
    hide WithOnes, Unused;
    forall i | 0 <= i < |forced|
      ensures forced[i] <= maxCode && forced[i] in leaves
    {
      assert FreqOf(WithOnes(freq0, forced), forced[i]) == 1;
      assert forced[i] in leaves;
    }
  }

  lemma {:induction false} ForcedSmall(freq: seq<nat>, forced: seq<nat>)
    requires Unused(freq, forced)
    ensures forall i :: 0 <= i < |forced| ==> forced[i] <= 2
  {
    if forced != [] { ForcedSmall(freq, forced[..|forced| - 1]); }
  }

  lemma UsedOnly(l: seq<nat>, leaves: seq<nat>, freq0: seq<nat>, forced: seq<nat>, freq: seq<nat>, dad: seq<nat>, lens: seq<nat>,
                 maxCode: nat, desc: StaticDesc, bl: seq<nat>)
    requires TreeMade(l, leaves, freq0, forced, freq, dad, maxCode, desc) && LengthsFor(l, lens, maxCode, desc.maxLength, bl)
    requires |lens| == |dad| == |freq| && forall x :: maxCode < x < |lens| && x !in l ==> lens[x] == dad[x]
    ensures TreeLens(freq0, lens, maxCode, desc) && ValidLens(lens[..maxCode + 1])
    ensures forall x: nat :: x in leaves ==> Used(lens[..maxCode + 1], x)
    ensures forall x :: Used(lens[..maxCode + 1], x) ==> x in leaves
  {
    hide TreeList, InArrays, Kraft, Count, WithOnes, Unused, Cost;
    ForcedSets(freq0, forced);
    ForcedWithin(leaves, freq0, forced, maxCode, desc);
    forall n: nat | n < desc.elems
      ensures lens[n] != 0 <==> n in leaves
    {
      if n > maxCode { assert n !in leaves; }
    }
    assert leaves[0] in leaves && leaves[1] in leaves;
    if a, b :| 0 <= a < b < desc.elems && freq0[a] != 0 && freq0[b] != 0 {
      OnlyLeaves(leaves, freq0, forced, a, b);
    }
  }

  /** Nothing is forced when two symbols are used. */
  lemma OnlyLeaves(leaves: seq<nat>, freq0: seq<nat>, forced: seq<nat>, a: nat, b: nat)
    requires a < b && a in leaves && b in leaves && (forced != [] ==> |leaves| == 2)
    requires a < |freq0| && b < |freq0| && freq0[a] != 0 && freq0[b] != 0
    requires forall i :: 0 <= i < |forced| ==> forced[i] in leaves && forced[i] < |freq0| && freq0[forced[i]] == 0
    ensures forced == []
  {
    if forced != [] {
      var i :| 0 <= i < |leaves| && leaves[i] == a;
      var j :| 0 <= j < |leaves| && leaves[j] == b;
      var k :| 0 <= k < |leaves| && leaves[k] == forced[0];
    }
  }
}
