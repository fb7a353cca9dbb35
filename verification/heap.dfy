/** The heap used to build Huffman trees: node numbers in heap[1..heapLen],
    ordered by frequency with subtree depth as tie breaker. */
module TreeHeap {

  /** smaller(tree, n, m, depth) */
  predicate Smaller(freq: seq<nat>, depth: seq<nat>, n: nat, m: nat)
    requires n < |freq| && m < |freq| && n < |depth| && m < |depth|
  {
    freq[n] < freq[m] || (freq[n] == freq[m] && depth[n] <= depth[m])
  }

  /** heap[1..len] holds node numbers. */
  ghost predicate Nodes(h: seq<nat>, len: nat, freq: seq<nat>, depth: seq<nat>) {
    len < |h| && forall i :: 1 <= i <= len ==> h[i] < |freq| && h[i] < |depth|
  }

  /** Every father from lo on is smaller than its sons. */
  ghost predicate HeapFrom(h: seq<nat>, len: nat, lo: nat, freq: seq<nat>, depth: seq<nat>)
    requires Nodes(h, len, freq, depth)
  {
    forall i :: 2 <= i <= len && lo <= i / 2 ==> Smaller(freq, depth, h[i / 2], h[i])
  }

  /** As HeapFrom, except that the value at k may be too large for its place. */
  ghost predicate HoleAt(h: seq<nat>, len: nat, lo: nat, k: nat, freq: seq<nat>, depth: seq<nat>)
    requires Nodes(h, len, freq, depth)
  {
    && (forall i :: 2 <= i <= len && lo <= i / 2 && i / 2 != k ==> Smaller(freq, depth, h[i / 2], h[i]))
    && (lo <= k / 2 ==> forall i :: 2 <= i <= len && i / 2 == k && k >= 2 ==> Smaller(freq, depth, h[k / 2], h[i]))
  }

  function Swap(h: seq<nat>, a: nat, b: nat): seq<nat>
    requires a < |h| && b < |h|
  {
    h[a := h[b]][b := h[a]]
  }

  lemma SwapPermutes(h: seq<nat>, a: nat, b: nat, len: nat)
    requires 1 <= a <= len && 1 <= b <= len < |h|
    ensures multiset(Swap(h, a, b)[1..len + 1]) == multiset(h[1..len + 1])
  {
    var s := h[1..len + 1];
    assert Swap(h, a, b)[1..len + 1] == s[a - 1 := s[b - 1]][b - 1 := s[a - 1]];
  }

  lemma SiftStep(h: seq<nat>, len: nat, lo: nat, k: nat, j: nat, freq: seq<nat>, depth: seq<nat>)
    requires Nodes(h, len, freq, depth) && 1 <= lo <= k && j <= len && j / 2 == k
    requires HoleAt(h, len, lo, k, freq, depth)
    requires forall i :: 2 <= i <= len && i / 2 == k ==> Smaller(freq, depth, h[j], h[i])
    requires !Smaller(freq, depth, h[k], h[j])
    ensures Nodes(Swap(h, k, j), len, freq, depth) && HoleAt(Swap(h, k, j), len, lo, j, freq, depth)
  {
  }

  /** The smallest element is at the root. */
  lemma {:induction false} RootSmallest(h: seq<nat>, len: nat, i: nat, freq: seq<nat>, depth: seq<nat>)
    requires Nodes(h, len, freq, depth) && HeapFrom(h, len, 1, freq, depth) && 1 <= i <= len
    ensures Smaller(freq, depth, h[1], h[i])
  {
    if i >= 2 {
      RootSmallest(h, len, i / 2, freq, depth);
    }
  }

  /** Set j to the smallest of the two sons of k. */
  method SmallestSon(heap: array<nat>, len: nat, fc: array<nat>, depth: array<nat>, k: nat, ghost g: seq<nat>) returns (j: nat)
    requires 1 <= k && 2 * k <= len < heap.Length == |g| && heap[..] == g[k := heap[k]]
    requires Nodes(g, len, fc[..], depth[..])
    ensures SmallerSon(g, len, k, j, fc[..], depth[..])
    ensures heap[j] == g[j] < fc.Length && g[j] < depth.Length
  {
    j := 2 * k;
    assert heap[j] == g[j];
    if j < len {
      assert heap[j + 1] == g[j + 1];
      if Smaller(fc[..], depth[..], heap[j + 1], heap[j]) {
        j := j + 1;
      }
    }
  }

  /** Restore the heap property by moving the node at k down. */
  method PqDownHeap(heap: array<nat>, len: nat, fc: array<nat>, depth: array<nat>, k0: nat)
    requires heap != fc && heap != depth
    requires 1 <= k0 <= len && Nodes(heap[..], len, fc[..], depth[..])
    requires HeapFrom(heap[..], len, k0 + 1, fc[..], depth[..])
    modifies heap
    ensures Nodes(heap[..], len, fc[..], depth[..]) && HeapFrom(heap[..], len, k0, fc[..], depth[..])
    ensures multiset(heap[1..len + 1]) == old(multiset(heap[1..len + 1]))
    ensures forall i :: 0 <= i < heap.Length && !(k0 <= i <= len) ==> heap[i] == old(heap[i])
  {
    hide Nodes, HeapFrom, HoleAt, Swap;
    ghost var freq, deep, was := fc[..], depth[..], heap[..];
    var k := k0;
    NodeAt(was, len, k, freq, deep);
    NodeAt(was, len, len, freq, deep);
    HoleStart(was, len, k0, freq, deep);
    var v := heap[k];
    var j := 2 * k;
    ghost var g := was;
    while j <= len
      invariant k0 <= k <= len < heap.Length && j == 2 * k
      invariant |g| == heap.Length && g[k] == v && heap[..] == g[k := heap[k]]
      invariant Nodes(g, len, freq, deep) && HoleAt(g, len, k0, k, freq, deep)
      invariant SameOutside(was, g, k0, len)
      decreases len - k
    {
      hide SameOutside;
      var c := SmallestSon(heap, len, fc, depth, k, g);
      NodeAt(g, len, k, freq, deep);
      if Smaller(fc[..], depth[..], v, heap[c]) {
        SonsLarger(g, len, k, c, freq, deep);
        break;
      }
      SiftDown(was, g, len, k0, k, c, freq, deep);
      g := Swap(g, k, c);
      heap[k] := heap[c];
      k := c;
      j := 2 * c;
    }
    HoleDone(g, len, k0, k, freq, deep);
    heap[k] := v;
    assert heap[..] == g;
    assert heap[1..len + 1] == g[1..len + 1];
  }

  /** h' is h with the elements lo..len permuted within heap[1..len]. */
  ghost predicate SameOutside(h: seq<nat>, h': seq<nat>, lo: nat, len: nat) {
    && |h'| == |h| && len < |h|
    && multiset(h'[1..len + 1]) == multiset(h[1..len + 1])
    && forall i :: 0 <= i < |h| && !(lo <= i <= len) ==> h'[i] == h[i]
  }

  lemma NodeAt(h: seq<nat>, len: nat, i: nat, freq: seq<nat>, depth: seq<nat>)
    requires Nodes(h, len, freq, depth) && 1 <= i <= len
    ensures i < |h| && h[i] < |freq| && h[i] < |depth|
  {
  }

  lemma HoleStart(h: seq<nat>, len: nat, lo: nat, freq: seq<nat>, depth: seq<nat>)
    requires 1 <= lo && Nodes(h, len, freq, depth) && HeapFrom(h, len, lo + 1, freq, depth)
    ensures HoleAt(h, len, lo, lo, freq, depth)
  {
  }

  ghost predicate NoSmallerSon(h: seq<nat>, len: nat, k: nat, freq: seq<nat>, depth: seq<nat>)
    requires Nodes(h, len, freq, depth)
  {
    1 <= k <= len && forall i :: 2 <= i <= len && i / 2 == k ==> Smaller(freq, depth, h[k], h[i])
  }

  /** c is the smaller of the sons of k. */
  ghost predicate SmallerSon(h: seq<nat>, len: nat, k: nat, c: nat, freq: seq<nat>, depth: seq<nat>)
    requires Nodes(h, len, freq, depth) && 1 <= k
  {
    && 2 * k <= c <= len && c <= 2 * k + 1
    && Smaller(freq, depth, h[c], h[2 * k])
    && (2 * k < len ==> Smaller(freq, depth, h[c], h[2 * k + 1]))
  }

  lemma SonsLarger(h: seq<nat>, len: nat, k: nat, c: nat, freq: seq<nat>, depth: seq<nat>)
    requires Nodes(h, len, freq, depth) && 1 <= k <= len && SmallerSon(h, len, k, c, freq, depth)
    requires Smaller(freq, depth, h[k], h[c])
    ensures NoSmallerSon(h, len, k, freq, depth)
  {
    forall i | 2 <= i <= len && i / 2 == k
      ensures Smaller(freq, depth, h[k], h[i])
    {
      assert i == 2 * k || i == 2 * k + 1;
    }
  }

  lemma SiftDown(was: seq<nat>, h: seq<nat>, len: nat, lo: nat, k: nat, c: nat, freq: seq<nat>, depth: seq<nat>)
    requires Nodes(h, len, freq, depth) && 1 <= lo <= k && SmallerSon(h, len, k, c, freq, depth)
    requires HoleAt(h, len, lo, k, freq, depth) && SameOutside(was, h, lo, len)
    requires !Smaller(freq, depth, h[k], h[c])
    ensures Nodes(Swap(h, k, c), len, freq, depth) && HoleAt(Swap(h, k, c), len, lo, c, freq, depth)
    ensures SameOutside(was, Swap(h, k, c), lo, len) && Swap(h, k, c) == h[k := h[c]][c := h[k]]
  {
    SwapPermutes(h, k, c, len);
    SiftStep(h, len, lo, k, c, freq, depth);
  }

  lemma HoleDone(h: seq<nat>, len: nat, lo: nat, k: nat, freq: seq<nat>, depth: seq<nat>)
    requires Nodes(h, len, freq, depth) && HoleAt(h, len, lo, k, freq, depth) && 1 <= k <= len
    requires 2 * k <= len ==> NoSmallerSon(h, len, k, freq, depth)
    ensures HeapFrom(h, len, lo, freq, depth)
  {
  }
}
