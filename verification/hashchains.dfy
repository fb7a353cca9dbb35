/** Hash chains over a sliding window: heads by key, and links to older strings in
    an array indexed by position modulo the window size. */
module HashChains {
  import opened RollingHash

  /** The key of the string at position p of the whole input. */
  function KeyAt(hp: Hashing, data: seq<nat>, p: nat): nat {
    if p + 3 <= |data| then hp.Key(data[p], data[p + 1], data[p + 2]) else 0
  }

  /** Window index q is either the end of a chain or an inserted string with this key. */
  ghost predicate Entry(hp: Hashing, data: seq<nat>, base: nat, ins: set<nat>, q: nat, key: nat) {
    q == 0 || (base + q in ins && KeyAt(hp, data, base + q) == key)
  }

  ghost predicate Heads(hp: Hashing, data: seq<nat>, base: nat, ins: set<nat>, head: seq<nat>) {
    |head| == hp.Size() && forall k :: 0 <= k < |head| ==> Entry(hp, data, base, ins, head[k], k)
  }

  /** q is the link of the string at p: an older string with the same key, or none. */
  ghost predicate Linked(hp: Hashing, data: seq<nat>, base: nat, ins: set<nat>, p: nat, q: nat) {
    (q != 0 ==> base + q < p) && Entry(hp, data, base, ins, q, KeyAt(hp, data, p))
  }

  /** Where the link of the string at p is kept. */
  function Slot(p: nat, base: nat, w: nat): (s: nat)
    requires base <= p && w > 0
    ensures s < w
  {
    (p - base) % w
  }

  /** The links of the strings less than a window before lim, which no later string
      has overwritten. */
  ghost predicate Links(hp: Hashing, data: seq<nat>, base: nat, ins: set<nat>, prev: seq<nat>, lim: nat) {
    |prev| > 0 &&
    forall p :: p in ins && base <= p && p - base + |prev| >= lim ==> Linked(hp, data, base, ins, p, prev[Slot(p, base, |prev|)])
  }

  /** Inserted strings lie before next and have three bytes. */
  ghost predicate Inserted(data: seq<nat>, base: nat, ins: set<nat>, next: nat) {
    forall p :: p in ins ==> p < base + next && p + 3 <= |data|
  }

  /** Strings before next may be inserted; links are kept for a window before lim. */
  ghost predicate Chains(hp: Hashing, data: seq<nat>, base: nat, ins: set<nat>, head: seq<nat>, prev: seq<nat>, next: nat, lim: nat) {
    next <= lim && Heads(hp, data, base, ins, head) && Links(hp, data, base, ins, prev, lim) && Inserted(data, base, ins, next)
  }

  lemma ChainsLater(hp: Hashing, data: seq<nat>, base: nat, ins: set<nat>, head: seq<nat>, prev: seq<nat>, next: nat, lim: nat,
                    next1: nat, lim1: nat)
    requires Chains(hp, data, base, ins, head, prev, next, lim) && next <= next1 <= lim1 && lim <= lim1
    ensures Chains(hp, data, base, ins, head, prev, next1, lim1)
  {
    hide Entry, Linked, KeyAt, Slot;
  }

  /** Only whole strings are inserted, so the last two positions are not. */
  lemma ChainsAtEnd(hp: Hashing, data: seq<nat>, base: nat, ins: set<nat>, head: seq<nat>, prev: seq<nat>, next: nat,
                    next1: nat, lim: nat)
    requires Chains(hp, data, base, ins, head, prev, next, lim) && |data| <= base + next1 + 2 && next1 <= lim
    ensures Chains(hp, data, base, ins, head, prev, next1, lim)
  {
    hide Entry, Linked, KeyAt, Slot;
  }

  lemma KeyStays(hp: Hashing, data: seq<nat>, more: seq<nat>, p: nat)
    requires p + 3 <= |data| && data <= more
    ensures KeyAt(hp, more, p) == KeyAt(hp, data, p)
  {
  }

  lemma EntryStays(hp: Hashing, data: seq<nat>, more: seq<nat>, base: nat, ins: set<nat>, next: nat, q: nat, key: nat)
    requires Inserted(data, base, ins, next) && data <= more && Entry(hp, data, base, ins, q, key)
    ensures Entry(hp, more, base, ins, q, key)
  {
    hide KeyAt;
    if q != 0 { KeyStays(hp, data, more, base + q); }
  }

  /** More input does not disturb the chains. */
  lemma ChainsMoreData(hp: Hashing, data: seq<nat>, more: seq<nat>, base: nat, ins: set<nat>, head: seq<nat>, prev: seq<nat>,
                       next: nat, lim: nat)
    requires Chains(hp, data, base, ins, head, prev, next, lim) && data <= more
    ensures Chains(hp, more, base, ins, head, prev, next, lim)
  {
    hide Entry, KeyAt, Slot;
    forall k | 0 <= k < |head|
      ensures Entry(hp, more, base, ins, head[k], k)
    {
      EntryStays(hp, data, more, base, ins, next, head[k], k);
    }
    forall p | p in ins && base <= p && p - base + |prev| >= lim
      ensures Linked(hp, more, base, ins, p, prev[Slot(p, base, |prev|)])
    {
      KeyStays(hp, data, more, p);
      EntryStays(hp, data, more, base, ins, next, prev[Slot(p, base, |prev|)], KeyAt(hp, data, p));
    }
  }

  lemma EntryMore(hp: Hashing, data: seq<nat>, base: nat, ins: set<nat>, p: nat, q: nat, key: nat)
    requires Entry(hp, data, base, ins, q, key)
    ensures Entry(hp, data, base, ins + {p}, q, key)
  {
  }

  lemma EntryNew(hp: Hashing, data: seq<nat>, base: nat, ins: set<nat>, q: nat)
    ensures Entry(hp, data, base, ins + {base + q}, q, KeyAt(hp, data, base + q))
  {
  }

  /** A head is older than anything not yet inserted. */
  lemma HeadLinks(hp: Hashing, data: seq<nat>, base: nat, ins: set<nat>, head: seq<nat>, prev: seq<nat>, str: nat, lim: nat)
    requires Chains(hp, data, base, ins, head, prev, str, lim)
    requires KeyAt(hp, data, base + str) < |head|
    ensures Linked(hp, data, base, ins, base + str, head[KeyAt(hp, data, base + str)])
  {
    hide KeyAt;
    assert Entry(hp, data, base, ins, head[KeyAt(hp, data, base + str)], KeyAt(hp, data, base + str));
  }

  /** Strings within a window of each other have different slots. */
  lemma SlotsDiffer(p: nat, q: nat, base: nat, w: nat)
    requires w > 0 && base <= p < q < p + w
    ensures Slot(p, base, w) != Slot(q, base, w)
  {
    var a, b := p - base, q - base;
    assert a == a / w * w + a % w && b == b / w * w + b % w;
    if a % w == b % w {
      assert (b / w - a / w) * w == b - a by { DistributeSub(b / w, a / w, w); }
      MultipleApart(b / w - a / w, w);
    }
  }

  lemma DistributeSub(x: int, y: int, w: int)
    ensures (x - y) * w == x * w - y * w
  {
  }

  /** A multiple of w is not between 0 and w, whatever its sign. */
  lemma MultipleApart(k: int, w: nat)
    ensures k * w <= 0 || k * w >= w
  {
    if k > 0 { Increasing(k - 1, w); }
    DistributeSub(k, 1, w);
  }

  lemma Increasing(k: nat, w: nat)
    ensures k * w >= 0
  {
  }

  /** Insertion puts the string at the head of the chain of its key. */
  lemma ChainsInsert(hp: Hashing, data: seq<nat>, base: nat, ins: set<nat>, head: seq<nat>, prev: seq<nat>, str: nat, lim: nat, key: nat)
    requires Chains(hp, data, base, ins, head, prev, str, lim) && base + str + 3 <= |data| && hp.Valid()
    requires key == KeyAt(hp, data, base + str) && key < |head|
    ensures Chains(hp, data, base, ins + {base + str}, head[key := str],
                   prev[Slot(base + str, base, |prev|) := head[key]], str + 1, if lim <= str then str + 1 else lim)
  {
    hide Entry, KeyAt, Slot;
    var now := ins + {base + str};
    var w := |prev|;
    var link := Slot(base + str, base, w);
    var head1, prev1 := head[key := str], prev[link := head[key]];
    forall k | 0 <= k < |head1|
      ensures Entry(hp, data, base, now, head1[k], k)
    {
      if k == key { EntryNew(hp, data, base, ins, str); } else { EntryMore(hp, data, base, ins, base + str, head[k], k); }
    }
    HeadLinks(hp, data, base, ins, head, prev, str, lim);
    forall p | p in now && base <= p && p - base + w >= (if lim <= str then str + 1 else lim)
      ensures Linked(hp, data, base, now, p, prev1[Slot(p, base, w)])
    {
      if p == base + str {
        EntryMore(hp, data, base, ins, base + str, head[key], key);
      } else {
        SlotsDiffer(p, base + str, base, w);
        EntryMore(hp, data, base, ins, base + str, prev[Slot(p, base, w)], KeyAt(hp, data, p));
      }
    }
  }

  /** A window index after the window has moved up by w; older ones become NIL. */
  function Slid(q: nat, w: nat): nat {
    if q >= w then q - w else 0
  }

  function SlidAll(s: seq<nat>, w: nat): (r: seq<nat>)
    ensures |r| == |s|
  {
    seq(|s|, i requires 0 <= i < |s| => Slid(s[i], w))
  }

  lemma SlotSlides(p: nat, base: nat, w: nat)
    requires w > 0 && base + w <= p
    ensures Slot(p, base + w, w) == Slot(p, base, w)
  {
    assert (p - base - w + w) % w == (p - base - w) % w by { ModAdd(p - base - w, w); }
  }

  lemma ModAdd(a: nat, w: nat)
    requires w > 0
    ensures (a + w) % w == a % w
  {
    var q, r := a / w, a % w;
    assert a + w == (q + 1) * w + r by { DistributeSub(q, -1, w); }
    ModUnique(a + w, q + 1, r, w);
  }

  lemma ModUnique(x: nat, q: nat, r: nat, w: nat)
    requires w > 0 && x == q * w + r && r < w
    ensures x % w == r
  {
    DistributeSub(x / w, q, w);
    DistributeSub(q, x / w, w);
    MultipleApart(x / w - q, w);
    MultipleApart(q - x / w, w);
  }

  /** The chains survive a slide of the window. */
  lemma ChainsSlide(hp: Hashing, data: seq<nat>, base: nat, ins: set<nat>, head: seq<nat>, prev: seq<nat>,
                    next: nat, lim: nat)
    requires Chains(hp, data, base, ins, head, prev, next, lim) && next >= |prev|
    ensures Chains(hp, data, base + |prev|, ins, SlidAll(head, |prev|), SlidAll(prev, |prev|), next - |prev|, lim - |prev|)
  {
    hide KeyAt, Slot;
    var w := |prev|;
    forall k | 0 <= k < |head|
      ensures Entry(hp, data, base + w, ins, SlidAll(head, w)[k], k)
    {
      assert Entry(hp, data, base, ins, head[k], k);
    }
    forall p | p in ins && base + w <= p && p - (base + w) + w >= lim - w
      ensures Linked(hp, data, base + w, ins, p, SlidAll(prev, w)[Slot(p, base + w, w)])
    {
      SlotSlides(p, base, w);
      assert Linked(hp, data, base, ins, p, prev[Slot(p, base, w)]);
    }
  }

  lemma ChainsEmpty(hp: Hashing, data: seq<nat>, base: nat, head: seq<nat>, prev: seq<nat>, next: nat, lim: nat)
    requires next <= lim && |head| == hp.Size() && |prev| > 0 && forall k :: 0 <= k < |head| ==> head[k] == 0
    ensures Chains(hp, data, base, {}, head, prev, next, lim)
  {
  }

  lemma ChainsNone(hp: Hashing, data: seq<nat>, base: nat, head: seq<nat>, prev: seq<nat>, next: nat, lim: nat, next1: nat)
    requires Chains(hp, data, base, {}, head, prev, next, lim)
    ensures Chains(hp, data, base, {}, head, prev, next1, next1)
  {
  }

  /** The link of a recent string leads to an older string with the same key. */
  lemma FollowLink(hp: Hashing, data: seq<nat>, base: nat, ins: set<nat>, head: seq<nat>, prev: seq<nat>,
                   next: nat, lim: nat, cur: nat, key: nat)
    requires Chains(hp, data, base, ins, head, prev, next, lim)
    requires cur != 0 && Entry(hp, data, base, ins, cur, key) && cur + |prev| >= lim
    ensures cur % |prev| < |prev| && var q := prev[cur % |prev|]; q < cur && Entry(hp, data, base, ins, q, key)
  {
    hide KeyAt;
    assert Linked(hp, data, base, ins, base + cur, prev[Slot(base + cur, base, |prev|)]);
  }

  /** Strings with the same key and the same first two bytes agree on the third. */
  lemma SameThird(hp: Hashing, data: seq<nat>, p: nat, q: nat)
    requires hp.Valid() && p + 3 <= |data| && q + 3 <= |data| && forall i :: 0 <= i < |data| ==> data[i] < 256
    requires KeyAt(hp, data, p) == KeyAt(hp, data, q) && data[p] == data[q] && data[p + 1] == data[q + 1]
    ensures data[p + 2] == data[q + 2]
  {
    hp.ThirdByte(data[p], data[p + 1], data[p + 2], data[q + 2]);
  }
}
