/** What a match is: equal strings a distance apart, in the input and in the window. */
module Matching {
  import opened Tokens

  const MIN_LOOKAHEAD := MAX_MATCH + MIN_MATCH + 1

  predicate Bytes(s: seq<nat>) {
    forall i :: 0 <= i < |s| ==> s[i] < 256
  }

  /** The len bytes at pos repeat those a distance d before. */
  predicate MatchAt(data: seq<nat>, pos: nat, d: nat, len: nat) {
    1 <= d <= pos && pos + len <= |data| && data[pos - d..pos - d + len] == data[pos..pos + len]
  }

  /** After the input up to from, the token yields the input up to to. */
  ghost predicate Covers(data: seq<nat>, from: int, t: Token, to: int) {
    0 <= from <= to <= |data| && t.Valid() && Follows(data[..from], t) && ReplayOne(data[..from], t) == data[..to]
  }

  /** Copying back, byte by byte, yields a match even where it overlaps itself. */
  lemma {:induction false} MatchCopies(data: seq<nat>, pos: nat, d: nat, len: nat)
    requires MatchAt(data, pos, d, len)
    ensures CopyBack(data[..pos], len, d) == data[..pos + len]
    decreases len
  {
    if len > 0 {
      var a, b := data[pos - d..pos - d + len], data[pos..pos + len];
      assert a[0] == b[0];
      assert data[..pos] + [data[pos - d]] == data[..pos + 1];
      assert data[pos + 1 - d..pos - d + len] == a[1..] && data[pos + 1..pos + len] == b[1..];
      MatchCopies(data, pos + 1, d, len - 1);
    }
  }

  lemma MatchCovers(data: seq<nat>, pos: nat, d: nat, len: nat)
    requires MatchAt(data, pos, d, len) && MIN_MATCH <= len <= MAX_MATCH && d <= 32768
    ensures Covers(data, pos, Match(len, d), pos + len)
  {
    MatchCopies(data, pos, d, len);
  }

  lemma LitCovers(data: seq<nat>, pos: nat)
    requires pos < |data| && Bytes(data)
    ensures Covers(data, pos, Lit(data[pos]), pos + 1)
  {
    assert data[..pos] + [data[pos]] == data[..pos + 1];
  }

  /** A match stays one when more input is read. */
  lemma MatchStays(data: seq<nat>, more: seq<nat>, pos: nat, d: nat, len: nat)
    requires MatchAt(data, pos, d, len) && data <= more
    ensures MatchAt(more, pos, d, len)
  {
    assert more[pos - d..pos - d + len] == data[pos - d..pos - d + len];
    assert more[pos..pos + len] == data[pos..pos + len];
  }

  // ---- the same in the window ----

  /** n bytes at c and at s agree. */
  predicate Same(win: seq<nat>, c: nat, s: nat, n: nat) {
    c + n <= |win| && s + n <= |win| && win[c..c + n] == win[s..s + n]
  }

  lemma SameSnoc(win: seq<nat>, c: nat, s: nat, n: nat)
    requires c + n < |win| && s + n < |win|
    ensures Same(win, c, s, n + 1) <==> Same(win, c, s, n) && win[c + n] == win[s + n]
  {
    SliceSnoc(win, c, n);
    SliceSnoc(win, s, n);
    assert win[c..c + n + 1][n] == win[c + n] && win[s..s + n + 1][n] == win[s + n];
    SubSlice(win, c, c + n + 1, n);
    SubSlice(win, s, s + n + 1, n);
  }

  lemma SliceSnoc(s: seq<nat>, i: nat, n: nat)
    requires i + n < |s|
    ensures s[i..i + n + 1] == s[i..i + n] + [s[i + n]]
  {
  }

  lemma SubSlice(s: seq<nat>, i: nat, j: nat, n: nat)
    requires i + n <= j <= |s|
    ensures s[i..j][..n] == s[i..i + n]
  {
  }

  lemma SameShorter(win: seq<nat>, c: nat, s: nat, n: nat, m: nat)
    requires Same(win, c, s, n) && m <= n
    ensures Same(win, c, s, m)
  {
    SubSlice(win, c, c + n, m);
    SubSlice(win, s, s + n, m);
  }

  lemma SameByte(win: seq<nat>, c: nat, s: nat, n: nat, i: nat)
    requires Same(win, c, s, n) && i < n
    ensures win[c + i] == win[s + i]
  {
    assert win[c + i] == win[c..c + n][i] && win[s + i] == win[s..s + n][i];
  }

  /** No match with the string at c is longer than best. */
  predicate NoLonger(win: seq<nat>, c: nat, s: nat, best: nat) {
    best >= MAX_MATCH || !Same(win, c, s, best + 1)
  }

  lemma NoLongerThan(win: seq<nat>, c: nat, s: nat, best: nat, more: nat)
    requires NoLonger(win, c, s, best) && best <= more
    ensures NoLonger(win, c, s, more)
  {
    if Same(win, c, s, more + 1) && best < MAX_MATCH { SameShorter(win, c, s, more + 1, best + 1); }
  }

  /** The first n strings of a chain, from cur on and above limit. */
  function Candidates(prev: seq<nat>, cur: nat, limit: nat, n: nat): (c: seq<nat>)
    requires |prev| > 0 && n > 0
    ensures |c| > 0
    decreases n
  {
    var next := prev[cur % |prev|];
    [cur] + if next <= limit || n == 1 then [] else Candidates(prev, next, limit, n - 1)
  }

  /** The string at window index s repeats the one at c for n bytes. */
  predicate Reaches(data: seq<nat>, base: nat, s: nat, c: nat, n: nat) {
    c < s && MatchAt(data, base + s, s - c, n)
  }

  ghost predicate NoneAt(data: seq<nat>, base: nat, s: nat, c: nat, bound: nat) {
    forall n: nat :: n <= MAX_MATCH && Reaches(data, base, s, c, n) ==> n <= bound
  }

  /** No candidate starts a match of the string at s longer than bound. */
  ghost predicate NoneLongerThan(data: seq<nat>, base: nat, s: nat, tried: seq<nat>, bound: nat) {
    forall i :: 0 <= i < |tried| ==> NoneAt(data, base, s, tried[i], bound)
  }

  /** The window holds the input from base on. */
  predicate Holds(win: seq<nat>, data: seq<nat>, base: nat, n: nat) {
    n <= |win| && base + n == |data| && win[..n] == data[base..]
  }

  lemma HoldsAt(win: seq<nat>, data: seq<nat>, base: nat, n: nat, i: nat)
    requires Holds(win, data, base, n) && i < n
    ensures i < |win| && win[i] == data[base + i]
  {
    assert win[i] == win[..n][i];
  }

  lemma HoldsSlice(win: seq<nat>, data: seq<nat>, base: nat, n: nat, i: nat, j: nat)
    requires Holds(win, data, base, n) && i <= j <= n
    ensures win[i..j] == data[base + i..base + j]
  {
    assert win[i..j] == win[..n][i..j] && data[base + i..base + j] == data[base..][i..j];
  }

  /** Equal strings in the window, cut to the lookahead, are a match in the input. */
  lemma WindowMatch(win: seq<nat>, data: seq<nat>, base: nat, n: nat, c: nat, s: nat, len: nat)
    requires Holds(win, data, base, n) && c < s && s + len <= n && Same(win, c, s, len)
    ensures MatchAt(data, base + s, s - c, len)
  {
    HoldsSlice(win, data, base, n, c, c + len);
    HoldsSlice(win, data, base, n, s, s + len);
  }

  lemma MatchInWindow(win: seq<nat>, data: seq<nat>, base: nat, n: nat, c: nat, s: nat, len: nat)
    requires Holds(win, data, base, n) && c < s && MatchAt(data, base + s, s - c, len)
    ensures s + len <= n && Same(win, c, s, len)
  {
    HoldsSlice(win, data, base, n, c, c + len);
    HoldsSlice(win, data, base, n, s, s + len);
  }
}
