/** The circular history window of the inflater. */
module SlidingWindow {

  const WSIZE := 32768

  /** The last n elements, or all of them. */
  function Last(s: seq<nat>, n: nat): (r: seq<nat>)
    ensures |r| == if |s| < n then |s| else n
  {
    if |s| <= n then s else s[|s| - n..]
  }

  lemma LastOfLast(s: seq<nat>, t: seq<nat>, n: nat)
    ensures Last(Last(s, n) + t, n) == Last(s + t, n)
  {
  }

  class Window {
    const data: array<nat>
    var wsize: nat
    var whave: nat
    var wnext: nat

    constructor ()
      ensures Holds([]) && wsize == 0
      ensures fresh(data)
    {
      data := new nat[WSIZE];
      wsize, whave, wnext := 0, 0, 0;
    }

    /** Read from its oldest byte the window holds exactly the end of the history. */
    ghost predicate Holds(history: seq<nat>)
      reads this, data
    {
      && data.Length == WSIZE && wsize in {0, WSIZE}
      && (wsize == 0 ==> whave == 0 && wnext == 0)
      && wnext < WSIZE && whave <= WSIZE
      && (whave < WSIZE ==> wnext == whave)
      && Contents() == Last(history, if wsize == 0 then 0 else WSIZE)
    }

    /** The bytes held, oldest first. */
    ghost function Contents(): seq<nat>
      reads this, data
    {
      if wnext < data.Length == WSIZE then
        if whave < WSIZE then data[..wnext] else data[wnext..] + data[..wnext]
      else []
    }

    /** Copy bytes into the window. */
    method Fill(at: nat, s: seq<nat>)
      requires at + |s| <= data.Length
      modifies data
      ensures data[..] == old(data[..at]) + s + old(data[at + |s|..])
    {
      for i := 0 to |s|
        invariant forall k :: 0 <= k < i ==> data[at + k] == s[k]
        invariant forall k :: 0 <= k < data.Length && !(at <= k < at + i) ==> data[k] == old(data[k])
      {
        data[at + i] := s[i];
      }
    }

    /** Update the window with the bytes written before returning from inflate. */
    method UpdateWindow(put: seq<nat>, ghost history: seq<nat>)
      requires Holds(history) && (wsize == 0 ==> history == [])
      modifies this, data
      ensures Holds(history + put) && wsize == WSIZE
      ensures whave == if |history + put| < WSIZE then |history + put| else WSIZE
    {
      if wsize == 0 {
        wsize, wnext, whave := WSIZE, 0, 0;
        assert Contents() == [];
      }
      ghost var was := Contents();
      LastOfLast(history, put, WSIZE);
      assert was == Last(history, WSIZE);
      var copy := |put|;
      if copy >= wsize {
        Fill(0, put[copy - wsize..]);
        wnext, whave := 0, wsize;
        assert Contents() == put[copy - wsize..];
      } else {
        var dist := wsize - wnext;
        if dist > copy { dist := copy; }
        WrapAround(put, dist, copy, history);
      }
    }

    /** inflateGetDictionary: the sliding dictionary and its length. */
    method GetDictionary(ghost history: seq<nat>) returns (dictionary: seq<nat>, dictLength: nat)
      requires Holds(history)
      ensures dictLength == |dictionary| && dictionary == Last(history, wsize)
      ensures wsize == WSIZE ==> dictionary == Last(history, WSIZE)
    {
      dictionary := [];
      if whave != 0 {
        dictionary := data[wnext..whave] + data[..wnext];
      }
      dictLength := whave;
    }

    /** The byte op back from the end of the history. */
    lemma ByteAt(history: seq<nat>, op: nat)
      requires Holds(history) && 1 <= op <= whave
      ensures op <= |history| && op <= WSIZE
      ensures op <= wnext ==> data[wnext - op] == history[|history| - op]
      ensures wnext < op ==> whave == WSIZE && data[WSIZE + wnext - op] == history[|history| - op]
    {
      assert Contents()[|Contents()| - op] == Last(history, WSIZE)[|Contents()| - op];
    }

    /** The case of fewer bytes than the window holds: up to its end, then from its start. */
    method WrapAround(put: seq<nat>, dist: nat, copy: nat, ghost history: seq<nat>)
      requires data.Length == WSIZE == wsize && wnext < WSIZE && whave <= WSIZE && (whave < WSIZE ==> wnext == whave)
      requires Contents() == Last(history, WSIZE)
      requires copy == |put| < WSIZE && dist == if WSIZE - wnext > copy then copy else WSIZE - wnext
      modifies this, data
      ensures Holds(history + put) && wsize == WSIZE
      ensures whave == if |history + put| < WSIZE then |history + put| else WSIZE
    {
      hide Last;
      ghost var d0, n0, h0 := data[..], wnext, whave;
      LastOfLast(history, put, WSIZE);
      Fill(wnext, put[..dist]);
      ghost var d1 := data[..];
      if dist < copy {
        Fill(0, put[dist..]);
        wnext, whave := copy - dist, wsize;
        ghost var c := Contents();
        Wrapped(d0, n0, h0, put, data[..]);
      } else {
        Appended(d0, n0, h0, put, data[..]);
        wnext := wnext + dist;
        if wnext == wsize { wnext := 0; }
        if whave < wsize { whave := whave + dist; }
      }
    }
  }

  /** The contents of a window array. */
  function Ring(d: seq<nat>, next: nat, have: nat): seq<nat>
    requires |d| == WSIZE && next < WSIZE
  {
    if have < WSIZE then d[..next] else d[next..] + d[..next]
  }

  lemma Wrapped(d: seq<nat>, next: nat, have: nat, put: seq<nat>, e: seq<nat>)
    requires |d| == |e| == WSIZE && next < WSIZE && have <= WSIZE && (have < WSIZE ==> next == have)
    requires |put| < WSIZE && WSIZE - next < |put|
    requires var k := WSIZE - next; e == put[k..] + (d[..next] + put[..k])[|put| - k..]
    ensures Ring(e, |put| - (WSIZE - next), WSIZE) == Last(Ring(d, next, have) + put, WSIZE)
  {
  }

  lemma Appended(d: seq<nat>, next: nat, have: nat, put: seq<nat>, e: seq<nat>)
    requires |d| == |e| == WSIZE && next < WSIZE && have <= WSIZE && (have < WSIZE ==> next == have)
    requires |put| <= WSIZE - next && |put| < WSIZE
    requires e == d[..next] + put + d[next + |put|..]
    ensures var n := if next + |put| == WSIZE then 0 else next + |put|;
      var h := if have < WSIZE then have + |put| else have;
      Ring(e, n, h) == Last(Ring(d, next, have) + put, WSIZE) && (h < WSIZE ==> n == h) && h <= WSIZE
  {
  }
}
