/** inflate on a raw deflate stream, call by call, and its independence of how
    input and output are cut into calls. */
module InflateMain {
  import opened Bits
  import opened DecodingTables
  import opened BitOutput
  import opened InflateSpec
  import opened SlidingWindow
  import opened InflateStates
  import opened InflateHeaders
  import opened InflateCodes
  import opened InflateData
  import opened FastInflate

  datatype Status = OK | STREAM_END | DATA_ERROR | BUF_ERROR

  /** Modes in which more output can still come. */
  predicate Live(m: Mode) {
    m != CHECK && m != DONE && m != BAD
  }

  /** The state between two calls. */
  ghost predicate Between(s: State)
    reads s, s.lens, s.window, s.window.data
  {
    && Ready(s) && s.next == [] && s.put == [] && s.mode != CHECK
    && s.window.Holds(s.past) && (Live(s.mode) && s.window.wsize == 0 ==> s.past == [])
  }

  /** Why a call returned: finished, out of room, or out of input with nothing to do. */
  ghost predicate Settles(s: State)
    reads s, s.lens
  {
    s.mode in {DONE, BAD} || s.left == 0 || (s.next == [] && Move(s.Input(), s.Now()) == Stuck)
  }

  /** One turn of the mode switch; false to return from inflate. */
  method Turn(s: State) returns (ok: bool)
    requires Ready(s) && s.mode != DONE && s.mode != BAD && (Live(s.mode) ==> WindowOk(s))
    modifies s, s.lens, s.codes
    ensures Ready(s) && s.past == old(s.past) && Taken(old(s.next), old(s.fed), s.next, s.fed)
    ensures old(s.put) <= s.put && |s.put| + s.left == |old(s.put)| + old(s.left)
    ensures !Live(old(s.mode)) ==> s.put == old(s.put) && !Live(s.mode)
    ensures !ok ==> Settles(s) && s.mode != CHECK
    ensures ok ==> Less(Work(old(s.next), old(s.bits), old(s.left)), old(s.mode), Work(s.next, s.bits, s.left), s.mode)
  {
    hide Ready, WindowOk, Move, Leads, ByteBits, Taken;
    TakenNone(s.next, s.fed);
    match s.mode {
      case TYPE => ok := DoType(s);
      case TYPEDO => ok := DoType(s);
      case STORED => ok := DoStored(s);
      case COPYSTART => ok := DoCopy(s);
      case COPY => ok := DoCopy(s);
      case TABLE => ok := DoTable(s);
      case LENLENS => ok := DoLenLens(s);
      case CODELENS => ok := DoCodeLens(s);
      case LENSTART => ok := DoSymbol(s);
      case LEN => ok := DoSymbol(s);
      case LENEXT => ok := DoExt(s);
      case DIST => ok := DoDist(s);
      case DISTEXT => ok := DoExt(s);
      case MATCH => ok := DoMatch(s);
      case LIT => ok := DoLit(s);
      case CHECK =>
        Finish(s);
        ok := true;
    }
  }

  /** CHECK of a raw stream: nothing to check. */
  method Finish(s: State)
    requires Ready(s) && s.mode == CHECK
    modifies s`mode
    ensures Ready(s) && s.mode == DONE
  {
    hide Leads, ByteBits, Move;
    s.mode := DONE;
  }

  /** LEN: the fast way while there is plenty of input and room. */
  method DoSymbol(s: State) returns (ok: bool)
    requires Ready(s) && s.mode in {LENSTART, LEN} && WindowOk(s)
    modifies s
    ensures Ready(s) && s.past == old(s.past) && Taken(old(s.next), old(s.fed), s.next, s.fed)
    ensures old(s.put) <= s.put && |s.put| + s.left == |old(s.put)| + old(s.left)
    ensures !ok ==> Settles(s) && s.mode != CHECK
    ensures ok ==> Less(Work(old(s.next), old(s.bits), old(s.left)), old(s.mode), Work(s.next, s.bits, s.left), s.mode)
  {
    hide Ready, WindowOk, Move, Leads, ByteBits, Taken;
    if |s.next| >= 6 && s.left >= 258 {
      EnterLenMode(s);
      InflateFast(s);
      ok := true;
    } else {
      ok := DoLen(s);
    }
  }

  method EnterLenMode(s: State)
    requires Ready(s) && s.mode in {LENSTART, LEN}
    modifies s`mode
    ensures Ready(s) && s.mode == LEN
  {
    hide Leads, ByteBits, Move, TableFor;
    s.mode := LEN;
  }

  /** inflate: process as much input and produce as much output as possible. */
  method InflateCall(s: State, input: seq<nat>, availOut: nat, finish: bool) returns (ret: Status, unused: seq<nat>, output: seq<nat>)
    requires Between(s) && forall i :: 0 <= i < |input| ==> input[i] < 256
    requires s.window.data != s.lens
    modifies s, s.lens, s.codes, s.window, s.window.data
    ensures Between(s) && s.past == old(s.past) + output && s.fed + unused == old(s.fed) + input && old(s.fed) <= s.fed
    ensures |output| + s.left == availOut && |unused| <= |input|
    ensures ret == STREAM_END <==> s.mode == DONE
    ensures ret == DATA_ERROR <==> s.mode == BAD
    ensures ret in {OK, BUF_ERROR} ==> |output| == availOut || (unused == [] && Move(s.Input(), s.Now()) == Stuck)
    ensures ret == BUF_ERROR <==> s.mode !in {DONE, BAD} && (finish || (unused == input && output == []))
  {
    hide Ready, Move, Leads, ByteBits, Taken;
    Begin(s, input, availOut);
    ghost var past0, fed0, live0 := s.past, s.fed, Live(s.mode);
    TakenNone(s.next, s.fed);
    var more := true;
    while more && s.mode != DONE && s.mode != BAD
      invariant Ready(s) && s.past == past0 && Taken(input, fed0, s.next, s.fed) && |s.put| + s.left == availOut
      invariant s.window.Holds(past0) && (live0 && s.window.wsize == 0 ==> past0 == [])
      invariant !live0 ==> s.put == [] && !Live(s.mode)
      invariant !more ==> Settles(s) && s.mode != CHECK
      decreases more, Work(s.next, s.bits, s.left), ModeRank(s.mode)
    {
      ghost var next1, fed1 := s.next, s.fed;
      more := Turn(s);
      TakenOn(input, fed0, next1, fed1, s.next, s.fed);
    }
    ret, unused, output := Leave(s, input, availOut, finish, past0, fed0, live0);
  }

  /** Take the new call's input and room. */
  method Begin(s: State, input: seq<nat>, availOut: nat)
    requires Between(s) && forall i :: 0 <= i < |input| ==> input[i] < 256
    modifies s`next, s`left, s`mode
    ensures Ready(s) && s.next == input && s.left == availOut && s.put == [] && s.mode != CHECK && s.mode != TYPE
    ensures s.window.Holds(s.past) && (Live(s.mode) && s.window.wsize == 0 ==> s.past == [])
  {
    hide Leads, ByteBits, Move, State.Tables, Window.Holds;
    Unpacked(s);
    ghost var c := s.Now();
    s.next, s.left := input, availOut;
    if s.mode == TYPE {
      s.mode := TYPEDO;
      NoTables(s);
    }
    assert s.Now() == c;
  }

  /** Update the window and report. */
  method Leave(s: State, input: seq<nat>, availOut: nat, finish: bool, ghost past0: seq<nat>, ghost fed0: seq<nat>, ghost live0: bool)
    returns (ret: Status, unused: seq<nat>, output: seq<nat>)
    requires Ready(s) && s.past == past0 && Taken(input, fed0, s.next, s.fed) && |s.put| + s.left == availOut
    requires s.window.Holds(past0) && (live0 && s.window.wsize == 0 ==> past0 == [])
    requires (!live0 ==> s.put == [] && !Live(s.mode)) && Settles(s) && s.mode != CHECK && s.window.data != s.lens
    modifies s, s.window, s.window.data
    ensures Between(s) && s.past == past0 + output && s.fed + unused == fed0 + input && fed0 <= s.fed
    ensures |output| + s.left == availOut && |unused| <= |input|
    ensures ret == STREAM_END <==> s.mode == DONE
    ensures ret == DATA_ERROR <==> s.mode == BAD
    ensures ret in {OK, BUF_ERROR} ==> |output| == availOut || (unused == [] && Move(s.Input(), s.Now()) == Stuck)
    ensures ret == BUF_ERROR <==> s.mode !in {DONE, BAD} && (finish || (unused == input && output == []))
  {
    hide Ready, Move, Leads, ByteBits, Taken, Window.Holds;
    TakenAll(input, fed0, s.next, s.fed);
    output, unused := s.put, s.next;
    SaveWindow(s, finish, live0);
    Rest(s);
    ret := if s.mode == DONE then STREAM_END else if s.mode == BAD then DATA_ERROR else OK;
    if ((unused == input && output == []) || finish) && ret == OK {
      ret := BUF_ERROR;
    }
  }

  /** Create or update the window, unless no more output will need it. */
  method SaveWindow(s: State, finish: bool, ghost live0: bool)
    requires s.window.Holds(s.past) && (live0 && s.window.wsize == 0 ==> s.past == []) && (!live0 ==> s.put == [] && !Live(s.mode))
    modifies s.window, s.window.data
    ensures s.window.Holds(s.past + s.put) && (Live(s.mode) && s.window.wsize == 0 ==> s.past + s.put == [])
  {
    if s.window.wsize != 0 || (s.put != [] && s.mode != BAD && (s.mode != DONE || !finish)) {
      s.window.UpdateWindow(s.put, s.past);
    } else {
      Unused(s.window, s.past, s.past + s.put);
    }
  }

  /** The call's output becomes past output. */
  method Rest(s: State)
    requires Ready(s)
    modifies s`past, s`put, s`next
    ensures Ready(s) && s.past == old(s.past + s.put) && s.put == [] && s.next == [] && s.Now() == old(s.Now())
  {
    hide Leads, ByteBits, Move;
    ghost var c := s.Now();
    s.past, s.put, s.next := s.past + s.put, [], [];
    assert s.Now() == c;
  }

  lemma Unused(w: Window, a: seq<nat>, b: seq<nat>)
    requires w.wsize == 0 && w.Holds(a)
    ensures w.Holds(b)
  {
  }

  lemma TakenAll(next0: seq<nat>, fed0: seq<nat>, next: seq<nat>, fed: seq<nat>)
    requires Taken(next0, fed0, next, fed)
    ensures fed + next == fed0 + next0 && fed0 <= fed && |next| <= |next0|
  {
  }

  // ---- any schedule of calls ----

  /** A stream read to its end: finished, failed, or all its bytes used with nothing more to do. */
  ghost predicate Ended(s: State, whole: seq<nat>)
    reads s, s.lens, s.window, s.window.data
  {
    Between(s) && s.fed <= whole && (s.mode in {DONE, BAD} || (s.fed == whole && Move(s.Input(), s.Now()) == Stuck))
  }

  lemma {:induction false} ByteBitsPrefix(a: seq<nat>, b: seq<nat>)
    requires a <= b
    ensures ByteBits(a) <= ByteBits(b)
  {
    ByteBitsConcat(a, b[|a|..]);
    assert a + b[|a|..] == b;
  }

  /** The end of a stream is where its bytes lead and stop. */
  lemma EndIsReached(s: State, whole: seq<nat>)
    requires Ended(s, whole)
    ensures Leads(ByteBits(whole), START, s.Now()) && Move(ByteBits(whole), s.Now()) == Stuck
    ensures s.Now().out == s.past && (s.mode == DONE <==> s.Now().p == Done) && (s.mode == BAD <==> s.Now().p == Failed)
  {
    hide Leads, ByteBits, State.Tables, State.Tight;
    ByteBitsPrefix(s.fed, whole);
    StillThere(s.Input(), ByteBits(whole), s.Now());
    assert s.past + [] == s.past;
  }

  /** However a stream is cut into calls, whatever room each call gets: two readings
      to the end give the same output and the same verdict, and unless the stream is
      invalid they have taken the same bytes. */
  lemma ScheduleIndependence(a: State, b: State, whole: seq<nat>)
    requires Ended(a, whole) && Ended(b, whole)
    ensures a.past == b.past && (a.mode == DONE <==> b.mode == DONE) && (a.mode == BAD <==> b.mode == BAD)
    ensures a.mode != BAD ==> a.fed == b.fed
  {
    hide Leads, ByteBits, Move, Ended;
    EndIsReached(a, whole);
    EndIsReached(b, whole);
    OneEnd(ByteBits(whole), START, a.Now(), b.Now());
    if a.mode != BAD {
      EndBytes(a, whole);
      EndBytes(b, whole);
    }
  }

  /** A finished stream has taken just the bytes that hold it; an unfinished one, all there are. */
  lemma EndBytes(s: State, whole: seq<nat>)
    requires Ended(s, whole) && s.mode != BAD
    ensures s.fed <= whole && if s.mode == DONE then 8 * |s.fed| == s.Now().pos else s.fed == whole
  {
    hide Leads, ByteBits, Move;
  }

  /** At any time the output so far is the beginning of the output of the whole stream. */
  lemma OutputIsPrefix(a: State, b: State, whole: seq<nat>)
    requires Between(a) && a.fed <= whole && Ended(b, whole)
    ensures a.past <= b.past
  {
    hide Leads, ByteBits, Move, Ended;
    EndIsReached(b, whole);
    BetweenReached(a, whole);
    EndAhead(ByteBits(whole), START, a.Now(), b.Now());
    LeadsLocal(ByteBits(whole), ByteBits(whole), a.Now(), b.Now());
  }

  lemma BetweenReached(a: State, whole: seq<nat>)
    requires Between(a) && a.fed <= whole
    ensures Leads(ByteBits(whole), START, a.Now()) && a.Now().out == a.past
    ensures PointOk(a.Now().p) && a.Now().pos <= |ByteBits(whole)|
  {
    hide Leads, ByteBits, Move, State.Tables, State.Tight;
    ByteBitsPrefix(a.fed, whole);
    StillThere(a.Input(), ByteBits(whole), a.Now());
    assert a.past + [] == a.past;
  }

  /** A stream that leads to the end of its last block is read as exactly that output. */
  lemma ReadsAs(s: State, whole: seq<nat>, pos: nat, data: seq<nat>)
    requires Ended(s, whole) && Leads(ByteBits(whole), START, Config(Done, pos, data))
    ensures s.mode == DONE && s.past == data
  {
    hide Leads, ByteBits, Ended;
    EndIsReached(s, whole);
    OneEnd(ByteBits(whole), START, s.Now(), Config(Done, pos, data));
  }

  /** Offer a stream in pieces, each with some bytes of input and some room for output. */
  method InflateAll(s: State, whole: seq<nat>, pieces: seq<(nat, nat)>) returns (out: seq<nat>, ret: Status)
    requires Between(s) && s.fed == [] && s.past == [] && s.window.data != s.lens
    requires forall i :: 0 <= i < |whole| ==> whole[i] < 256
    modifies s, s.lens, s.codes, s.window, s.window.data
    ensures Between(s) && s.past == out && s.fed <= whole
    ensures ret == STREAM_END || ret == DATA_ERROR ==> Ended(s, whole) && (ret == STREAM_END <==> s.mode == DONE)
  {
    hide Between, Ended, Ready, Move, Leads, ByteBits;
    out, ret := [], OK;
    var unread := whole;
    for i := 0 to |pieces|
      invariant Between(s) && s.past == out && s.fed + unread == whole && s.fed <= whole
      invariant forall k :: 0 <= k < |unread| ==> unread[k] < 256
      invariant ret !in {STREAM_END, DATA_ERROR}
    {
      var n := if pieces[i].0 < |unread| then pieces[i].0 else |unread|;
      ghost var fed0 := s.fed;
      var rest, more;
      ret, rest, more := InflateCall(s, unread[..n], pieces[i].1, false);
      Unread(fed0, unread, n, s.fed, rest);
      unread := rest + unread[n..];
      out := out + more;
      if ret == STREAM_END || ret == DATA_ERROR {
        EndedNow(s, whole);
        return;
      }
    }
  }

  lemma Unread(fed0: seq<nat>, unread: seq<nat>, n: nat, fed: seq<nat>, rest: seq<nat>)
    requires n <= |unread| && fed + rest == fed0 + unread[..n] && fed0 <= fed && |rest| <= n
    requires forall k :: 0 <= k < |unread| ==> unread[k] < 256
    ensures fed + (rest + unread[n..]) == fed0 + unread && fed <= fed0 + unread
    ensures forall k :: 0 <= k < |rest + unread[n..]| ==> (rest + unread[n..])[k] < 256
  {
    assert unread == unread[..n] + unread[n..];
    assert fed + (rest + unread[n..]) == (fed + rest) + unread[n..];
    forall k | 0 <= k < |rest|
      ensures rest[k] < 256
    {
      assert rest[k] == (fed + rest)[|fed| + k] == (fed0 + unread[..n])[|fed| + k];
    }
  }

  lemma EndedNow(s: State, whole: seq<nat>)
    requires Between(s) && s.fed <= whole && s.mode in {DONE, BAD}
    ensures Ended(s, whole)
  {
  }
}
