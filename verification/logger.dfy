/** The two-buffer logger as interleaved steps: callers fill the first buffer under a
    lock and swap it with the second one, which the writer thread empties without
    taking any lock. */
module TwoBufferLogger {

  datatype Level = INFO | WARNING | ERROR | FATAL | INVALID

  datatype Message = Message(level: Level, text: string)

  datatype Code = OK | IS_LOGGING

  /** Where the caller that holds the lock is. */
  datatype Caller =
    | Unlocked
    | Locked(msg: Message)
    | Pushed
    | Full
    | Chosen
    | Swapped
    | Leaving(code: Code)

  /** Where the writer thread is: at counts the messages of the second buffer it has written. */
  datatype Writer = Waiting | Writing(at: nat) | Stopped(at: nat)

  /** How far the destructor is: each wait looks at the second buffer at most five times. */
  datatype Closing = Open | First(looks: nat) | Swapping | Posting | Second(looks: nat) | Cancelling | Cancelled | Closed

  const LOOKS := 5

  /** accepted is the history of all messages pushed, in the order of the lock; saved,
      emptied and drained record what held when the destructor's first wait ended, when
      its second wait ended, and when the writer stopped. */
  datatype State = State(
    threshold: nat,
    primary: seq<Message>,
    secondary: seq<Message>,
    semaphore: nat,
    caller: Caller,
    writer: Writer,
    log: seq<string>,
    err: seq<string>,
    closing: Closing,
    accepted: seq<Message>,
    saved: bool,
    emptied: bool,
    drained: bool)

  function Init(threshold: nat): State {
    State(threshold, [], [], 0, Unlocked, Waiting, [], [], Open, [], false, false, false)
  }

  datatype Step =
    | Lock(msg: Message)
    | Push
    | Test
    | Look
    | Swap
    | Post
    | Unlock
    | Wait
    | Write
    | Clear
    | Begin
    | Check
    | SwapLast
    | PostLast
    | Cancel
    | Stop
    | Close

  /** A line of the log file or the error file. */
  function Line(m: Message): string {
    match m.level
    case INFO => "[INFO] " + m.text
    case WARNING => "[WARNING] " + m.text
    case ERROR => "[ERROR] " + m.text
    case FATAL => "[FATAL] " + m.text
    case INVALID => ""
  }

  /** One step; a step that is not enabled leaves the state alone. Lock is enabled for
      one caller at a time, Wait while the semaphore is positive. The destructor begins
      when no caller is left. Once it has asked for it, the writer can stop anywhere; until
      then it goes on. */
  function Next(s: State, step: Step): State {
    match step
    case Lock(m) =>
      if s.caller == Unlocked && m.level != INVALID && s.closing == Open then s.(caller := Locked(m)) else s
    case Push =>
      if s.caller.Locked?
      then s.(primary := s.primary + [s.caller.msg], accepted := s.accepted + [s.caller.msg], caller := Pushed)
      else s
    case Test =>
      if s.caller == Pushed then s.(caller := if |s.primary| > s.threshold then Full else Leaving(OK)) else s
    case Look =>
      if s.caller == Full then s.(caller := if |s.secondary| > 0 then Leaving(IS_LOGGING) else Chosen) else s
    case Swap =>
      if s.caller == Chosen then s.(primary := s.secondary, secondary := s.primary, caller := Swapped) else s
    case Post =>
      if s.caller == Swapped then s.(semaphore := s.semaphore + 1, caller := Leaving(OK)) else s
    case Unlock =>
      if s.caller.Leaving? then s.(caller := Unlocked) else s
    case Wait =>
      if s.writer == Waiting && s.semaphore > 0 then s.(semaphore := s.semaphore - 1, writer := Writing(0)) else s
    case Write =>
      if s.writer.Writing? && s.writer.at < |s.secondary| then Written(s, s.secondary[s.writer.at]) else s
    case Clear =>
      if s.writer.Writing? && s.writer.at >= |s.secondary| then s.(secondary := [], writer := Waiting) else s
    case Begin =>
      if s.caller == Unlocked && s.closing == Open then s.(closing := First(0)) else s
    case Check =>
      Checked(s)
    case SwapLast =>
      if s.closing == Swapping then s.(primary := s.secondary, secondary := s.primary, closing := Posting) else s
    case PostLast =>
      if s.closing == Posting then s.(semaphore := s.semaphore + 1, closing := Second(0)) else s
    case Cancel =>
      if s.closing == Cancelling then s.(closing := Cancelled) else s
    case Stop =>
      if s.closing == Cancelled && !s.writer.Stopped? then
        var at := if s.writer.Writing? then s.writer.at else 0;
        s.(writer := Stopped(at), drained := at == |s.secondary|)
      else s
    case Close =>
      if s.closing == Cancelled && s.writer.Stopped? then s.(closing := Closed) else s
  }

  /** The destructor looks whether the second buffer is empty. The first wait ends with
      a swap if it is; otherwise, as the second, by itself after the last look. */
  function Checked(s: State): State {
    match s.closing
    case First(n) =>
      if s.secondary == [] then s.(closing := Swapping, saved := true)
      else if n + 1 < LOOKS then s.(closing := First(n + 1))
      else s.(closing := Second(0), saved := s.primary == [])
    case Second(n) =>
      if s.secondary == [] then s.(closing := Cancelling, emptied := true)
      else if n + 1 < LOOKS then s.(closing := Second(n + 1))
      else s.(closing := Cancelling)
    case _ => s
  }

  /** The writer sends a message to the file of its level. */
  function Written(s: State, m: Message): State
    requires s.writer.Writing?
  {
    s.(writer := Writing(s.writer.at + 1), log := s.log + InfoLine(m), err := s.err + ErrorLine(m))
  }

  /** A whole interleaving. */
  function Run(s: State, steps: seq<Step>): State {
    if steps == [] then s else Next(Run(s, steps[..|steps| - 1]), steps[|steps| - 1])
  }

  // ---- what the files should hold ----

  function InfoLine(m: Message): seq<string> {
    if m.level == INFO then [Line(m)] else []
  }

  function ErrorLine(m: Message): seq<string> {
    if m.level == INFO || m.level == INVALID then [] else [Line(m)]
  }

  function InfoLines(ms: seq<Message>): seq<string> {
    if ms == [] then []
    else
      InfoLines(ms[..|ms| - 1]) + InfoLine(ms[|ms| - 1])
  }

  function ErrorLines(ms: seq<Message>): seq<string> {
    if ms == [] then []
    else
      ErrorLines(ms[..|ms| - 1]) + ErrorLine(ms[|ms| - 1])
  }

  /** What is still to be written, oldest first. */
  function Rest(s: State): seq<Message> {
    (if !s.writer.Waiting? && s.writer.at <= |s.secondary| then s.secondary[s.writer.at..] else s.secondary) + s.primary
  }

  /** Written, then left in the second buffer, then in the first: the accepted
      messages in lock order, each in its file exactly once. */
  predicate InOrder(s: State) {
    Divided(s.accepted, Rest(s), s.log, s.err)
  }

  predicate Divided(accepted: seq<Message>, rest: seq<Message>, log: seq<string>, err: seq<string>) {
    && |rest| <= |accepted|
    && var done := |accepted| - |rest|;
    && accepted[done..] == rest && log == InfoLines(accepted[..done]) && err == ErrorLines(accepted[..done])
  }

  /** How many wake-ups are under way: someone about to post, one posted, or the writer at work. */
  function WakeUps(s: State): nat {
    (if s.caller == Swapped then 1 else 0) + (if s.closing == Posting then 1 else 0) + s.semaphore
    + (if s.writer.Writing? then 1 else 0)
  }

  /** The second buffer is in use exactly while there is one wake-up; the destructor may post for nothing. */
  predicate Guarded(s: State) {
    && WakeUps(s) <= 1
    && (s.secondary != [] && !s.writer.Stopped? ==> WakeUps(s) == 1)
    && (WakeUps(s) == 1 && (s.closing == Open || s.closing.First? || s.closing == Swapping) ==> s.secondary != [])
    && (!s.writer.Waiting? ==> s.writer.at <= |s.secondary|)
    && (s.caller == Swapped ==> s.secondary != [])
    && (s.caller == Chosen ==> s.secondary == [] && s.primary != [])
    && (s.caller == Pushed ==> s.primary != [])
    && (s.caller == Full ==> |s.primary| > s.threshold)
    && (s.closing != Open ==> s.caller == Unlocked)
    && (s.writer.Stopped? ==> s.closing == Cancelled || s.closing == Closed)
    && Recorded(s)
  }

  /** What the destructor's two waits and the end of the writer mean for the buffers. */
  predicate Recorded(s: State) {
    && (s.closing == Swapping ==> s.secondary == [] && s.saved)
    && (s.closing == Posting ==> s.primary == [] && s.saved)
    && (Decided(s.closing) ==> (s.saved <==> s.primary == []))
    && (s.emptied ==> s.secondary == [] && (s.closing == Cancelling || s.closing == Cancelled || s.closing == Closed))
    && (s.writer.Stopped? ==> (s.drained <==> s.writer.at == |s.secondary|))
    && (s.closing == Closed ==> s.writer.Stopped?)
  }

  predicate Decided(c: Closing) {
    c.Second? || c == Cancelling || c == Cancelled || c == Closed
  }

  predicate Inv(s: State) {
    InOrder(s) && Guarded(s)
  }

  // ---- every step keeps both ----

  lemma GuardedNext(s: State, step: Step)
    requires Guarded(s)
    ensures Guarded(Next(s, step))
  {
    hide Next, Guarded;
    if step.Lock? || step in {Push, Test, Look, Swap, Post, Unlock} {
      GuardedCaller(s, step);
    } else if step in {Wait, Write, Clear, Stop} {
      GuardedWriter(s, step);
    } else {
      GuardedClosing(s, step);
    }
  }

  lemma GuardedCaller(s: State, step: Step)
    requires Guarded(s) && (step.Lock? || step in {Push, Test, Look, Swap, Post, Unlock})
    ensures Guarded(Next(s, step))
  {
  }

  lemma GuardedWriter(s: State, step: Step)
    requires Guarded(s) && step in {Wait, Write, Clear, Stop}
    ensures Guarded(Next(s, step))
  {
    hide InfoLine, ErrorLine;
  }

  lemma GuardedClosing(s: State, step: Step)
    requires Guarded(s) && step in {Begin, Check, SwapLast, PostLast, Cancel, Close}
    ensures Guarded(Next(s, step))
  {
  }

  lemma PushDivided(accepted: seq<Message>, rest: seq<Message>, log: seq<string>, err: seq<string>, m: Message)
    requires Divided(accepted, rest, log, err)
    ensures Divided(accepted + [m], rest + [m], log, err)
  {
    hide InfoLines, ErrorLines;
    var done := |accepted| - |rest|;
    assert (accepted + [m])[done..] == accepted[done..] + [m];
    assert (accepted + [m])[..done] == accepted[..done];
  }

  lemma WriteDivided(accepted: seq<Message>, rest: seq<Message>, log: seq<string>, err: seq<string>, m: Message)
    requires Divided(accepted, [m] + rest, log, err)
    ensures Divided(accepted, rest, log + InfoLine(m), err + ErrorLine(m))
  {
    hide InfoLines, ErrorLines;
    var done := |accepted| - |rest| - 1;
    assert accepted[done..][0] == m;
    assert accepted[done..][1..] == accepted[done + 1..];
    LinesNext(accepted, done);
  }

  lemma LinesNext(ms: seq<Message>, done: nat)
    requires done < |ms|
    ensures InfoLines(ms[..done + 1]) == InfoLines(ms[..done]) + InfoLine(ms[done])
    ensures ErrorLines(ms[..done + 1]) == ErrorLines(ms[..done]) + ErrorLine(ms[done])
  {
    assert ms[..done + 1][..done] == ms[..done];
  }

  lemma RestPushed(s: State)
    requires s.caller.Locked?
    ensures Rest(Next(s, Push)) == Rest(s) + [s.caller.msg]
  {
  }

  lemma RestWritten(s: State)
    requires s.writer.Writing? && s.writer.at < |s.secondary|
    ensures Rest(s) == [s.secondary[s.writer.at]] + Rest(Next(s, Write))
    ensures var t, m := Next(s, Write), s.secondary[s.writer.at];
      t.accepted == s.accepted && t.log == s.log + InfoLine(m) && t.err == s.err + ErrorLine(m)
  {
  }

  lemma RestSame(s: State, step: Step)
    requires Guarded(s) && step !in {Push, Write}
    ensures var t := Next(s, step); Rest(t) == Rest(s) && t.accepted == s.accepted && t.log == s.log && t.err == s.err
  {
    hide Next, Guarded, Rest;
    if step in {Swap, SwapLast, Clear, Wait, Stop} { RestMoved(s, step); } else { RestKept(s, step); }
  }

  lemma RestMoved(s: State, step: Step)
    requires Guarded(s) && step in {Swap, SwapLast, Clear, Wait, Stop}
    ensures var t := Next(s, step); Rest(t) == Rest(s) && t.accepted == s.accepted && t.log == s.log && t.err == s.err
  {
  }

  lemma RestKept(s: State, step: Step)
    requires step !in {Push, Write, Swap, SwapLast, Clear, Wait, Stop}
    ensures var t := Next(s, step); Rest(t) == Rest(s) && t.accepted == s.accepted && t.log == s.log && t.err == s.err
  {
  }

  lemma InOrderNext(s: State, step: Step)
    requires Inv(s)
    ensures InOrder(Next(s, step))
  {
    hide Divided, Rest, Next, InfoLines, ErrorLines, Guarded;
    if step == Push && s.caller.Locked? {
      RestPushed(s);
      PushDivided(s.accepted, Rest(s), s.log, s.err, s.caller.msg);
      Pushes(s);
    } else if step == Write && s.writer.Writing? && s.writer.at < |s.secondary| {
      RestWritten(s);
      WriteDivided(s.accepted, Rest(Next(s, Write)), s.log, s.err, s.secondary[s.writer.at]);
    } else if step == Push || step == Write {
      Idle(s, step);
    } else {
      RestSame(s, step);
    }
  }

  lemma Pushes(s: State)
    requires s.caller.Locked?
    ensures var t := Next(s, Push); t.accepted == s.accepted + [s.caller.msg] && t.log == s.log && t.err == s.err
  {
  }

  lemma Idle(s: State, step: Step)
    requires (step == Push && !s.caller.Locked?) || (step == Write && !(s.writer.Writing? && s.writer.at < |s.secondary|))
    ensures Next(s, step) == s
  {
  }

  /** In every reachable state of every interleaving. */
  lemma {:induction false} AlwaysInOrder(threshold: nat, steps: seq<Step>)
    ensures Inv(Run(Init(threshold), steps))
  {
    hide InOrder, Guarded;
    if steps == [] {
      InitInv(threshold);
    } else {
      var before := steps[..|steps| - 1];
      AlwaysInOrder(threshold, before);
      InOrderNext(Run(Init(threshold), before), steps[|steps| - 1]);
      GuardedNext(Run(Init(threshold), before), steps[|steps| - 1]);
    }
  }

  lemma InitInv(threshold: nat)
    ensures Inv(Init(threshold))
  {
    hide InfoLines, ErrorLines;
    NoLines();
    assert Init(threshold).accepted[..0] == [];
  }

  lemma NoLines()
    ensures InfoLines([]) == [] && ErrorLines([]) == []
  {
  }

  /** The buffers are never swapped while the writer walks the second one. */
  lemma NoSwapWhileWriting(threshold: nat, steps: seq<Step>)
    ensures var s := Run(Init(threshold), steps);
      s.caller == Chosen || s.closing == Swapping ==> s.writer == Waiting && s.semaphore == 0 && s.secondary == []
    ensures var s := Run(Init(threshold), steps); s.secondary == [] && s.closing == Open ==> s.writer == Waiting && s.semaphore == 0
  {
    AlwaysInOrder(threshold, steps);
  }

  /** Whenever the second buffer holds messages, the writer, or whoever will wake it, can
      go on, until the destructor has stopped it. */
  lemma WriterIsWoken(threshold: nat, steps: seq<Step>)
    ensures var s := Run(Init(threshold), steps); s.secondary != [] && !s.writer.Stopped? ==>
      Next(s, Post) != s || Next(s, PostLast) != s || Next(s, Wait) != s || Next(s, Write) != s || Next(s, Clear) != s
  {
    AlwaysInOrder(threshold, steps);
    hide InOrder, Run;
  }

  /** After the destructor the files hold all accepted messages if and only if, as its
      first wait ended, one of the buffers was empty, and, as the writer stopped, it had
      written the whole second buffer. */
  lemma ClosedIsComplete(threshold: nat, steps: seq<Step>)
    ensures var s := Run(Init(threshold), steps); s.closing == Closed ==>
      (s.saved && s.drained <==> s.log == InfoLines(s.accepted) && s.err == ErrorLines(s.accepted))
  {
    hide InfoLines, ErrorLines, Divided, Next, Run;
    AlwaysInOrder(threshold, steps);
    var s := Run(Init(threshold), steps);
    if s.closing == Closed {
      AcceptedLevels(threshold, steps);
      NothingLeft(s);
      AllLines(s.accepted, Rest(s), s.log, s.err);
    }
  }

  lemma NothingLeft(s: State)
    requires Guarded(s) && s.closing == Closed
    ensures Rest(s) == [] <==> s.saved && s.drained
  {
    assert Rest(s) == s.secondary[s.writer.at..] + s.primary;
    assert |Rest(s)| == |s.secondary| - s.writer.at + |s.primary|;
  }

  /** It is enough that both waits end because the second buffer is seen empty: then
      nothing is lost. */
  lemma BothWaitsSuffice(threshold: nat, steps: seq<Step>)
    ensures var s := Run(Init(threshold), steps); s.closing == Closed && s.saved && s.emptied ==>
      s.log == InfoLines(s.accepted) && s.err == ErrorLines(s.accepted)
  {
    hide InfoLines, ErrorLines, InOrder, Next, Run;
    AlwaysInOrder(threshold, steps);
    ClosedIsComplete(threshold, steps);
  }

  /** The files hold everything exactly if nothing is left. */
  lemma AllLines(accepted: seq<Message>, rest: seq<Message>, log: seq<string>, err: seq<string>)
    requires Divided(accepted, rest, log, err) && Levels(accepted)
    ensures rest == [] <==> log == InfoLines(accepted) && err == ErrorLines(accepted)
  {
    hide InfoLines, ErrorLines;
    var done := |accepted| - |rest|;
    assert accepted[..|accepted|] == accepted;
    OneLineEach(accepted);
    OneLineEach(accepted[..done]);
  }

  predicate Levels(ms: seq<Message>) {
    forall i :: 0 <= i < |ms| ==> ms[i].level != INVALID
  }

  lemma {:induction false} OneLineEach(ms: seq<Message>)
    requires Levels(ms)
    ensures |InfoLines(ms)| + |ErrorLines(ms)| == |ms|
  {
    if ms != [] { OneLineEach(ms[..|ms| - 1]); }
  }

  /** Messages of no level are refused before the lock. */
  lemma {:induction false} AcceptedLevels(threshold: nat, steps: seq<Step>)
    ensures Leveled(Run(Init(threshold), steps))
  {
    hide Next;
    if steps != [] {
      AcceptedLevels(threshold, steps[..|steps| - 1]);
      LeveledNext(Run(Init(threshold), steps[..|steps| - 1]), steps[|steps| - 1]);
    }
  }

  predicate Leveled(s: State) {
    Levels(s.accepted) && (s.caller.Locked? ==> s.caller.msg.level != INVALID)
  }

  lemma LeveledNext(s: State, step: Step)
    requires Leveled(s)
    ensures Leveled(Next(s, step))
  {
  }

  /** The destructor's swap saves the first buffer: nothing is added to it afterwards. */
  lemma ClosedByEmpty(threshold: nat, steps: seq<Step>, more: seq<Step>)
    requires var s := Run(Init(threshold), steps); s.closing.First? && s.secondary == []
    ensures var t := Run(Next(Next(Run(Init(threshold), steps), Check), SwapLast), more); t.primary == [] && t.saved
  {
    hide Run, InOrder;
    AlwaysInOrder(threshold, steps);
    var s := Next(Next(Run(Init(threshold), steps), Check), SwapLast);
    StaysDecided(s, more);
  }

  /** Nothing enters or leaves the first buffer once the destructor has decided about it. */
  lemma {:induction false} StaysDecided(s: State, more: seq<Step>)
    requires s.caller == Unlocked && (s.closing == Posting || Decided(s.closing))
    ensures var t := Run(s, more); t.primary == s.primary && t.accepted == s.accepted && t.saved == s.saved
    ensures var t := Run(s, more); t.caller == Unlocked && (t.closing == Posting || Decided(t.closing))
  {
    hide Next;
    if more != [] {
      StaysDecided(s, more[..|more| - 1]);
      DecidedNext(Run(s, more[..|more| - 1]), more[|more| - 1]);
    }
  }

  lemma DecidedNext(s: State, step: Step)
    requires s.caller == Unlocked && (s.closing == Posting || Decided(s.closing))
    ensures var t := Next(s, step); t.primary == s.primary && t.accepted == s.accepted && t.saved == s.saved
    ensures var t := Next(s, step); t.caller == Unlocked && (t.closing == Posting || Decided(t.closing))
  {
  }

  /** When the files are closed, it is over. */
  lemma {:induction false} StaysClosed(s: State, more: seq<Step>)
    requires s.caller == Unlocked && s.closing == Closed && s.writer.Stopped?
    ensures Run(s, more) == s
  {
    if more != [] { StaysClosed(s, more[..|more| - 1]); }
  }

  // ---- what a call does ----

  /** The lines of a message: information goes to the log file and everything else to the error file. */
  lemma LinesOf(text: string)
    ensures InfoLine(Message(INFO, text)) == ["[INFO] " + text] && ErrorLine(Message(INFO, text)) == []
    ensures InfoLine(Message(WARNING, text)) == [] && ErrorLine(Message(WARNING, text)) == ["[WARNING] " + text]
    ensures InfoLine(Message(ERROR, text)) == [] && ErrorLine(Message(ERROR, text)) == ["[ERROR] " + text]
    ensures InfoLine(Message(FATAL, text)) == [] && ErrorLine(Message(FATAL, text)) == ["[FATAL] " + text]
  {
  }

  /** The state when the caller has pushed its message. */
  function After(s: State, m: Message, caller: Caller): State {
    s.(primary := s.primary + [m], accepted := s.accepted + [m], caller := caller)
  }

  predicate CanCall(s: State, m: Message) {
    s.caller == Unlocked && s.closing == Open && m.level != INVALID
  }

  /** Up to the threshold a message is just kept. */
  lemma CallKeeps(s: State, m: Message)
    requires CanCall(s, m) && |s.primary| + 1 <= s.threshold
    ensures Run(s, [Lock(m), Push, Test]) == After(s, m, Leaving(OK))
  {
    hide Run;
    ThreeSteps(s, [Lock(m), Push, Test]);
  }

  /** With more than threshold messages and the second buffer empty, the call swaps the buffers
      and wakes the writer. */
  lemma CallSwaps(s: State, m: Message)
    requires CanCall(s, m) && |s.primary| + 1 > s.threshold && s.secondary == []
    ensures Run(s, [Lock(m), Push, Test, Look, Swap, Post])
         == s.(primary := [], secondary := s.primary + [m], accepted := s.accepted + [m], semaphore := s.semaphore + 1, caller := Leaving(OK))
  {
    hide *;
    SixSteps(s, [Lock(m), Push, Test, Look, Swap, Post]);
    PushedFull(s, m);
    AfterIs(s, m);
    SwapsAndPosts(After(s, m, Full));
  }

  lemma PushedFull(s: State, m: Message)
    requires CanCall(s, m) && |s.primary| + 1 > s.threshold
    ensures Next(Next(Next(s, Lock(m)), Push), Test) == After(s, m, Full)
  {
  }

  lemma SwapsAndPosts(s: State)
    requires s.caller == Full && s.secondary == []
    ensures Next(Next(Next(s, Look), Swap), Post)
         == s.(primary := [], secondary := s.primary, semaphore := s.semaphore + 1, caller := Leaving(OK))
  {
  }

  lemma AfterIs(s: State, m: Message)
    ensures After(s, m, Full) == s.(primary := s.primary + [m], accepted := s.accepted + [m], caller := Full)
  {
  }

  /** With the second buffer in use, the call says so and keeps the message in the first. */
  lemma CallWaits(s: State, m: Message)
    requires CanCall(s, m) && |s.primary| + 1 > s.threshold && s.secondary != []
    ensures Run(s, [Lock(m), Push, Test, Look]) == After(s, m, Leaving(IS_LOGGING))
  {
    hide *;
    ThreeSteps(s, [Lock(m), Push, Test]);
    PushedFull(s, m);
    RunSnoc(s, [Lock(m), Push, Test], Look);
    assert [Lock(m), Push, Test] + [Look] == [Lock(m), Push, Test, Look];
    LooksBusy(s, m);
  }

  lemma LooksBusy(s: State, m: Message)
    requires s.secondary != []
    ensures Next(After(s, m, Full), Look) == After(s, m, Leaving(IS_LOGGING))
  {
  }

  // ---- how messages are lost ----

  /** If the writer is too slow for the destructor's first wait, messages in the first
      buffer are accepted but never written, whatever happens afterwards. */
  lemma GivingUpLoses(a: Message, b: Message, more: seq<Step>)
    requires a.level != INVALID && b.level != INVALID
    ensures var s := Run(Run(Init(0), SlowWriter(a, b)), more); s.accepted == [a, b] && s.primary == [b]
  {
    hide Run, Next;
    var first, second := [Lock(a), Push, Test, Look, Swap, Post, Unlock], [Lock(b), Push, Test, Look, Unlock, Begin];
    var third := [Check, Check, Check, Check, Check];
    FirstLogged(a);
    SecondKept(a, b);
    var s := AfterFirst(a).(primary := [b], accepted := [a, b], closing := First(0));
    FiveLooks(s);
    assert SlowWriter(a, b) == first + second + third;
    RunConcat(Init(0), first + second, third);
    RunConcat(Init(0), first, second);
    StaysDecided(Run(s, third), more);
  }

  function SlowWriter(a: Message, b: Message): seq<Step> {
    [Lock(a), Push, Test, Look, Swap, Post, Unlock, Lock(b), Push, Test, Look, Unlock, Begin, Check, Check, Check, Check, Check]
  }

  /** The first message is in the second buffer, and the writer has not yet been scheduled. */
  function AfterFirst(a: Message): State {
    Init(0).(secondary := [a], semaphore := 1, accepted := [a])
  }

  lemma FirstLogged(a: Message)
    requires a.level != INVALID
    ensures Run(Init(0), [Lock(a), Push, Test, Look, Swap, Post, Unlock]) == AfterFirst(a)
  {
    var q := [Lock(a), Push, Test, Look, Swap, Post];
    hide Run;
    SixSteps(Init(0), q);
    RunSnoc(Init(0), q, Unlock);
    assert q + [Unlock] == [Lock(a), Push, Test, Look, Swap, Post, Unlock];
  }

  lemma SecondKept(a: Message, b: Message)
    requires b.level != INVALID
    ensures Run(AfterFirst(a), [Lock(b), Push, Test, Look, Unlock, Begin])
         == AfterFirst(a).(primary := [b], accepted := [a, b], closing := First(0))
  {
    hide Run;
    SixSteps(AfterFirst(a), [Lock(b), Push, Test, Look, Unlock, Begin]);
  }

  /** Five looks at a full second buffer end a wait. */
  lemma FiveLooks(s: State)
    requires s.secondary != [] && (s.closing == First(0) || s.closing == Second(0))
    ensures Run(s, [Check, Check, Check, Check, Check])
         == if s.closing == First(0) then s.(closing := Second(0), saved := s.primary == []) else s.(closing := Cancelling)
  {
    hide *;
    Looking(s, 4);
    FourLooks();
    RunSnoc(s, [Check, Check, Check, Check], Check);
    LookedAll(s);
    LastLook(Looked(s, 4));
    assert [Check, Check, Check, Check] + [Check] == [Check, Check, Check, Check, Check];
  }

  function Looks(n: nat): seq<Step> {
    if n == 0 then [] else Looks(n - 1) + [Check]
  }

  function Looked(s: State, n: nat): State {
    s.(closing := if s.closing.First? then First(n) else Second(n))
  }

  lemma {:induction false} Looking(s: State, n: nat)
    requires s.secondary != [] && (s.closing == First(0) || s.closing == Second(0)) && n < 5
    ensures Run(s, Looks(n)) == Looked(s, n)
  {
    hide Run;
    if n == 0 {
      RunNone(s);
    } else {
      Looking(s, n - 1);
      RunSnoc(s, Looks(n - 1), Check);
    }
  }
  lemma FourLooks()
    ensures Looks(4) == [Check, Check, Check, Check]
  {
    assert Looks(1) == [Check] && Looks(2) == [Check, Check];
  }

  lemma RunNone(s: State)
    ensures Run(s, []) == s
  {
  }

  lemma LookedAll(s: State)
    requires s.closing == First(0) || s.closing == Second(0)
    ensures if s.closing == First(0)
      then Looked(s, 4).(closing := Second(0), saved := s.primary == []) == s.(closing := Second(0), saved := s.primary == [])
      else Looked(s, 4).(closing := Cancelling) == s.(closing := Cancelling)
    ensures Looked(s, 4).closing == if s.closing == First(0) then First(4) else Second(4)
    ensures Looked(s, 4).secondary == s.secondary && Looked(s, 4).primary == s.primary
  {
  }

  lemma LastLook(s: State)
    requires s.secondary != []
    ensures s.closing == First(4) ==> Next(s, Check) == s.(closing := Second(0), saved := s.primary == [])
    ensures s.closing == Second(4) ==> Next(s, Check) == s.(closing := Cancelling)
  {
  }

  /** If the writer is too slow for the second wait, it is stopped with messages unwritten
      that the swap had saved. */
  lemma StoppingLoses(threshold: nat, a: Message, more: seq<Step>)
    requires threshold >= 1 && a.level != INVALID
    ensures var s := Run(Run(Init(threshold), SlowEnd(a)), more);
      s.closing == Closed && s.saved && s.accepted == [a] && s.log == [] && s.err == []
  {
    hide Run, Next;
    var first, second := [Lock(a), Push, Test, Unlock, Begin, Check], [SwapLast, PostLast];
    var third, fourth := [Check, Check, Check, Check, Check], [Cancel, Stop, Close];
    var s := Init(threshold).(secondary := [a], semaphore := 1, accepted := [a], closing := Second(0), saved := true);
    OneSaved(threshold, a);
    FiveLooks(s);
    StoppedAtOnce(s.(closing := Cancelling));
    assert SlowEnd(a) == first + second + third + fourth;
    RunConcat(Init(threshold), first + second + third, fourth);
    RunConcat(Init(threshold), first + second, third);
    StaysClosed(Run(s.(closing := Cancelling), fourth), more);
  }

  function SlowEnd(a: Message): seq<Step> {
    [Lock(a), Push, Test, Unlock, Begin, Check, SwapLast, PostLast, Check, Check, Check, Check, Check, Cancel, Stop, Close]
  }

  lemma OneSaved(threshold: nat, a: Message)
    requires threshold >= 1 && a.level != INVALID
    ensures Run(Init(threshold), [Lock(a), Push, Test, Unlock, Begin, Check] + [SwapLast, PostLast])
         == Init(threshold).(secondary := [a], semaphore := 1, accepted := [a], closing := Second(0), saved := true)
  {
    hide *;
    var q := [Lock(a), Push, Test, Unlock, Begin, Check];
    OneAccepted(threshold, a);
    RunSnoc(Init(threshold), q, SwapLast);
    RunSnoc(Init(threshold), q + [SwapLast], PostLast);
    LastSwap(Init(threshold).(primary := [a], accepted := [a], closing := Swapping, saved := true));
    assert q + [SwapLast] + [PostLast] == q + [SwapLast, PostLast];
    Fresh(threshold);
  }

  lemma Fresh(threshold: nat)
    ensures Init(threshold).primary == Init(threshold).secondary == [] && Init(threshold).semaphore == 0
  {
  }

  lemma OneAccepted(threshold: nat, a: Message)
    requires threshold >= 1 && a.level != INVALID
    ensures Run(Init(threshold), [Lock(a), Push, Test, Unlock, Begin, Check])
         == Init(threshold).(primary := [a], accepted := [a], closing := Swapping, saved := true)
  {
    hide Run;
    SixSteps(Init(threshold), [Lock(a), Push, Test, Unlock, Begin, Check]);
  }

  lemma LastSwap(s: State)
    requires s.closing == Swapping
    ensures Next(Next(s, SwapLast), PostLast)
         == s.(primary := s.secondary, secondary := s.primary, semaphore := s.semaphore + 1, closing := Second(0))
  {
  }

  lemma StoppedAtOnce(s: State)
    requires s.closing == Cancelling && s.writer == Waiting
    ensures Run(s, [Cancel, Stop, Close]) == s.(closing := Closed, writer := Stopped(0), drained := s.secondary == [])
  {
    hide Run;
    ThreeSteps(s, [Cancel, Stop, Close]);
  }

  lemma {:induction false} RunConcat(s: State, p: seq<Step>, q: seq<Step>)
    ensures Run(s, p + q) == Run(Run(s, p), q)
  {
    if q == [] {
      assert p + q == p;
    } else {
      RunConcat(s, p, q[..|q| - 1]);
      assert (p + q)[..|p + q| - 1] == p + q[..|q| - 1];
    }
  }

  lemma RunSnoc(s: State, q: seq<Step>, step: Step)
    ensures Run(s, q + [step]) == Next(Run(s, q), step)
  {
    assert (q + [step])[..|q|] == q;
  }

  lemma ThreeSteps(s: State, q: seq<Step>)
    requires |q| == 3
    ensures Run(s, q) == Next(Next(Next(s, q[0]), q[1]), q[2])
  {
    hide Next;
    assert q == [] + [q[0]] + [q[1]] + [q[2]];
    RunSnoc(s, [], q[0]);
    RunSnoc(s, [] + [q[0]], q[1]);
    RunSnoc(s, [] + [q[0]] + [q[1]], q[2]);
  }

  lemma SixSteps(s: State, q: seq<Step>)
    requires |q| == 6
    ensures Run(s, q) == Next(Next(Next(Next(Next(Next(s, q[0]), q[1]), q[2]), q[3]), q[4]), q[5])
  {
    hide Next;
    assert q == q[..3] + q[3..];
    RunConcat(s, q[..3], q[3..]);
    ThreeSteps(s, q[..3]);
    ThreeSteps(Run(s, q[..3]), q[3..]);
  }
}
