/** `SendSize`: a goroutine prints into a pipe through a redirected stdout while the caller reads
    the pipe, parses what it read, and receives the goroutine's error from a channel. Every
    interleaving of the two is a sequence of the actions below. */
module SendSize {
  import opened Pools

  datatype SendError = RedirectionFailed | SendFailed | ReadFailed | OutOfRange

  /** The fixed circumstances of one call: how much the pipe holds, how much the C library buffers,
      what was still buffered before the call, what the send prints and returns, whether stdout can
      be redirected and restored, whether the read deadline can pass, which texts contain no number
      that is out of range, and what number is read from a text. */
  datatype Setting = Setting(pipeCap: nat, bufCap: nat, pending: string, output: string, result: Option<SendError>,
                             redirects: bool, restores: bool, slow: bool, parses: string -> bool,
                             number: string -> int)

  datatype Writer = Redirecting | Sending | Flushing | Restoring | ClosingW | Handing | Finished | Panicked
  datatype Reader = Reading | Receiving | ClosingR | Selecting | ClosingChan | Returned

  /** `toPipe` says that stdout is a second reference to the write end; `saved` that the duplicate
      of the former stdout is open; `size` and `err` are what the caller will return. */
  datatype State = State(writer: Writer, reader: Reader, sent: nat, buf: string, pipe: string, data: string,
                         wOpen: bool, rOpen: bool, toPipe: bool, saved: bool, closed: bool,
                         received: seq<Option<SendError>>, size: int, err: Option<SendError>)

  datatype Action =
    | Redirect | Print | Drain | SendReturns | Flushed | Restore | CloseW | Panic
    | Read | Eof | Timeout | Receive | CloseR | SelectReceive | SelectDefault | CloseChan

  function Init(c: Setting): State {
    State(Redirecting, Reading, 0, c.pending, "", "", true, true, false, false, false, [], 0, None)
  }

  /** The value the goroutine sends. */
  function Value(c: Setting): Option<SendError> {
    if c.redirects then c.result else Some(RedirectionFailed)
  }

  predicate Enabled(c: Setting, s: State, a: Action) {
    match a
    // the goroutine
    case Redirect => s.writer == Redirecting
    case Print => s.writer == Sending && s.sent < |c.output| && |s.buf| < c.bufCap
    case Drain => (s.writer == Sending || s.writer == Flushing) && s.buf != "" && (s.rOpen ==> |s.pipe| < c.pipeCap)
    case SendReturns => s.writer == Sending && s.sent == |c.output|
    case Flushed => s.writer == Flushing && s.buf == ""
    case Restore => s.writer == Restoring
    case CloseW => s.writer == ClosingW
    case Panic => s.writer == Handing && s.closed
    // the caller
    case Read => s.reader == Reading && s.pipe != ""
    case Eof => s.reader == Reading && s.pipe == "" && !s.wOpen && !s.toPipe
    case Timeout => s.reader == Reading && c.slow
    case Receive => s.reader == Receiving && s.writer == Handing
    case CloseR => s.reader == ClosingR
    case SelectReceive => s.reader == Selecting && s.writer == Handing
    case SelectDefault => s.reader == Selecting
    case CloseChan => s.reader == ClosingChan
  }

  function Next(c: Setting, s: State, a: Action): State
    requires Enabled(c, s, a)
  {
    match a
    case Redirect =>
      if c.redirects then s.(writer := Sending, toPipe := true, saved := true) else s.(writer := ClosingW)
    case Print => s.(sent := s.sent + 1, buf := s.buf + [c.output[s.sent]])
    case Drain => s.(buf := s.buf[1..], pipe := if s.rOpen then s.pipe + [s.buf[0]] else s.pipe)
    case SendReturns => s.(writer := Flushing)
    case Flushed => s.(writer := Restoring)
    case Restore =>
      if c.restores then s.(writer := ClosingW, toPipe := false, saved := false) else s.(writer := ClosingW)
    case CloseW => s.(writer := Handing, wOpen := false)
    case Panic => s.(writer := Panicked)
    case Read => s.(data := s.data + [s.pipe[0]], pipe := s.pipe[1..])
    case Eof =>
      if c.parses(s.data) then s.(reader := Receiving, size := c.number(s.data))
      else s.(reader := ClosingR, size := c.number(s.data), err := Some(OutOfRange))
    case Timeout => s.(reader := ClosingR, err := Some(ReadFailed))
    case Receive => s.(reader := ClosingR, writer := Finished, received := s.received + [Value(c)], err := Value(c))
    case CloseR => s.(reader := Selecting, rOpen := false)
    case SelectReceive => s.(reader := ClosingChan, writer := Finished, received := s.received + [Value(c)])
    case SelectDefault => s.(reader := ClosingChan)
    case CloseChan => s.(reader := Returned, closed := true)
  }

  /** The state after a sequence of actions, if each of them was possible in turn. */
  function After(c: Setting, acts: seq<Action>): Option<State> {
    if acts == [] then Some(Init(c))
    else
      var n := |acts| - 1;
      var s := After(c, acts[..n]);
      if s.Some? && Enabled(c, s.value, acts[n]) then Some(Next(c, s.value, acts[n])) else None
  }

  ghost predicate Stuck(c: Setting, s: State) {
    forall a :: !Enabled(c, s, a)
  }

  // ----- the invariant -----

  /** What reaches the pipe: what was pending before the call, then what the send prints. */
  function Flow(c: Setting): string {
    if c.redirects then c.pending + c.output else ""
  }

  predicate WriterDone(w: Writer) {
    w == Handing || w == Finished || w == Panicked
  }

  ghost predicate Descriptors(c: Setting, s: State) {
    && (s.wOpen <==> !WriterDone(s.writer))
    && (s.toPipe <==>
      c.redirects && (s.writer in {Sending, Flushing, Restoring} || (s.writer != Redirecting && !c.restores)))
    && s.saved == s.toPipe
    && (s.rOpen <==> s.reader == Reading || s.reader == Receiving || s.reader == ClosingR)
  }

  /** How far the send has come. */
  ghost predicate Sent(c: Setting, s: State) {
    && s.sent <= |c.output|
    && (!c.redirects ==> s.data == "" && s.pipe == "" && s.sent == 0 && s.writer !in {Sending, Flushing, Restoring})
    && (c.redirects && s.writer != Redirecting && s.writer != Sending ==> s.sent == |c.output|)
    && (c.redirects && s.writer !in {Redirecting, Sending, Flushing} ==> s.buf == "")
  }

  /** No character is lost or reordered while the caller can read. */
  ghost predicate Conserved(c: Setting, s: State) {
    s.sent <= |c.output| && (c.redirects && s.rOpen ==> s.data + s.pipe + s.buf + c.output[s.sent..] == Flow(c))
  }

  ghost predicate Handshake(c: Setting, s: State) {
    && (s.closed <==> s.reader == Returned)
    && s.received == (if s.writer == Finished then [Value(c)] else [])
    && (s.writer == Panicked ==> s.closed)
    && (s.reader == Receiving ==> s.writer == Handing && s.data == Flow(c) && c.parses(Flow(c)))
    && (s.reader != Reading && !c.slow ==> WriterDone(s.writer) && s.data == Flow(c))
    && (s.reader != Reading && !c.slow && s.writer != Finished ==> s.reader == Receiving || !c.parses(Flow(c)))
    && (s.reader == Reading ==> s.writer != Finished && s.writer != Panicked)
    && (s.reader != Reading && !c.slow ==> !(c.redirects && !c.restores))
  }

  /** What the goroutine hands over: that stdout could not be redirected, or else what the send
      returned. */
  ghost predicate HandedOver(c: Setting, v: Option<SendError>) {
    (!c.redirects ==> v == Some(RedirectionFailed)) && (c.redirects ==> v == c.result)
  }

  /** What the caller returns. Until it decides, nothing; then that the deadline passed; or that the
      whole text has a number out of range; or, the number read, what the goroutine handed over. */
  ghost predicate Answer(c: Setting, s: State) {
    && (forall v | v in s.received :: HandedOver(c, v))
    && (s.reader == Reading ==> s.size == 0)
    && (s.reader == Receiving ==> s.size == c.number(s.data))
    && (s.reader == Reading || s.reader == Receiving ==> s.err == None && s.received == [])
    && (s.reader != Reading && s.reader != Receiving ==>
      || (c.slow && s.err == Some(ReadFailed) && s.size == 0)
      || (s.data == Flow(c) && !c.parses(Flow(c)) && s.err == Some(OutOfRange) && s.size == c.number(Flow(c)))
      || (s.data == Flow(c) && c.parses(Flow(c)) && s.received == [s.err] && s.size == c.number(Flow(c))))
  }

  ghost predicate Inv(c: Setting, s: State) {
    Descriptors(c, s) && Sent(c, s) && Conserved(c, s) && Handshake(c, s) && Answer(c, s)
  }

  lemma InvInit(c: Setting)
    ensures Inv(c, Init(c))
  {
  }

  lemma DescriptorsKept(c: Setting, s: State, a: Action)
    requires Inv(c, s) && Enabled(c, s, a)
    ensures Descriptors(c, Next(c, s, a))
  {
    hide Sent, Conserved, Flow;
  }

  lemma SentKept(c: Setting, s: State, a: Action)
    requires Inv(c, s) && Enabled(c, s, a)
    ensures Sent(c, Next(c, s, a))
  {
    hide Descriptors, Conserved, Flow;
  }

  lemma ConservedKept(c: Setting, s: State, a: Action)
    requires Inv(c, s) && Enabled(c, s, a)
    ensures Conserved(c, Next(c, s, a))
  {
    hide Handshake, Flow;
    match a
    case Print => PrintConserves(c, s);
    case Drain => DrainConserves(c, s);
    case Read => ReadConserves(c, s);
    case _ =>
      var t := Next(c, s, a);
      assert t.sent == s.sent && t.data == s.data && t.pipe == s.pipe && t.buf == s.buf && (t.rOpen ==> s.rOpen);
  }

  lemma PrintConserves(c: Setting, s: State)
    requires Conserved(c, s) && Enabled(c, s, Print)
    ensures Conserved(c, Next(c, s, Print))
  {
    hide Flow;
    var t := Next(c, s, Print);
    assert s.buf + c.output[s.sent..] == t.buf + c.output[t.sent..];
    assert s.data + s.pipe + s.buf + c.output[s.sent..] == s.data + s.pipe + (s.buf + c.output[s.sent..]);
    assert t.data + t.pipe + t.buf + c.output[t.sent..] == t.data + t.pipe + (t.buf + c.output[t.sent..]);
  }

  lemma DrainConserves(c: Setting, s: State)
    requires Conserved(c, s) && Enabled(c, s, Drain)
    ensures Conserved(c, Next(c, s, Drain))
  {
    hide Flow;
    var t := Next(c, s, Drain);
    if t.rOpen {
      assert s.pipe + s.buf == t.pipe + t.buf;
      assert s.data + s.pipe + s.buf == s.data + (s.pipe + s.buf);
      assert t.data + t.pipe + t.buf == t.data + (t.pipe + t.buf);
    }
  }

  lemma ReadConserves(c: Setting, s: State)
    requires Conserved(c, s) && Enabled(c, s, Read)
    ensures Conserved(c, Next(c, s, Read))
  {
    hide Flow;
    var t := Next(c, s, Read);
    assert s.data + s.pipe == t.data + t.pipe;
  }

  lemma HandshakeKept(c: Setting, s: State, a: Action)
    requires Inv(c, s) && Enabled(c, s, a)
    ensures Handshake(c, Next(c, s, a))
  {
    if a == Eof {
      EofSeesAll(c, s);
    }
    hide Conserved, Flow, Sent;
  }

  lemma AnswerKept(c: Setting, s: State, a: Action)
    requires Inv(c, s) && Enabled(c, s, a)
    ensures Answer(c, Next(c, s, a))
  {
    if a == Eof {
      EofSeesAll(c, s);
    }
    hide Conserved, Flow, Sent, Descriptors;
  }

  /** At the end of the pipe everything has been read. */
  lemma EofSeesAll(c: Setting, s: State)
    requires Inv(c, s) && Enabled(c, s, Eof)
    ensures s.data == Flow(c) && s.writer == Handing && !(c.redirects && !c.restores)
  {
    if c.redirects {
      assert c.output[s.sent..] == "" && s.data + "" + "" + "" == s.data;
    }
  }

  lemma {:induction false} InvAlways(c: Setting, acts: seq<Action>)
    requires After(c, acts).Some?
    ensures Inv(c, After(c, acts).value)
    decreases |acts|
  {
    hide Inv, Enabled, Next;
    if acts == [] {
      InvInit(c);
    } else {
      var n := |acts| - 1;
      InvAlways(c, acts[..n]);
      InvKept(c, After(c, acts[..n]).value, acts[n]);
    }
  }

  lemma InvKept(c: Setting, s: State, a: Action)
    requires Inv(c, s) && Enabled(c, s, a)
    ensures Inv(c, Next(c, s, a))
  {
    hide Descriptors, Sent, Conserved, Handshake, Answer, Enabled, Next;
    DescriptorsKept(c, s, a);
    SentKept(c, s, a);
    ConservedKept(c, s, a);
    HandshakeKept(c, s, a);
    AnswerKept(c, s, a);
  }

  // ----- every run ends -----

  function WriterRank(w: Writer): nat {
    match w
    case Redirecting => 7
    case Sending => 6
    case Flushing => 5
    case Restoring => 4
    case ClosingW => 3
    case Handing => 2
    case Finished => 0
    case Panicked => 0
  }

  function ReaderRank(r: Reader): nat {
    match r
    case Reading => 6
    case Receiving => 5
    case ClosingR => 4
    case Selecting => 3
    case ClosingChan => 2
    case Returned => 0
  }

  function Rank(c: Setting, s: State): nat
    requires s.sent <= |c.output|
  {
    WriterRank(s.writer) + ReaderRank(s.reader) + 3 * (|c.output| - s.sent) + 2 * |s.buf| + |s.pipe|
  }

  lemma RankFalls(c: Setting, s: State, a: Action)
    requires s.sent <= |c.output| && Enabled(c, s, a)
    ensures Next(c, s, a).sent <= |c.output| && Rank(c, Next(c, s, a)) < Rank(c, s)
  {
    match a
    case Print | Drain | Read => TextRankFalls(c, s, a);
    case Eof | Timeout | CloseR | SelectDefault | CloseChan => CallerRankFalls(c, s, a);
    case Receive | SelectReceive =>
    case _ => GoroutineRankFalls(c, s, a);
  }

  lemma TextRankFalls(c: Setting, s: State, a: Action)
    requires s.sent <= |c.output| && Enabled(c, s, a) && (a == Print || a == Drain || a == Read)
    ensures Next(c, s, a).sent <= |c.output| && Rank(c, Next(c, s, a)) < Rank(c, s)
  {
    hide WriterRank, ReaderRank;
  }

  lemma CallerRankFalls(c: Setting, s: State, a: Action)
    requires s.sent <= |c.output| && Enabled(c, s, a)
    requires a == Eof || a == Timeout || a == CloseR || a == SelectDefault || a == CloseChan
    ensures Next(c, s, a).sent <= |c.output| && Rank(c, Next(c, s, a)) < Rank(c, s)
  {
    hide WriterRank;
  }

  lemma GoroutineRankFalls(c: Setting, s: State, a: Action)
    requires s.sent <= |c.output| && Enabled(c, s, a)
    requires a == Redirect || a == SendReturns || a == Flushed || a == Restore || a == CloseW || a == Panic
    ensures Next(c, s, a).sent <= |c.output| && Rank(c, Next(c, s, a)) < Rank(c, s)
  {
    hide ReaderRank;
  }

  /** No run is longer than the output and what was pending allow. */
  lemma {:induction false} RunsEnd(c: Setting, acts: seq<Action>)
    requires After(c, acts).Some?
    ensures After(c, acts).value.sent <= |c.output|
    ensures |acts| + Rank(c, After(c, acts).value) <= 13 + 3 * |c.output| + 2 * |c.pending|
    decreases |acts|
  {
    hide Enabled, Next;
    if acts != [] {
      var n := |acts| - 1;
      RunsEnd(c, acts[..n]);
      RankFalls(c, After(c, acts[..n]).value, acts[n]);
    }
  }

  // ----- where runs end -----

  /** Pipe and buffer hold something. */
  predicate Roomy(c: Setting) {
    c.pipeCap > 0 && c.bufCap > 0
  }

  /** What decides whether a call is safe: the deadline does not pass, stdout is restored if it was
      redirected, and the number that was read is in range. */
  predicate Safe(c: Setting) {
    !c.slow && (c.redirects ==> c.restores) && c.parses(Flow(c))
  }

  /** The call returned, the goroutine ended, everything was read, stdout is what it was, and the
      channel carried one value before it was closed. The caller returns the number in the text and
      that value: the send's own result, or that stdout could not be redirected. */
  predicate Good(c: Setting, s: State) {
    && s.reader == Returned && s.writer == Finished
    && s.data == Flow(c)
    && !s.toPipe && !s.saved && !s.wOpen && !s.rOpen
    && s.received == [s.err] && s.closed
    && s.size == c.number(Flow(c))
    && (c.redirects ==> s.err == c.result)
    && (!c.redirects ==> s.err == Some(RedirectionFailed))
  }

  /** The goroutine waits to hand over its value while the caller waits for the end of a pipe that
      stdout keeps open. */
  predicate Deadlocked(s: State) {
    s.reader == Reading && s.writer == Handing && s.pipe == "" && s.toPipe
  }

  lemma StuckReader(c: Setting, s: State)
    requires Inv(c, s) && Stuck(c, s)
    ensures s.reader == Returned || (s.reader == Reading && s.pipe == "")
  {
    hide Sent, Conserved, Flow;
    assert !Enabled(c, s, Read) && !Enabled(c, s, Receive) && !Enabled(c, s, CloseR) && !Enabled(c, s, SelectDefault)
           && !Enabled(c, s, CloseChan);
  }

  lemma StuckWriter(c: Setting, s: State)
    requires Roomy(c) && Inv(c, s) && Stuck(c, s) && (s.rOpen ==> s.pipe == "")
    ensures WriterDone(s.writer)
  {
    hide Handshake, Conserved, Flow;
    assert !Enabled(c, s, Redirect) && !Enabled(c, s, Print) && !Enabled(c, s, Drain) && !Enabled(c, s, SendReturns)
           && !Enabled(c, s, Flushed) && !Enabled(c, s, Restore) && !Enabled(c, s, CloseW);
  }

  /** A run that cannot go on has ended, has panicked, or is deadlocked. */
  lemma StuckIs(c: Setting, s: State)
    requires Roomy(c) && Inv(c, s) && Stuck(c, s)
    ensures Deadlocked(s) || (s.reader == Returned && (s.writer == Finished || s.writer == Panicked))
  {
    hide Sent, Conserved, Flow, Stuck;
    StuckReader(c, s);
    StuckWriter(c, s);
    assert !Enabled(c, s, Panic) && !Enabled(c, s, Eof) by {
      StuckMeans(c, s, Panic);
      StuckMeans(c, s, Eof);
    }
  }

  lemma StuckMeans(c: Setting, s: State, a: Action)
    requires Stuck(c, s)
    ensures !Enabled(c, s, a)
  {
  }

  /** A safe call never panics, sends one value only, and never stops but where it should. */
  lemma SafeRuns(c: Setting, acts: seq<Action>)
    requires Roomy(c) && Safe(c) && After(c, acts).Some?
    ensures var s := After(c, acts).value;
      && s.writer != Panicked
      && (s.reader != Reading ==> s.data == Flow(c))
      && (s.closed ==> s.received == [s.err])
      && (Stuck(c, s) ==> Good(c, s))
      && (Stuck(c, s) ==> (s.received == [None] <==> c.redirects && c.result == None))
  {
    hide Sent, Conserved, Flow, Stuck, Enabled, Next, Value;
    var s := After(c, acts).value;
    InvAlways(c, acts);
    if s.received == [s.err] {
      AnswerIs(c, s);
    }
    if Stuck(c, s) {
      StuckIs(c, s);
    }
  }

  lemma AnswerIs(c: Setting, s: State)
    requires Answer(c, s) && s.received == [s.err]
    ensures HandedOver(c, s.err)
  {
    assert s.err in s.received;
  }

  /** However a call went, if it returned no error, then the send itself had none, and the number is
      the one in all that was printed. */
  lemma NoFalseSuccess(c: Setting, acts: seq<Action>)
    requires After(c, acts).Some? && After(c, acts).value.reader == Returned && After(c, acts).value.err == None
    ensures c.redirects && c.result == None && c.parses(Flow(c))
    ensures After(c, acts).value.size == c.number(Flow(c)) && After(c, acts).value.data == Flow(c)
  {
    hide Sent, Conserved, Flow, Enabled, Next, Value, Descriptors, Handshake;
    InvAlways(c, acts);
    var s := After(c, acts).value;
    assert s.received == [s.err];
    AnswerIs(c, s);
  }

  /** Some action is possible; receiving in the final select is never the only one. */
  lemma Step(c: Setting, s: State) returns (a: Action)
    requires !Stuck(c, s)
    ensures Enabled(c, s, a) && a != SelectReceive
  {
    a :| Enabled(c, s, a);
    if a == SelectReceive {
      a := SelectDefault;
    }
  }

  /** The caller will return, or has returned, without having received the goroutine's value. */
  ghost predicate Unlucky(c: Setting, s: State) {
    s.writer != Finished && (s.reader == Returned || !c.parses(Flow(c)))
  }

  lemma UnluckyStays(c: Setting, s: State, a: Action)
    requires Inv(c, s) && Unlucky(c, s) && Enabled(c, s, a) && a != SelectReceive
    ensures Unlucky(c, Next(c, s, a)) && (s.reader == Returned ==> Next(c, s, a).reader == Returned)
  {
    hide Sent, Conserved, Flow, Descriptors;
  }

  lemma AfterSnoc(c: Setting, acts: seq<Action>, a: Action)
    requires After(c, acts).Some? && Enabled(c, After(c, acts).value, a)
    ensures After(c, acts + [a]) == Some(Next(c, After(c, acts).value, a))
  {
    assert (acts + [a])[..|acts|] == acts;
  }

  /** Every run can be continued until it is stuck. */
  lemma {:induction false} Continue(c: Setting, acts: seq<Action>) returns (more: seq<Action>)
    requires After(c, acts).Some?
    ensures After(c, more).Some? && Stuck(c, After(c, more).value)
    ensures Unlucky(c, After(c, acts).value) ==>
      && Unlucky(c, After(c, more).value)
      && (After(c, acts).value.reader == Returned ==> After(c, more).value.reader == Returned)
    decreases 13 + 3 * |c.output| + 2 * |c.pending| - |acts|
  {
    hide Inv, Enabled, Next, Unlucky, Stuck;
    var s := After(c, acts).value;
    InvAlways(c, acts);
    if Stuck(c, s) {
      more := acts;
    } else {
      var a := Step(c, s);
      if Unlucky(c, s) {
        UnluckyStays(c, s, a);
      }
      AfterSnoc(c, acts, a);
      RunsEnd(c, acts + [a]);
      more := Continue(c, acts + [a]);
    }
  }

  /** If stdout is redirected and not restored, every run without a timeout ends in a deadlock. */
  lemma Deadlocks(c: Setting, acts: seq<Action>)
    requires Roomy(c) && !c.slow && c.redirects && !c.restores
    requires After(c, acts).Some? && Stuck(c, After(c, acts).value)
    ensures Deadlocked(After(c, acts).value)
  {
    hide Sent, Conserved, Flow, Stuck, Enabled, Next;
    InvAlways(c, acts);
    StuckIs(c, After(c, acts).value);
  }

  lemma TimeoutRun(c: Setting) returns (acts: seq<Action>)
    requires c.slow
    ensures After(c, acts).Some? && Unlucky(c, After(c, acts).value) && After(c, acts).value.reader == Returned
  {
    acts := [];
    AfterSnoc(c, acts, Timeout);
    acts := acts + [Timeout];
    AfterSnoc(c, acts, CloseR);
    acts := acts + [CloseR];
    AfterSnoc(c, acts, SelectDefault);
    acts := acts + [SelectDefault];
    AfterSnoc(c, acts, CloseChan);
    acts := acts + [CloseChan];
  }

  /** If the deadline can pass, or the number is out of range after stdout was restored, some run
      closes the channel under the goroutine, which panics. */
  lemma CanPanic(c: Setting) returns (acts: seq<Action>)
    requires Roomy(c) && (c.slow || ((c.redirects ==> c.restores) && !c.parses(Flow(c))))
    ensures After(c, acts).Some? && After(c, acts).value.writer == Panicked
  {
    hide Sent, Conserved, Flow, Stuck, Enabled, Next;
    var start := [];
    if c.slow {
      start := TimeoutRun(c);
    }
    acts := Continue(c, start);
    InvAlways(c, acts);
    StuckIs(c, After(c, acts).value);
  }

  /** A run is as it should be so far. */
  ghost predicate Fine(c: Setting, s: State) {
    s.writer != Panicked && (Stuck(c, s) ==> Good(c, s))
  }

  /** Exactly the safe calls work in every interleaving. */
  lemma SafeIff(c: Setting)
    requires Roomy(c)
    ensures Safe(c) <==> forall acts | After(c, acts).Some? :: Fine(c, After(c, acts).value)
  {
    hide After, Stuck, Good, Flow;
    if Safe(c) {
      forall acts | After(c, acts).Some?
        ensures Fine(c, After(c, acts).value)
      {
        SafeRuns(c, acts);
      }
    } else if !c.slow && c.redirects && !c.restores {
      AfterNone(c);
      var acts := Continue(c, []);
      Deadlocks(c, acts);
      DeadlockIsBad(c, After(c, acts).value);
    } else {
      var acts := CanPanic(c);
    }
  }

  lemma AfterNone(c: Setting)
    ensures After(c, []).Some?
  {
  }

  lemma DeadlockIsBad(c: Setting, s: State)
    requires Deadlocked(s)
    ensures !Good(c, s)
  {
  }
}
