/** Callbacks of the bidirectional client stream that call back into it.  They run under the stream's
    recursive lock, in the middle of OnRead and CallStatusCb
    (src/client/impl/client_async_reader_writer_impl.cc:140, :233, :243), and the source's assertions do
    not all survive that.  Here is exactly which calls keep them, callback by callback; whole runs are
    the subject of ReaderWriterCallbackRuns. */
module ReaderWriterReentry {
  import opened Grpc
  import opened ReaderWriterModel

  datatype UserCall =
    | CallWrite(msg: string)
    | CallCloseWriting
    | CallReadEach(cb: Option<nat>)
    | CallSetErrorStatus(error: Status)

  /** SetErrorStatus asserts that its argument is an error (:75). */
  predicate Proper(script: seq<UserCall>) {
    forall i :: 0 <= i < |script| && script[i].CallSetErrorStatus? ==> !script[i].error.Ok()
  }

  /** A SetErrorStatus with an OK status, which fails its assertion, changes nothing here. */
  function Apply(s: State, c: UserCall): State
    requires s.writing.closeSent ==> s.writing.closing
  {
    match c
    case CallWrite(msg) => s.Write(msg)
    case CallCloseWriting => s.CloseWriting()
    case CallReadEach(cb) => s.ReadEach(cb)
    case CallSetErrorStatus(error) => if error.Ok() then s else s.SetErrorStatus(error)
  }

  /** The assertions at the heads of the public methods (:38, :59, :75). */
  predicate Asserts(s: State, c: UserCall) {
    match c
    case CallWrite(_) => var r := s.InitIfNot(); r.status.Ok() || (r.reading.ended && r.writing.ended)
    case CallCloseWriting => s.writing.closing || !s.status.Ok() || s.queue != [] || !s.writing.closeSent
    case CallReadEach(_) => true
    case CallSetErrorStatus(error) => !error.Ok()
  }

  lemma ClosingStays(s: State, c: UserCall)
    requires s.writing.closeSent ==> s.writing.closing
    ensures Apply(s, c).writing.closeSent ==> Apply(s, c).writing.closing
  {
    hide State.SameBooks, Call.After;
  }

  function ApplyAll(s: State, script: seq<UserCall>): (r: State)
    requires s.writing.closeSent ==> s.writing.closing
    ensures r.writing.closeSent ==> r.writing.closing
    decreases |script|
  {
    if script == [] then s
    else
      ClosingStays(s, script[0]);
      ApplyAll(Apply(s, script[0]), script[1..])
  }

  predicate AssertsAll(s: State, script: seq<UserCall>)
    requires s.writing.closeSent ==> s.writing.closing
    decreases |script|
  {
    script == [] || (Asserts(s, script[0]) && (ClosingStays(s, script[0]); AssertsAll(Apply(s, script[0]), script[1..])))
  }

  // ----- The message callback -----

  /** The stream while its message callback runs: reading goes on, but no read is outstanding. */
  ghost predicate Mid(s: State) {
    && s.reading == Reading(true, false) && s.readId.None? && Unfired(s)
    && Live(s.(reading := Reading(true, true)))
  }

  ghost predicate Steady(s: State) { Mid(s) || Dead(s) }

  /** This call makes a healthy stream fail. */
  predicate Breaks(s: State, c: UserCall) {
    match c
    case CallWrite(_) => !s.writing.closing && s.queue == [] && !s.call.WillStart()
    case CallCloseWriting => !s.writing.closing && s.queue == [] && !s.call.WillStart()
    case CallReadEach(_) => false
    case CallSetErrorStatus(error) => !error.Ok()
  }

  predicate BreaksAny(s: State, script: seq<UserCall>)
    requires s.writing.closeSent ==> s.writing.closing
    decreases |script|
  {
    script != [] && (Breaks(s, script[0]) || (ClosingStays(s, script[0]); BreaksAny(Apply(s, script[0]), script[1..])))
  }

  /** In the middle of a read a call does what it would do after a normal end of reading. */
  lemma MidIsLikeEnded(s: State, c: UserCall)
    requires Mid(s)
    ensures s.writing.closeSent ==> s.writing.closing
    ensures var t, r := Apply(s.(reading := Reading(true, true)), c), Apply(s, c);
            && r.status.Ok() == !Breaks(s, c)
            && (r.status.Ok() ==> r == t.(reading := s.reading) && t.reading == Reading(true, true)
                                  && r.readId.None? && Unfired(r))
            && (!r.status.Ok() ==> r == t)
  {
    hide TagsOk, WireOk, State.SameBooks, Call.After;
    ClosingWire(s.(reading := Reading(true, true)));
  }

  lemma EndedStep(s: State, c: UserCall)
    requires Core(s)
    ensures s.writing.closeSent ==> s.writing.closing
    ensures Core(Apply(s, c)) && Apply(s, c).call.held == s.call.held
  {
    hide Core, State.Write, State.CloseWriting, State.ReadEach, State.SetErrorStatus;
    CloseWritingCore(s);
    match c
    case CallWrite(msg) => WriteCore(s, msg);
    case CallCloseWriting =>
    case CallReadEach(cb) => ReadEachCore(s, cb);
    case CallSetErrorStatus(error) => if !error.Ok() { SetErrorStatusCore(s, error); }
  }

  lemma SteadyAsserts(s: State, c: UserCall)
    requires Steady(s)
    ensures Asserts(s, c) <==> !c.CallSetErrorStatus? || !c.error.Ok()
  {
    hide TagsOk, WireOk, State.SameBooks, Call.After;
    ClosingWire(if Dead(s) then s else s.(reading := Reading(true, true)));
  }

  lemma SteadyStep(s: State, c: UserCall)
    requires Steady(s)
    ensures s.writing.closeSent ==> s.writing.closing
    ensures Steady(Apply(s, c)) && Apply(s, c).call.held == s.call.held
    ensures Apply(s, c).status.Ok() <==> s.status.Ok() && !Breaks(s, c)
  {
    hide TagsOk, WireOk, Apply, Breaks;
    if Dead(s) {
      EndedStep(s, c);
      DeadStays(s, c);
    } else {
      MidIsLikeEnded(s, c);
      EndedStep(s.(reading := Reading(true, true)), c);
    }
  }

  lemma DeadStays(s: State, c: UserCall)
    requires !s.status.Ok() && (s.writing.closeSent ==> s.writing.closing)
    ensures !Apply(s, c).status.Ok()
  {
    hide State.SameBooks, Call.After;
  }

  lemma {:induction false} SteadyRun(s: State, script: seq<UserCall>)
    requires Steady(s)
    ensures s.writing.closeSent ==> s.writing.closing
    ensures AssertsAll(s, script) <==> Proper(script)
    ensures Steady(ApplyAll(s, script)) && ApplyAll(s, script).call.held == s.call.held
    ensures ApplyAll(s, script).status.Ok() <==> s.status.Ok() && !BreaksAny(s, script)
    decreases |script|
  {
    hide Steady, Apply, Asserts, Breaks;
    SteadyStep(s, CallReadEach(None));
    if script != [] {
      SteadyAsserts(s, script[0]);
      SteadyStep(s, script[0]);
      SteadyRun(Apply(s, script[0]), script[1..]);
      assert script == [script[0]] + script[1..];
    }
  }

  /** The read completion that calls the message callback, up to the call. */
  function Shown(s: State, id: nat, o: Outcome): State
    requires id in s.call.pending && o.received.Message?
  {
    s.(call := s.call.Take(id), readId := None, delivered := s.delivered + [o.received.msg])
  }

  /** What OnRead does once the callback has returned; ReadNext and EndOnErrorStatus both assert that
      the status is still OK (:194, :232). */
  function AfterShown(s: State, verdict: Status): State
    requires s.status.Ok()
  {
    if verdict.Ok() then s.ReadNext() else s.EndOnErrorStatus(verdict)
  }

  predicate CallsBack(s: State, id: nat, o: Outcome) {
    id in s.call.pending && s.call.pending[id].ReadTag? && s.status.Ok() && s.Shows(o)
  }

  lemma ShownIsMid(s: State, id: nat, o: Outcome)
    requires Inv(s) && CallsBack(s, id, o)
    ensures Mid(Shown(s, id, o)) && Shown(s, id, o).call.held == {id}
  {
    hide TagsOk, WireOk;
    CompletionAsserts(s, id);
    TakeRead(s, id);
  }

  lemma AfterShownCore(s: State, verdict: Status)
    requires Mid(s) && s.status.Ok()
    ensures Core(AfterShown(s, verdict)) && AfterShown(s, verdict).call.held == s.call.held
  {
    hide TagsOk, WireOk, State.SameBooks;
    if verdict.Ok() { ReadNextOpens(s); } else { EndOnErrorDead(s, verdict); }
  }

  /** A message callback may call any public method any number of times: the one assertion of those
      methods that can fail is that on SetErrorStatus' argument.  The read then goes on without a
      failing assertion if and only if none of the calls made the stream fail, that is, was
      SetErrorStatus or met a refused start; and then the stream's invariant holds again once the
      completion is over, and the calls have caused no callback. */
  lemma MessageCallbackIff(s: State, id: nat, o: Outcome, script: seq<UserCall>)
    requires Inv(s) && CallsBack(s, id, o)
    ensures var shown := Shown(s, id, o);
            && (shown.writing.closeSent ==> shown.writing.closing)
            && (AssertsAll(shown, script) <==> Proper(script))
            && var r := ApplyAll(shown, script);
            && (r.status.Ok() <==> !BreaksAny(shown, script))
            && (r.status.Ok() ==> r.fired == shown.fired && r.given == s.given)
            && (r.status.Ok() ==>
                  var after := AfterShown(r, o.verdict);
                  id in after.call.held && Inv(after.(call := after.call.Delete(id))))
  {
    hide Inv, Mid, ApplyAll, AssertsAll, BreaksAny, State.ReadNext, State.EndOnErrorStatus, Call.After;
    ShownIsMid(s, id, o);
    var shown := Shown(s, id, o);
    SteadyRun(shown, script);
    ScriptKeepsGiven(shown, script);
    var r := ApplyAll(shown, script);
    assert shown.fired == [] by { MidOrDead(shown); }
    if r.status.Ok() {
      MidOrDead(r);
      AfterShownCore(r, o.verdict);
      hide AfterShown;
      ReleaseInv(AfterShown(r, o.verdict), id);
    }
  }

  lemma MidOrDead(s: State)
    requires Steady(s) && s.status.Ok()
    ensures Mid(s) && s.fired == [] && s.statusCb == s.given
  {
    hide TagsOk, WireOk;
  }

  lemma ApplyKeepsGiven(s: State, c: UserCall)
    requires s.writing.closeSent ==> s.writing.closing
    ensures Apply(s, c).given == s.given
  {
    hide State.SameBooks, Call.After;
  }

  lemma {:induction false} ScriptKeepsGiven(s: State, script: seq<UserCall>)
    requires s.writing.closeSent ==> s.writing.closing
    ensures ApplyAll(s, script).given == s.given
    decreases |script|
  {
    hide Apply;
    if script != [] {
      ClosingStays(s, script[0]);
      ApplyKeepsGiven(s, script[0]);
      ScriptKeepsGiven(Apply(s, script[0]), script[1..]);
    }
  }

  // ----- The status callback -----

  predicate NoWrite(script: seq<UserCall>) {
    forall i :: 0 <= i < |script| ==> !script[i].CallWrite?
  }

  predicate Reports(c: UserCall) { c.CallSetErrorStatus? && !c.error.Ok() }

  predicate NoError(script: seq<UserCall>) {
    forall i :: 0 <= i < |script| ==> !Reports(script[i])
  }

  /** On a failed stream the calls change these fields only. */
  ghost predicate OnlyFlags(s: State, r: State) {
    && r == s.(status := r.status, inited := r.inited, reading := s.reading.(started := r.reading.started),
               writing := s.writing.(closing := r.writing.closing))
    && !r.status.Ok()
    && (s.inited ==> r.inited) && (s.reading.started ==> r.reading.started) && (s.writing.closing ==> r.writing.closing)
  }

  lemma FailedStep(s: State, c: UserCall)
    requires !s.status.Ok() && (s.writing.closeSent ==> s.writing.closing)
    ensures OnlyFlags(s, Apply(s, c))
    ensures Asserts(s, c) <==>
              (c.CallWrite? ==> s.reading.ended && s.writing.ended) && (c.CallSetErrorStatus? ==> !c.error.Ok())
  {
    hide State.SameBooks, Call.After;
  }

  lemma {:induction false} FailedRun(s: State, script: seq<UserCall>)
    requires !s.status.Ok() && (s.writing.closeSent ==> s.writing.closing)
    ensures OnlyFlags(s, ApplyAll(s, script))
    ensures AssertsAll(s, script) <==> Proper(script) && (NoWrite(script) || (s.reading.ended && s.writing.ended))
    decreases |script|
  {
    hide Apply, Asserts;
    if script != [] {
      FailedStep(s, script[0]);
      ClosingStays(s, script[0]);
      FailedRun(Apply(s, script[0]), script[1..]);
      assert script == [script[0]] + script[1..];
    }
  }

  /** EndOnErrorStatus while the status callback runs: the status is set, the callback is not reset
      yet and the ended flags are not set yet (:233-237). */
  function DuringError(s: State, error: Status): State {
    s.(status := error, fired := s.Report(error))
  }

  function AfterError(s: State): State {
    s.(statusCb := None, reading := s.reading.(ended := true), writing := s.writing.(ended := true))
  }

  /** A status callback that reports an error may call CloseWriting, ReadEach and SetErrorStatus with
      an error.  A Write makes the assertion at :38 fail, unless both halves had already ended
      normally.  Whatever it calls, the callback is made once, with the error that ended the stream,
      both halves end, and the invariant of a failed stream holds if it does without the calls. */
  lemma ErrorCallbackIff(s: State, error: Status, script: seq<UserCall>)
    requires !error.Ok() && s.status.Ok() && s.statusCb.Some? && (s.writing.closeSent ==> s.writing.closing)
    ensures var during := DuringError(s, error);
            && (AssertsAll(during, script) <==> Proper(script) && (NoWrite(script) || (s.reading.ended && s.writing.ended)))
            && var r := AfterError(ApplyAll(during, script));
            && r.fired == s.fired + [Fired(s.statusCb.value, error)] && !r.status.Ok() && r.reading.ended && r.writing.ended
            && (Dead(s.EndOnErrorStatus(error)) ==> Dead(r))
    ensures AfterError(ApplyAll(DuringError(s, error), [])) == s.EndOnErrorStatus(error)
  {
    hide TagsOk, Legal, MessagesOn, ApplyAll, AssertsAll, NoWrite, State.SameBooks;
    FailedRun(DuringError(s, error), script);
    NoCalls(DuringError(s, error));
  }

  lemma NoCalls(s: State)
    requires s.writing.closeSent ==> s.writing.closing
    ensures ApplyAll(s, []) == s
  {
  }

  /** CallStatusCb at a normal end, while the callback runs: it is not reset yet (:243). */
  ghost predicate EndsNormally(s: State) {
    && s.status.Ok() && s.inited && s.statusCb.Some?
    && s.reading == Reading(true, true) && s.writing == Writing(true, true, true)
  }

  lemma {:induction false} EndedRun(s: State, script: seq<UserCall>)
    requires EndsNormally(s)
    ensures AssertsAll(s, script) <==> Proper(script)
    ensures if NoError(script) then ApplyAll(s, script) == s
            else !ApplyAll(s, script).status.Ok() && ApplyAll(s, script).fired == s.fired + [Fired(s.statusCb.value, FirstError(script))]
    decreases |script|
  {
    hide State.SameBooks, Call.After;
    if script != [] {
      assert script == [script[0]] + script[1..];
      if Reports(script[0]) {
        FailedRun(Apply(s, script[0]), script[1..]);
      } else {
        EndedRun(s, script[1..]);
      }
    }
  }

  function FirstError(script: seq<UserCall>): Status
    requires !NoError(script)
    decreases |script|
  {
    if Reports(script[0]) then script[0].error
    else
      assert script == [script[0]] + script[1..];
      FirstError(script[1..])
  }

  /** At a normal end the one assertion that calls from the status callback can fail is that on
      SetErrorStatus' argument, and the callback is called a second time, with an error, if and only
      if it calls SetErrorStatus with one. */
  lemma NormalEndCallbackIff(s: State, script: seq<UserCall>)
    requires EndsNormally(s)
    ensures var during := s.(fired := s.Report(s.status));
            && (AssertsAll(during, script) <==> Proper(script))
            && (ApplyAll(during, script) == during <==> NoError(script))
            && (!NoError(script) ==>
                  ApplyAll(during, script).fired ==
                  s.fired + [Fired(s.statusCb.value, s.status), Fired(s.statusCb.value, FirstError(script))])
    ensures ApplyAll(s.(fired := s.Report(s.status)), []).(statusCb := None) == s.CallStatusCb()
  {
    hide State.SameBooks, ApplyAll, AssertsAll, NoError, FirstError;
    EndedRun(s.(fired := s.Report(s.status)), script);
    NoCalls(s.(fired := s.Report(s.status)));
  }

  /** CallStatusCb is called at two places (:110, :128).  With the callback still set, it finds the
      state that NormalEndCallbackIff speaks of at both: when the last send completes ... */
  lemma LastSentEndsNormally(s: State, id: nat)
    requires Inv(s) && s.sendId == Some(id) && id in s.call.pending
    requires s.status.Ok() && |s.queue| == 1 && s.writing.closing
    ensures var popped := s.(call := s.call.Take(id), queue := [], sendId := None);
            && !s.writing.closeSent
            && var closed := popped.SendCloseBatch();
            && (closed.reading.ended && closed.statusCb.Some? ==>
                  EndsNormally(closed) && s.(call := s.call.Take(id)).OnSent(true) == closed.CallStatusCb())
  {
    CompletionAsserts(s, id);
    SendingIsInited(s);
    EndedIsStarted(s);
    hide Inv, State.SameBooks, Call.After;
  }

  /** ... and when the server ends the stream after writing has ended. */
  lemma ReadEndsNormally(s: State, id: nat, o: Outcome)
    requires Inv(s) && s.readId == Some(id) && id in s.call.pending && o.success && o.received.EndOfStream?
    requires s.status.Ok() && s.writing.ended && s.statusCb.Some?
    ensures var ended := s.(call := s.call.Take(id), readId := None, reading := s.reading.(ended := true));
            EndsNormally(ended) && s.(call := s.call.Take(id)).OnRead(o) == ended.CallStatusCb()
  {
    CompletionAsserts(s, id);
    EndedIsStarted(s);
    CloseWritingCore(s);
    hide Inv, State.SameBooks, Call.After;
  }

  lemma EndedIsStarted(s: State)
    requires Inv(s)
    ensures s.status.Ok() ==> (s.reading.ended ==> s.reading.started) && (s.reading.started ==> s.inited) && s.writing.ended == s.writing.closeSent
  {
    hide TagsOk, WireOk;
  }

  // ----- Calls that do fail -----

  /** The stream on which one read was started: tags 0 and 1 carry the metadata, tag 2 the read. */
  lemma OneRead(fate: nat -> bool, cb: nat, m: nat)
    requires forall k :: 0 <= k <= 3 ==> fate(k)
    ensures Inv(Init(fate, Some(cb)))
    ensures var s := Exec(Init(fate, Some(cb)), [EvReadEach(Some(m))]);
            && s == Next(Init(fate, Some(cb)), EvReadEach(Some(m)))
            && s.status == OK && s.readId == Some(2) && s.msgCb == Some(m) && s.queue == [] && s.statusCb == Some(cb) && s.fired == []
            && s.writing == Writing(false, false, false) && s.call.next == 3 && s.call.fate == fate && 2 in s.call.pending
            && s.call.pending[2].ReadTag?
  {
    hide Inv, Next;
    ReadFirst(fate, cb, Some(m));
    var s0 := Init(fate, Some(cb));
    NextInv(s0, EvReadEach(Some(m)));
    var s := Next(s0, EvReadEach(Some(m)));
    assert Exec(s0, [EvReadEach(Some(m))]) == Exec(s, []) == s;
    ReadIsOut(s, 2);
  }

  lemma ReadIsOut(s: State, id: nat)
    requires Inv(s) && s.readId == Some(id)
    ensures id in s.call.pending && s.call.pending[id].ReadTag?
  {
    hide WireOk;
  }

  /** A message callback that calls SetErrorStatus: the status at the assertion that follows it
      (:194 or :232) is an error. */
  lemma MessageCallbackCanBreak(fate: nat -> bool, cb: nat, m: nat, msg: string, verdict: Status, error: Status)
    requires (forall k :: 0 <= k <= 3 ==> fate(k)) && !error.Ok()
    ensures Inv(Init(fate, Some(cb)))
    ensures var s := Exec(Init(fate, Some(cb)), [EvReadEach(Some(m))]);
            var o := Outcome(true, Message(msg), OK, verdict);
            && CallsBack(s, 2, o)
            && var shown := Shown(s, 2, o);
            && (shown.writing.closeSent ==> shown.writing.closing)
            && BreaksAny(shown, [CallSetErrorStatus(error)]) && !ApplyAll(shown, [CallSetErrorStatus(error)]).status.Ok()
  {
    hide Inv, Next, Exec;
    OneRead(fate, cb, m);
    var s, o := Exec(Init(fate, Some(cb)), [EvReadEach(Some(m))]), Outcome(true, Message(msg), OK, verdict);
    MessageCallbackIff(s, 2, o, [CallSetErrorStatus(error)]);
  }

  /** A status callback that reports a failed read and calls Write: the assertion at :38 fails. */
  lemma ErrorCallbackCanFail(fate: nat -> bool, cb: nat, m: nat, o: Outcome, msg: string)
    requires (forall k :: 0 <= k <= 3 ==> fate(k)) && !o.success
    ensures Inv(Init(fate, Some(cb)))
    ensures var s := Exec(Init(fate, Some(cb)), [EvReadEach(Some(m))]);
            && 2 in s.call.pending && s.status.Ok()
            && var mid, error := s.(call := s.call.Take(2), readId := None), InternalError(ClientReaderReadCqTagFailed);
            && s.(call := s.call.Take(2)).OnRead(o) == mid.EndOnErrorStatus(error)
            && mid.statusCb.Some? && (mid.writing.closeSent ==> mid.writing.closing)
            && !AssertsAll(DuringError(mid, error), [CallWrite(msg)])
  {
    hide Inv, Next, Exec;
    OneRead(fate, cb, m);
    var s := Exec(Init(fate, Some(cb)), [EvReadEach(Some(m))]);
    var mid, error := s.(call := s.call.Take(2), readId := None), InternalError(ClientReaderReadCqTagFailed);
    ErrorCallbackIff(mid, error, [CallWrite(msg)]);
    assert [CallWrite(msg)][0].CallWrite?;
  }

  /** Both halves end normally, and the status callback calls SetErrorStatus: it is called twice. */
  lemma NormalEndCallbackTwice(fate: nat -> bool, cb: nat, m: nat, error: Status)
    requires (forall k :: 0 <= k <= 3 ==> fate(k)) && !error.Ok()
    ensures Inv(Init(fate, Some(cb)))
    ensures var s := Exec(Init(fate, Some(cb)), [EvReadEach(Some(m)), EvCloseWriting]);
            && 2 in s.call.pending
            && var ended := s.(call := s.call.Take(2), readId := None, reading := s.reading.(ended := true));
            && s.(call := s.call.Take(2)).OnRead(Outcome(true, EndOfStream, OK, OK)) == ended.CallStatusCb()
            && EndsNormally(ended)
            && ApplyAll(ended.(fired := ended.Report(ended.status)), [CallSetErrorStatus(error)]).fired == [Fired(cb, OK), Fired(cb, error)]
  {
    hide Inv, Next, Exec, ApplyAll, EndsNormally;
    OneRead(fate, cb, m);
    var s0 := Init(fate, Some(cb));
    var s1 := Exec(s0, [EvReadEach(Some(m))]);
    NextInv(s1, EvCloseWriting);
    var s := Next(s1, EvCloseWriting);
    ClosesFirst(s1);
    ReadIsOut(s, 2);
    ThenCloses(s0, s1, EvReadEach(Some(m)));
    var script := [CallSetErrorStatus(error)];
    ReadEndsNormally(s, 2, Outcome(true, EndOfStream, OK, OK));
    var ended := s.(call := s.call.Take(2), readId := None, reading := s.reading.(ended := true));
    NormalEndCallbackIff(ended, script);
    assert Reports(script[0]);
  }

  lemma ThenCloses(s: State, s1: State, e: Event)
    requires Inv(s) && Inv(s1) && s1 == Next(s, e)
    ensures Exec(s, [e, EvCloseWriting]) == Next(s1, EvCloseWriting)
  {
    hide Inv, Next;
    NextInv(s1, EvCloseWriting);
    assert [e, EvCloseWriting][1..] == [EvCloseWriting];
    assert Exec(s1, [EvCloseWriting]) == Exec(Next(s1, EvCloseWriting), []);
  }

  lemma ClosesFirst(s: State)
    requires Inv(s) && s.status.Ok() && !s.writing.closing && s.queue == [] && s.call.WillStart()
    ensures var r := Next(s, EvCloseWriting);
            && r.status == s.status && r.writing == Writing(true, true, true) && r.readId == s.readId
            && r.statusCb == s.statusCb && r.fired == s.fired
  {
    hide Core, State.SameBooks, Call.After;
    CloseWritingCore(s);
  }
}
