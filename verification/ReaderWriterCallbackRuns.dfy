/** Runs of the bidirectional client stream whose callbacks call back.  Every step is written again with
    the calls of its callbacks in the place where the source makes them, and is shown to come to an
    ordinary step, followed by the status callback's calls as ordinary steps of their own. */
module ReaderWriterCallbackRuns {
  import opened Grpc
  import opened ReaderWriterModel
  import opened ReaderWriterReentry

  // ----- The steps with a status callback that makes calls -----

  function EndOnErrorStatus(s: State, error: Status, script: seq<UserCall>): (r: State)
    requires !error.Ok() && s.status.Ok() && (s.writing.closeSent ==> s.writing.closing)
    ensures !r.status.Ok() && r.call == s.call && (r.writing.closeSent ==> r.writing.closing)
  {
    if s.statusCb.None? then s.EndOnErrorStatus(error)
    else
      FailedRun(DuringError(s, error), script);
      AfterError(ApplyAll(DuringError(s, error), script))
  }

  /** The callback of a normal end; a refused half-close has made it already. */
  function CallStatusCb(s: State, script: seq<UserCall>): (r: State)
    requires s.writing.closeSent ==> s.writing.closing
    ensures r.call.After(s.call) && (r.writing.closeSent ==> r.writing.closing)
  {
    if s.statusCb.None? then s
    else
      ScriptAfter(s.(fired := s.Report(s.status)), script);
      ApplyAll(s.(fired := s.Report(s.status)), script).(statusCb := None)
  }

  lemma {:induction false} ScriptAfter(s: State, script: seq<UserCall>)
    requires s.writing.closeSent ==> s.writing.closing
    ensures ApplyAll(s, script).call.After(s.call)
    decreases |script|
  {
    hide Apply;
    if script != [] {
      ClosingStays(s, script[0]);
      CallAfter(s, script[0]);
      ScriptAfter(Apply(s, script[0]), script[1..]);
    }
  }

  lemma CallAfter(s: State, c: UserCall)
    requires s.writing.closeSent ==> s.writing.closing
    ensures Apply(s, c).call.After(s.call)
  {
    hide State.Write, State.CloseWriting, State.ReadEach, State.SetErrorStatus;
  }

  function InitIfNot(s: State, script: seq<UserCall>): (r: State)
    requires s.writing.closeSent ==> s.writing.closing
    ensures r.call.After(s.call) && (r.writing.closeSent ==> r.writing.closing)
  {
    if s.inited then s
    else if !s.status.Ok() then s.(inited := true)
    else
      var sending := s.call.Launch(SendInitMdTag, [SendInitMd]);
      var receiving := sending.Launch(RecvInitMdTag, [RecvInitMd]);
      if !s.call.WillStart()
      then EndOnErrorStatus(s.(inited := true, call := sending), InternalError(FailedToSendInitMdBidi), script)
      else if !sending.WillStart()
      then EndOnErrorStatus(s.(inited := true, call := receiving), InternalError(FailedToRecvInitMdBidi), script)
      else s.(inited := true, call := receiving)
  }

  function SendNext(s: State, script: seq<UserCall>): (r: State)
    requires s.queue != [] && s.status.Ok() && (s.writing.closeSent ==> s.writing.closing)
    ensures r.call.After(s.call) && (r.writing.closeSent ==> r.writing.closing)
  {
    var t := s.(call := s.call.Launch(SendMsgTag(s.queue[0]), [SendMsg(s.queue[0])]));
    if s.call.WillStart() then t.(sendId := Some(s.call.next), handed := s.handed + [s.queue[0]])
    else EndOnErrorStatus(t, InternalError(FailedToWriteBidi), script)
  }

  function ReadNext(s: State, script: seq<UserCall>): (r: State)
    requires s.status.Ok() && (s.writing.closeSent ==> s.writing.closing)
    ensures r.call.After(s.call) && (r.writing.closeSent ==> r.writing.closing)
  {
    var t := s.(call := s.call.Launch(ReadTag, [RecvMsg]));
    if s.call.WillStart() then t.(readId := Some(s.call.next))
    else EndOnErrorStatus(t, InternalError(FailedToReadBidi), script)
  }

  function SendCloseBatch(s: State, script: seq<UserCall>): (r: State)
    requires s.writing.closing && !s.writing.closeSent && s.status.Ok()
    ensures r.call.After(s.call) && (r.writing.closeSent ==> r.writing.closing)
  {
    var t := s.(writing := Writing(true, true, true), call := s.call.Launch(SendCloseTag, [SendClose]));
    if s.call.WillStart() then t else EndOnErrorStatus(t, InternalError(FailedToCloseWriting), script)
  }

  function Write(s: State, msg: string, script: seq<UserCall>): (r: State)
    requires s.writing.closeSent ==> s.writing.closing
    ensures r.call.After(s.call)
  {
    var t := InitIfNot(s, script);
    if !t.status.Ok() || t.writing.closing || t.writing.ended then t
    else
      var t' := t.(queue := t.queue + [msg], pushed := t.pushed + [msg]);
      if t.queue != [] then t' else SendNext(t', script)
  }

  function CloseWriting(s: State, script: seq<UserCall>): (r: State)
    requires s.writing.closeSent ==> s.writing.closing
    ensures r.call.After(s.call)
  {
    if s.writing.closing then s
    else
      var t := s.(writing := s.writing.(closing := true));
      if s.status.Ok() && s.queue == [] then SendCloseBatch(t, script) else t
  }

  function ReadEach(s: State, cb: Option<nat>, script: seq<UserCall>): (r: State)
    requires s.writing.closeSent ==> s.writing.closing
    ensures r.call.After(s.call)
  {
    if s.reading.started then s
    else
      var t := InitIfNot(s.(reading := s.reading.(started := true)), script);
      if t.status.Ok() then ReadNext(t.(msgCb := cb), script) else t
  }

  function SetErrorStatus(s: State, error: Status, script: seq<UserCall>): (r: State)
    requires !error.Ok() && (s.writing.closeSent ==> s.writing.closing)
    ensures r.call.After(s.call)
  {
    if s.status.Ok() then EndOnErrorStatus(s, error, script) else s.(status := error)
  }

  function OnSent(s: State, success: bool, script: seq<UserCall>): (r: State)
    requires s.queue != [] && (s.status.Ok() ==> !s.writing.closeSent) && (s.writing.closeSent ==> s.writing.closing)
    ensures r.call.After(s.call)
  {
    var t := s.(queue := s.queue[1..], sendId := None);
    if !s.status.Ok() then t
    else if !success then EndOnErrorStatus(t, InternalError(FailedToSendMessage), script)
    else if t.queue != [] then SendNext(t, script)
    else if !s.writing.closing then t
    else
      var closed := SendCloseBatch(t, script);
      if closed.reading.ended then CallStatusCb(closed, script) else closed
  }

  /** message holds the calls of the message callback, script those of the status callback. */
  function OnRead(s: State, o: Outcome, message: seq<UserCall>, script: seq<UserCall>): (r: State)
    requires s.writing.closeSent ==> s.writing.closing
    requires var shown := s.(readId := None, delivered := s.delivered + if o.received.Message? then [o.received.msg] else []);
             s.status.Ok() && s.Shows(o) ==> ApplyAll(shown, message).status.Ok()
    ensures r.call.After(s.call)
  {
    var t := s.(readId := None);
    if !s.status.Ok() then t
    else if !o.success then EndOnErrorStatus(t, InternalError(ClientReaderReadCqTagFailed), script)
    else match o.received
         case EndOfStream =>
           var ended := t.(reading := s.reading.(ended := true));
           if s.writing.ended then CallStatusCb(ended, script) else ended
         case Garbled => EndOnErrorStatus(t, ResultStatus(Garbled), script)
         case Message(msg) =>
           if s.msgCb.None? then ReadNext(t, script)
           else
             var shown := t.(delivered := s.delivered + [msg]);
             ScriptAfter(shown, message);
             AfterMessage(ApplyAll(shown, message), o.verdict, script)
  }

  function AfterMessage(s: State, verdict: Status, script: seq<UserCall>): (r: State)
    requires s.status.Ok() && (s.writing.closeSent ==> s.writing.closing)
    ensures r.call.After(s.call)
  {
    if verdict.Ok() then ReadNext(s, script) else EndOnErrorStatus(s, verdict, script)
  }

  // ----- A status callback's calls come to the same calls made after the step -----

  /** The step from s to r made the callback, and then the calls follow. */
  function Then(s: State, r: State, script: seq<UserCall>): State
    requires r.writing.closeSent ==> r.writing.closing
  {
    if r.fired == s.fired then r else ApplyAll(r, script)
  }

  ghost predicate SameFlags(s: State, t: State) {
    s.status == t.status && s.inited == t.inited && s.reading.started == t.reading.started && s.writing.closing == t.writing.closing
  }

  lemma FlagsStep(s: State, t: State, c: UserCall)
    requires !s.status.Ok() && SameFlags(s, t)
    requires (s.writing.closeSent ==> s.writing.closing) && (t.writing.closeSent ==> t.writing.closing)
    ensures SameFlags(Apply(s, c), Apply(t, c))
  {
    hide State.SameBooks, Call.After;
  }

  lemma {:induction false} FlagsRun(s: State, t: State, script: seq<UserCall>)
    requires !s.status.Ok() && SameFlags(s, t)
    requires (s.writing.closeSent ==> s.writing.closing) && (t.writing.closeSent ==> t.writing.closing)
    ensures SameFlags(ApplyAll(s, script), ApplyAll(t, script))
    decreases |script|
  {
    hide Apply;
    if script != [] {
      ClosingStays(s, script[0]);
      ClosingStays(t, script[0]);
      FlagsStep(s, t, script[0]);
      FailedStep(s, script[0]);
      FlagsRun(Apply(s, script[0]), Apply(t, script[0]), script[1..]);
    }
  }

  lemma ErrorThen(s: State, error: Status, script: seq<UserCall>)
    requires !error.Ok() && s.status.Ok() && (s.writing.closeSent ==> s.writing.closing)
    ensures EndOnErrorStatus(s, error, script) == Then(s, s.EndOnErrorStatus(error), script)
  {
    hide ApplyAll;
    if s.statusCb.Some? {
      var during, ended := DuringError(s, error), s.EndOnErrorStatus(error);
      FailedRun(during, script);
      FailedRun(ended, script);
      FlagsRun(during, ended, script);
    }
  }

  lemma InitThen(s: State, script: seq<UserCall>)
    requires s.writing.closeSent ==> s.writing.closing
    ensures InitIfNot(s, script) == Then(s, s.InitIfNot(), script)
    ensures s.InitIfNot().status.Ok() ==> s.InitIfNot().fired == s.fired
    ensures InitIfNot(s, script).status.Ok() == s.InitIfNot().status.Ok()
  {
    hide EndOnErrorStatus, ApplyAll, State.SameBooks, Call.After;
    var sending := s.call.Launch(SendInitMdTag, [SendInitMd]);
    if !s.inited && s.status.Ok() {
      ErrorThen(s.(inited := true, call := sending), InternalError(FailedToSendInitMdBidi), script);
      ErrorThen(s.(inited := true, call := sending.Launch(RecvInitMdTag, [RecvInitMd])), InternalError(FailedToRecvInitMdBidi), script);
    }
  }

  lemma SendNextThen(s: State, script: seq<UserCall>)
    requires s.queue != [] && s.status.Ok() && (s.writing.closeSent ==> s.writing.closing)
    ensures s.SendNext().writing.closeSent ==> s.SendNext().writing.closing
    ensures SendNext(s, script) == Then(s, s.SendNext(), script)
    ensures s.SendNext().fired != s.fired ==> !s.SendNext().status.Ok()
  {
    hide EndOnErrorStatus, ApplyAll, State.SameBooks, Call.After;
    ErrorThen(s.(call := s.call.Launch(SendMsgTag(s.queue[0]), [SendMsg(s.queue[0])])), InternalError(FailedToWriteBidi), script);
  }

  lemma ReadNextThen(s: State, script: seq<UserCall>)
    requires s.status.Ok() && (s.writing.closeSent ==> s.writing.closing)
    ensures s.ReadNext().writing.closeSent ==> s.ReadNext().writing.closing
    ensures ReadNext(s, script) == Then(s, s.ReadNext(), script)
    ensures s.ReadNext().fired != s.fired ==> !s.ReadNext().status.Ok()
  {
    hide EndOnErrorStatus, ApplyAll, State.SameBooks, Call.After;
    ErrorThen(s.(call := s.call.Launch(ReadTag, [RecvMsg])), InternalError(FailedToReadBidi), script);
  }

  lemma SendCloseThen(s: State, script: seq<UserCall>)
    requires s.writing.closing && !s.writing.closeSent && s.status.Ok()
    ensures var r := s.SendCloseBatch();
            && (r.writing.closeSent ==> r.writing.closing)
            && SendCloseBatch(s, script) == Then(s, r, script)
            && (r.status.Ok() ==> r.fired == s.fired) && (!r.status.Ok() ==> r.statusCb.None? && r.reading.ended)
            && (!r.status.Ok() ==> SendCloseBatch(s, script).statusCb.None? && SendCloseBatch(s, script).reading.ended)
  {
    hide ApplyAll, State.SameBooks, Call.After;
    var t := s.(writing := Writing(true, true, true), call := s.call.Launch(SendCloseTag, [SendClose]));
    ErrorThen(t, InternalError(FailedToCloseWriting), script);
  }

  lemma WriteThen(s: State, msg: string, script: seq<UserCall>)
    requires s.writing.closeSent ==> s.writing.closing
    ensures s.Write(msg).writing.closeSent ==> s.Write(msg).writing.closing
    ensures Write(s, msg, script) == Then(s, s.Write(msg), script)
  {
    hide ApplyAll, State.SameBooks, Call.After, InitIfNot, SendNext;
    InitThen(s, script);
    ClosingStays(s, CallWrite(msg));
    var t := s.InitIfNot();
    if t.status.Ok() && !t.writing.closing && !t.writing.ended && t.queue == [] {
      InitKeepsClosing(s);
      SendNextThen(t.(queue := t.queue + [msg], pushed := t.pushed + [msg]), script);
    }
    hide State.InitIfNot, State.SendNext;
  }

  lemma InitKeepsClosing(s: State)
    requires s.writing.closeSent ==> s.writing.closing
    ensures s.InitIfNot().writing.closeSent ==> s.InitIfNot().writing.closing
  {
    hide State.SameBooks, Call.After;
  }

  lemma CloseWritingThen(s: State, script: seq<UserCall>)
    requires s.writing.closeSent ==> s.writing.closing
    ensures s.CloseWriting().writing.closeSent ==> s.CloseWriting().writing.closing
    ensures CloseWriting(s, script) == Then(s, s.CloseWriting(), script)
  {
    hide ApplyAll, State.SameBooks, Call.After, SendCloseBatch, State.SendCloseBatch;
    if !s.writing.closing && s.status.Ok() && s.queue == [] {
      SendCloseThen(s.(writing := s.writing.(closing := true)), script);
    }
  }

  lemma ReadEachThen(s: State, cb: Option<nat>, script: seq<UserCall>)
    requires s.writing.closeSent ==> s.writing.closing
    ensures s.ReadEach(cb).writing.closeSent ==> s.ReadEach(cb).writing.closing
    ensures ReadEach(s, cb, script) == Then(s, s.ReadEach(cb), script)
  {
    hide ApplyAll, State.SameBooks, Call.After, InitIfNot, ReadNext;
    var started := s.(reading := s.reading.(started := true));
    InitThen(started, script);
    InitKeepsClosing(started);
    var t := started.InitIfNot();
    if t.status.Ok() { ReadNextThen(t.(msgCb := cb), script); }
    hide State.InitIfNot, State.ReadNext;
  }

  lemma SetErrorThen(s: State, error: Status, script: seq<UserCall>)
    requires !error.Ok() && (s.writing.closeSent ==> s.writing.closing)
    ensures s.SetErrorStatus(error).writing.closeSent ==> s.SetErrorStatus(error).writing.closing
    ensures SetErrorStatus(s, error, script) == Then(s, s.SetErrorStatus(error), script)
  {
    hide ApplyAll, State.SameBooks, Call.After, EndOnErrorStatus;
    if s.status.Ok() { ErrorThen(s, error, script); }
  }

  /** At a normal end, a callback that does not call SetErrorStatus with an error changes nothing. */
  lemma NormalEndThen(s: State, before: State, script: seq<UserCall>)
    requires EndsNormally(s) && NoError(script) && s.fired == before.fired
    ensures CallStatusCb(s, script) == s.CallStatusCb() == Then(before, s.CallStatusCb(), script)
  {
    hide ApplyAll, State.SameBooks, Call.After, NoError;
    EndedRun(s.(fired := s.Report(s.status)), script);
    EndedQuietly(s.CallStatusCb(), script);
  }

  lemma {:induction false} EndedQuietly(s: State, script: seq<UserCall>)
    requires s.status.Ok() && s.inited && s.reading == Reading(true, true) && s.writing == Writing(true, true, true)
    requires NoError(script)
    ensures ApplyAll(s, script) == s
    decreases |script|
  {
    hide State.SameBooks, Call.After;
    if script != [] {
      assert !Reports(script[0]);
      EndedQuietly(s, script[1..]);
    }
  }

  lemma OnSentThen(s: State, success: bool, script: seq<UserCall>)
    requires s.queue != [] && (s.status.Ok() ==> !s.writing.closeSent && s.inited)
    requires (s.writing.closeSent ==> s.writing.closing) && (s.reading.ended && s.status.Ok() ==> s.reading.started)
    requires s.OnSent(success).fired != s.fired && s.OnSent(success).status.Ok() ==> NoError(script)
    ensures s.OnSent(success).writing.closeSent ==> s.OnSent(success).writing.closing
    ensures OnSent(s, success, script) == Then(s, s.OnSent(success), script)
  {
    hide ApplyAll, State.SameBooks, Call.After, EndOnErrorStatus, SendNext, SendCloseBatch, NoError, EndsNormally;
    var t := s.(queue := s.queue[1..], sendId := None);
    if s.status.Ok() {
      ErrorThen(t, InternalError(FailedToSendMessage), script);
      if success && t.queue != [] {
        SendNextThen(t, script);
        hide State.SendNext;
      } else if success && s.writing.closing {
        LastSentThen(t, s, script);
      }
    }
  }

  lemma LastSentThen(t: State, s: State, script: seq<UserCall>)
    requires t.writing.closing && !t.writing.closeSent && t.status.Ok() && t.inited && t.fired == s.fired
    requires t.reading.ended ==> t.reading.started
    requires var closed := t.SendCloseBatch();
             closed.status.Ok() && closed.reading.ended && closed.CallStatusCb().fired != t.fired ==> NoError(script)
    ensures var plain, closed := t.SendCloseBatch(), SendCloseBatch(t, script);
            var r := if plain.reading.ended then plain.CallStatusCb() else plain;
            && (r.writing.closeSent ==> r.writing.closing)
            && (if closed.reading.ended then CallStatusCb(closed, script) else closed) == Then(s, r, script)
  {
    hide ApplyAll, State.SameBooks, Call.After, SendCloseBatch, NoError;
    SendCloseThen(t, script);
    var plain := t.SendCloseBatch();
    if plain.status.Ok() && plain.reading.ended && plain.statusCb.Some? {
      NormalEndThen(plain, s, script);
    }
  }

  lemma AfterMessageThen(s: State, verdict: Status, script: seq<UserCall>)
    requires s.status.Ok() && (s.writing.closeSent ==> s.writing.closing)
    ensures AfterShown(s, verdict).writing.closeSent ==> AfterShown(s, verdict).writing.closing
    ensures AfterMessage(s, verdict, script) == Then(s, AfterShown(s, verdict), script)
    ensures AfterShown(s, verdict).fired != s.fired ==> !AfterShown(s, verdict).status.Ok()
  {
    hide ApplyAll, State.SameBooks, Call.After, EndOnErrorStatus, ReadNext;
    if verdict.Ok() { ReadNextThen(s, script); hide State.ReadNext; } else { ErrorThen(s, verdict, script); }
  }

  /** A read completion that calls no message callback. */
  lemma OnReadThen(s: State, o: Outcome, message: seq<UserCall>, script: seq<UserCall>)
    requires !(s.status.Ok() && s.Shows(o)) && (s.writing.closeSent ==> s.writing.closing)
    requires s.status.Ok() ==> s.inited && s.reading.started && (s.writing.ended ==> s.writing.closeSent)
    requires s.OnRead(o).fired != s.fired && s.OnRead(o).status.Ok() ==> NoError(script)
    ensures s.OnRead(o).writing.closeSent ==> s.OnRead(o).writing.closing
    ensures OnRead(s, o, message, script) == Then(s, s.OnRead(o), script)
  {
    hide ApplyAll, State.SameBooks, Call.After, EndOnErrorStatus, ReadNext, NoError;
    var t := s.(readId := None);
    if s.status.Ok() {
      if !o.success {
        ErrorThen(t, InternalError(ClientReaderReadCqTagFailed), script);
      } else if o.received.Garbled? {
        ErrorThen(t, ResultStatus(Garbled), script);
      } else if o.received.Message? {
        ReadNextThen(t, script);
        hide State.ReadNext;
      } else if s.writing.ended && s.statusCb.Some? {
        NormalEndThen(t.(reading := s.reading.(ended := true)), s, script);
      }
    }
  }

  // ----- A turn: one step with the calls of its callbacks -----

  /** The message callback of this step, if it has one, makes the calls in message; the status callback,
      if it is called, those in script. */
  datatype Turn = Turn(event: Event, message: seq<UserCall>, script: seq<UserCall>)

  predicate ShowsIn(s: State, e: Event) { e.EvComplete? && CallsBack(s, e.id, e.outcome) }

  lemma ClosingInv(s: State)
    requires Inv(s)
    ensures s.writing.closeSent ==> s.writing.closing
  {
    CloseWritingCore(s);
  }

  /** No call of the message callback makes the stream fail. */
  predicate MessageObeys(s: State, t: Turn)
    requires Inv(s)
  {
    ClosingInv(s);
    ShowsIn(s, t.event) ==>
      Proper(t.message) && !BreaksAny(Shown(s, t.event.id, t.event.outcome), t.message)
  }

  /** The step without the status callback's calls. */
  function Bare(s: State, t: Turn): (r: State)
    requires Inv(s) && MessageObeys(s, t)
    ensures Inv(r)
  {
    if ShowsIn(s, t.event) then
      MessageCallbackIff(s, t.event.id, t.event.outcome, t.message);
      var after := AfterShown(ApplyAll(Shown(s, t.event.id, t.event.outcome), t.message), t.event.outcome.verdict);
      after.(call := after.call.Delete(t.event.id))
    else
      NextInv(s, t.event);
      Next(s, t.event)
  }

  /** If the step calls the status callback, that does not call Write when it reports an error, nor
      SetErrorStatus when it reports a normal end. */
  predicate Obeys(s: State, t: Turn)
    requires Inv(s)
  {
    && MessageObeys(s, t)
    && (Bare(s, t).fired != s.fired ==>
          Proper(t.script) && if Bare(s, t).status.Ok() then NoError(t.script) else NoWrite(t.script))
  }

  function DoComplete(s: State, tag: Tag, o: Outcome, message: seq<UserCall>, script: seq<UserCall>): (r: State)
    requires s.writing.closeSent ==> s.writing.closing
    requires tag.SendMsgTag? ==> s.queue != [] && (s.status.Ok() ==> !s.writing.closeSent)
    requires var shown := s.(readId := None, delivered := s.delivered + if o.received.Message? then [o.received.msg] else []);
             tag.ReadTag? && s.status.Ok() && s.Shows(o) ==> ApplyAll(shown, message).status.Ok()
    ensures r.call.After(s.call)
  {
    match tag
    case SendMsgTag(_) => OnSent(s, o.success, script)
    case ReadTag => OnRead(s, o, message, script)
    case _ => s
  }

  function Deliver(s: State, id: nat, o: Outcome, message: seq<UserCall>, script: seq<UserCall>): State
    requires Inv(s) && id in s.call.pending && MessageObeys(s, Turn(EvComplete(id, o), message, script))
  {
    CompletionAsserts(s, id);
    ClosingInv(s);
    MessageKeepsHealthy(s, id, o, message);
    var r := DoComplete(s.(call := s.call.Take(id)), s.call.pending[id], o, message, script);
    r.(call := r.call.Delete(id))
  }

  lemma MessageKeepsHealthy(s: State, id: nat, o: Outcome, message: seq<UserCall>)
    requires Inv(s)
    ensures s.writing.closeSent ==> s.writing.closing
    ensures CallsBack(s, id, o) && !BreaksAny(Shown(s, id, o), message) ==> ApplyAll(Shown(s, id, o), message).status.Ok()
  {
    hide Inv, ApplyAll, AssertsAll, BreaksAny, AfterShown, Call.After, CallsBack;
    ClosingInv(s);
    if CallsBack(s, id, o) { MessageCallbackIff(s, id, o, message); }
  }

  /** The step with all calls in the place where the source makes them. */
  function Turned(s: State, t: Turn): State
    requires Inv(s) && MessageObeys(s, t)
  {
    ClosingInv(s);
    match t.event
    case EvWrite(msg) => Write(s, msg, t.script)
    case EvCloseWriting => CloseWriting(s, t.script)
    case EvReadEach(cb) => ReadEach(s, cb, t.script)
    case EvSetErrorStatus(error) => if error.Ok() then s else SetErrorStatus(s, error, t.script)
    case EvComplete(id, o) => if id in s.call.pending then Deliver(s, id, o, t.message, t.script) else s
  }

  // ----- Every turn is an ordinary step followed by ordinary calls -----

  function Step(c: UserCall): Event {
    match c
    case CallWrite(msg) => EvWrite(msg)
    case CallCloseWriting => EvCloseWriting
    case CallReadEach(cb) => EvReadEach(cb)
    case CallSetErrorStatus(error) => EvSetErrorStatus(error)
  }

  function Steps(script: seq<UserCall>): seq<Event>
    decreases |script|
  {
    if script == [] then [] else [Step(script[0])] + Steps(script[1..])
  }

  lemma CallIsStep(s: State, c: UserCall)
    requires Inv(s)
    ensures s.writing.closeSent ==> s.writing.closing
    ensures Apply(s, c) == Next(s, Step(c))
  {
    ClosingInv(s);
    hide Inv, State.Write, State.CloseWriting, State.ReadEach, State.SetErrorStatus;
  }

  lemma {:induction false} CallsAreSteps(s: State, script: seq<UserCall>)
    requires Inv(s)
    ensures s.writing.closeSent ==> s.writing.closing
    ensures ApplyAll(s, script) == Exec(s, Steps(script))
    decreases |script|
  {
    hide Inv, Next, Apply;
    ClosingInv(s);
    if script != [] {
      CallIsStep(s, script[0]);
      NextInv(s, Step(script[0]));
      CallsAreSteps(Next(s, Step(script[0])), script[1..]);
      assert Steps(script)[1..] == Steps(script[1..]);
    }
  }

  ghost predicate Quiet(s: State) {
    s.status.Ok() && s.inited && s.reading == Reading(true, true) && s.writing == Writing(true, true, true)
  }

  lemma FiredIsQuiet(s: State)
    requires Inv(s) && s.status.Ok() && s.fired != []
    ensures Quiet(s)
  {
    ClosingInv(s);
    hide TagsOk, WireOk;
  }

  /** Deleting the tag may as well come before the calls. */
  lemma ThenDelete(s: State, mid: State, script: seq<UserCall>, c: Call)
    requires mid.writing.closeSent ==> mid.writing.closing
    requires mid.fired != s.fired ==> !mid.status.Ok() || (Quiet(mid) && NoError(script))
    ensures Then(s, mid, script).(call := c) == Then(s, mid.(call := c), script)
    ensures Then(s, mid, script).call == mid.call
  {
    hide ApplyAll, NoError;
    if mid.fired != s.fired {
      if mid.status.Ok() {
        EndedQuietly(mid, script);
        EndedQuietly(mid.(call := c), script);
      } else {
        FailedRun(mid, script);
        FailedRun(mid.(call := c), script);
        FlagsRun(mid, mid.(call := c), script);
      }
    }
  }

  /** The completion steps, up to the deletion of the tag. */
  lemma DeliversUpTo(s: State, id: nat, o: Outcome, message: seq<UserCall>, script: seq<UserCall>)
    requires Inv(s) && id in s.call.pending && MessageObeys(s, Turn(EvComplete(id, o), message, script))
    ensures var tag := s.call.pending[id];
            && s.call.Accounted()
            && (tag.SendMsgTag? <==> s.sendId == Some(id)) && (tag.ReadTag? <==> s.readId == Some(id))
            && (tag.SendMsgTag? ==> s.queue != [] && (s.status.Ok() ==> !s.writing.closeSent))
            && (s.writing.closeSent ==> s.writing.closing)
            && var taken := s.(call := s.call.Take(id));
            && (tag.SendMsgTag? ==>
                  var r, mid := OnSent(taken, o.success, script), taken.OnSent(o.success);
                  && id in r.call.held && Deliver(s, id, o, message, script) == r.(call := r.call.Delete(id))
                  && id in mid.call.held && ReaderWriterModel.Deliver(s, id, o) == mid.(call := mid.call.Delete(id)))
            && (tag.ReadTag? && !CallsBack(s, id, o) ==>
                  var r, mid := OnRead(taken, o, message, script), taken.OnRead(o);
                  && id in r.call.held && Deliver(s, id, o, message, script) == r.(call := r.call.Delete(id))
                  && id in mid.call.held && ReaderWriterModel.Deliver(s, id, o) == mid.(call := mid.call.Delete(id)))
  {
    hide Inv, State.OnSent, State.OnRead, OnSent, OnRead, MessageObeys, ApplyAll, State.SameBooks, EndsNormally;
    CompletionAsserts(s, id);
    ClosingInv(s);
  }

  /** A step that makes the callback of a normal end leaves a stream on which nothing can happen. */
  lemma EndsQuietly(s: State, id: nat, o: Outcome)
    requires Inv(s) && id in s.call.pending
    ensures var r := ReaderWriterModel.Deliver(s, id, o);
            && (r.writing.closeSent ==> r.writing.closing) && (r.fired != s.fired && r.status.Ok() ==> Quiet(r))
  {
    hide ReaderWriterModel.Deliver;
    NextDelivers(s, id, o);
    DeliverInv(s, id, o);
    hide Inv, Quiet, Next;
    var r := ReaderWriterModel.Deliver(s, id, o);
    ClosingInv(r);
    if r.fired != s.fired && r.status.Ok() {
      FiredOrNot(s, EvComplete(id, o));
      FiredIsQuiet(r);
    }
  }

  lemma SentThen(s: State, id: nat, o: Outcome, message: seq<UserCall>, script: seq<UserCall>)
    requires Inv(s) && s.sendId == Some(id) && id in s.call.pending && MessageObeys(s, Turn(EvComplete(id, o), message, script))
    requires var r := ReaderWriterModel.Deliver(s, id, o); r.fired != s.fired && r.status.Ok() ==> NoError(script)
    ensures var r := ReaderWriterModel.Deliver(s, id, o);
            && (r.writing.closeSent ==> r.writing.closing)
            && Deliver(s, id, o, message, script) == Then(s, r, script)
  {
    hide Inv, State.OnSent, OnSent, Then, NoError, Call.After, MessageObeys, Deliver, ReaderWriterModel.Deliver, CallsBack, ApplyAll;
    DeliversUpTo(s, id, o, message, script);
    EndsQuietly(s, id, o);
    SendingIsInited(s);
    EndedIsStarted(s);
    var taken := s.(call := s.call.Take(id));
    var mid := taken.OnSent(o.success);
    OnSentThen(taken, o.success, script);
    ThenDelete(taken, mid, script, mid.call.Delete(id));
    ThenSame(s, taken, ReaderWriterModel.Deliver(s, id, o), script);
  }

  lemma ThenSame(s: State, t: State, r: State, script: seq<UserCall>)
    requires s.fired == t.fired && (r.writing.closeSent ==> r.writing.closing)
    ensures Then(s, r, script) == Then(t, r, script)
  {
  }

  /** A step that makes a callback leaves one behind. */
  lemma FiredOrNot(s: State, e: Event)
    requires Inv(s) && Next(s, e).fired != s.fired
    ensures Next(s, e).fired != []
  {
    CallbackTellsStatus(s, e);
    hide Inv, Next;
  }

  lemma ReadThen(s: State, id: nat, o: Outcome, message: seq<UserCall>, script: seq<UserCall>)
    requires Inv(s) && s.readId == Some(id) && id in s.call.pending && !CallsBack(s, id, o)
    requires MessageObeys(s, Turn(EvComplete(id, o), message, script))
    requires var r := ReaderWriterModel.Deliver(s, id, o); r.fired != s.fired && r.status.Ok() ==> NoError(script)
    ensures var r := ReaderWriterModel.Deliver(s, id, o);
            && (r.writing.closeSent ==> r.writing.closing)
            && Deliver(s, id, o, message, script) == Then(s, r, script)
  {
    hide Inv, State.OnRead, OnRead, Then, NoError, Call.After, MessageObeys, Deliver, ReaderWriterModel.Deliver, ApplyAll;
    DeliversUpTo(s, id, o, message, script);
    CompletionAsserts(s, id);
    EndsQuietly(s, id, o);
    EndedIsStarted(s);
    var taken := s.(call := s.call.Take(id));
    var mid := taken.OnRead(o);
    OnReadThen(taken, o, message, script);
    ThenDelete(taken, mid, script, mid.call.Delete(id));
    ThenSame(s, taken, ReaderWriterModel.Deliver(s, id, o), script);
  }

  lemma ShowThen(s: State, id: nat, o: Outcome, message: seq<UserCall>, script: seq<UserCall>)
    requires Inv(s) && CallsBack(s, id, o) && MessageObeys(s, Turn(EvComplete(id, o), message, script))
    ensures var r := Bare(s, Turn(EvComplete(id, o), message, script));
            && (r.writing.closeSent ==> r.writing.closing)
            && Deliver(s, id, o, message, script) == Then(s, r, script)
  {
    var t := Turn(EvComplete(id, o), message, script);
    CompletionAsserts(s, id);
    MessageCallbackIff(s, id, o, message);
    ClosingInv(Bare(s, t));
    ClosingInv(s);
    hide Inv, ApplyAll, AssertsAll, BreaksAny, AfterShown, AfterMessage, Then, Call.After;
    var shown := Shown(s, id, o);
    var heard := ApplyAll(shown, message);
    AfterMessageThen(heard, o.verdict, script);
    var mid := AfterShown(heard, o.verdict);
    ThenDelete(heard, mid, script, mid.call.Delete(id));
    ThenSame(s, heard, Bare(s, t), script);
    ShowDelivers(s, id, o, message, script);
  }

  lemma ShowDelivers(s: State, id: nat, o: Outcome, message: seq<UserCall>, script: seq<UserCall>)
    requires Inv(s) && CallsBack(s, id, o) && MessageObeys(s, Turn(EvComplete(id, o), message, script))
    ensures var shown := Shown(s, id, o);
            && (shown.writing.closeSent ==> shown.writing.closing)
            && ApplyAll(shown, message).status.Ok()
            && var r := AfterMessage(ApplyAll(shown, message), o.verdict, script);
            id in r.call.held && Deliver(s, id, o, message, script) == r.(call := r.call.Delete(id))
  {
    hide Inv, ApplyAll, AfterMessage, EndOnErrorStatus, State.OnRead, State.OnSent, OnSent, State.SameBooks, BreaksAny, EndsNormally;
    CompletionAsserts(s, id);
    MessageKeepsHealthy(s, id, o, message);
    ScriptAfter(Shown(s, id, o), message);
  }

  /** In every turn the status callback's calls have the effect that the same calls have when they are
      made right after the step. */
  lemma TurnThen(s: State, t: Turn)
    requires Inv(s) && Obeys(s, t)
    ensures Bare(s, t).writing.closeSent ==> Bare(s, t).writing.closing
    ensures Turned(s, t) == Then(s, Bare(s, t), t.script)
  {
    ClosingInv(s);
    ClosingInv(Bare(s, t));
    hide Inv, Then, NoError, NoWrite, State.Write, State.CloseWriting, State.ReadEach, State.SetErrorStatus, ReaderWriterModel.Deliver,
      Deliver, Write, CloseWriting, ReadEach, SetErrorStatus, CallsBack, MessageObeys;
    match t.event
    case EvWrite(msg) => WriteThen(s, msg, t.script);
    case EvCloseWriting => CloseWritingThen(s, t.script);
    case EvReadEach(cb) => ReadEachThen(s, cb, t.script);
    case EvSetErrorStatus(error) =>
      if error.Ok() { NothingThen(s, t.script); } else { SetErrorThen(s, error, t.script); }
    case EvComplete(id, o) =>
      if id !in s.call.pending { NothingThen(s, t.script); }
      else { CompletedThen(s, t, id, o); }
  }

  lemma NothingThen(s: State, script: seq<UserCall>)
    requires s.writing.closeSent ==> s.writing.closing
    ensures Then(s, s, script) == s
  {
  }

  lemma CompletedThen(s: State, t: Turn, id: nat, o: Outcome)
    requires Inv(s) && Obeys(s, t) && t.event == EvComplete(id, o) && id in s.call.pending
    ensures Bare(s, t).writing.closeSent ==> Bare(s, t).writing.closing
    ensures Deliver(s, id, o, t.message, t.script) == Then(s, Bare(s, t), t.script)
  {
    CompletionAsserts(s, id);
    ClosingInv(s);
    ClosingInv(Bare(s, t));
    if CallsBack(s, id, o) {
      hide Inv, Then, Deliver;
      ShowThen(s, id, o, t.message, t.script);
    } else {
      NextDelivers(s, id, o);
      hide Inv, Then, Deliver, Next, ReaderWriterModel.Deliver;
      if s.sendId == Some(id) { SentThen(s, id, o, t.message, t.script); }
      else if s.readId == Some(id) { ReadThen(s, id, o, t.message, t.script); }
      else { OtherThen(s, id, o, t.message, t.script); }
    }
  }

  lemma NextDelivers(s: State, id: nat, o: Outcome)
    requires Inv(s) && id in s.call.pending
    ensures Next(s, EvComplete(id, o)) == ReaderWriterModel.Deliver(s, id, o)
  {
    hide Inv, ReaderWriterModel.Deliver, State.Write, State.CloseWriting, State.ReadEach, State.SetErrorStatus;
  }

  lemma OtherThen(s: State, id: nat, o: Outcome, message: seq<UserCall>, script: seq<UserCall>)
    requires Inv(s) && id in s.call.pending && s.sendId != Some(id) && s.readId != Some(id)
    requires MessageObeys(s, Turn(EvComplete(id, o), message, script))
    ensures var r := ReaderWriterModel.Deliver(s, id, o);
            && (r.writing.closeSent ==> r.writing.closing)
            && Deliver(s, id, o, message, script) == Then(s, r, script)
  {
    CompletionAsserts(s, id);
    ClosingInv(s);
    hide Inv;
  }

  /** At a normal end the calls change nothing, after an error only flags of the failed stream; they
      cause no further callback. */
  lemma NoFurtherCallback(s: State, t: Turn)
    requires Inv(s) && Obeys(s, t)
    ensures var r := Bare(s, t);
            && Turned(s, t).fired == r.fired
            && (if r.fired == s.fired || r.status.Ok() then Turned(s, t) == r else OnlyFlags(r, Turned(s, t)))
  {
    hide Inv, Turned, Bare, MessageObeys, NoError, NoWrite, ApplyAll, Quiet;
    TurnThen(s, t);
    var r := Bare(s, t);
    if r.fired != s.fired {
      if r.status.Ok() {
        BareFires(s, t);
        FiredIsQuiet(r);
        QuietRun(r, t.script);
      } else {
        FailedRun(r, t.script);
      }
    }
  }

  lemma QuietRun(s: State, script: seq<UserCall>)
    requires Quiet(s) && NoError(script)
    ensures ApplyAll(s, script) == s
  {
    hide NoError, ApplyAll;
    EndedQuietly(s, script);
  }

  lemma BareFires(s: State, t: Turn)
    requires Inv(s) && MessageObeys(s, t) && Bare(s, t).fired != s.fired && Bare(s, t).status.Ok()
    ensures Bare(s, t).fired != []
  {
    hide Inv, Next, CallsBack, BreaksAny, AssertsAll, ApplyAll, AfterShown, AfterMessage, Then, Call.After;
    if ShowsIn(s, t.event) {
      InPending(s, t.event.id, t.event.outcome);
      MessageCallbackIff(s, t.event.id, t.event.outcome, t.message);
      AfterMessageThen(ApplyAll(Shown(s, t.event.id, t.event.outcome), t.message), t.event.outcome.verdict, t.script);
    } else {
      FiredOrNot(s, t.event);
    }
  }

  /** The status callback's calls come to the same calls made as steps of their own, right after the
      step that made the callback. */
  lemma StatusCallbacksAreLaterCalls(s: State, t: Turn)
    requires Inv(s) && Obeys(s, t)
    ensures var r := Bare(s, t); Turned(s, t) == Exec(r, if r.fired == s.fired then [] else Steps(t.script))
    ensures Inv(Turned(s, t))
  {
    hide Inv, Turned, Bare, MessageObeys, NoError, NoWrite, ApplyAll;
    TurnThen(s, t);
    CallsAreSteps(Bare(s, t), t.script);
  }

  lemma ShowNothing(s: State, id: nat, o: Outcome)
    requires Inv(s) && CallsBack(s, id, o)
    ensures var after := AfterShown(Shown(s, id, o), o.verdict);
            id in after.call.held && ReaderWriterModel.Deliver(s, id, o) == after.(call := after.call.Delete(id))
  {
    CompletionAsserts(s, id);
    hide Inv, Call.After, State.OnRead, AfterShown;
    var taken := s.(call := s.call.Take(id));
    OnReadShows(taken, o);
    assert taken.DoComplete(s.call.pending[id], o) == AfterShown(Shown(s, id, o), o.verdict);
  }

  lemma OnReadShows(s: State, o: Outcome)
    requires s.status.Ok() && s.Shows(o)
    ensures s.OnRead(o) == AfterShown(s.(readId := None, delivered := s.delivered + [o.received.msg]), o.verdict)
  {
    hide State.SameBooks, Call.After, State.ReadNext, State.EndOnErrorStatus;
  }

  lemma NoBreak(s: State)
    requires s.writing.closeSent ==> s.writing.closing
    ensures ApplyAll(s, []) == s && !BreaksAny(s, [])
  {
  }

  /** Without calls from the message callback the step is the ordinary one. */
  lemma EmptyScript(s: State, t: Turn)
    requires Inv(s) && t.message == []
    ensures MessageObeys(s, t) && Bare(s, t) == Next(s, t.event)
  {
    hide Inv, Shown, Next, ReaderWriterModel.Deliver, AfterShown, ApplyAll, Call.After, Call.Delete, CallsBack;
    if ShowsIn(s, t.event) {
      var id, o := t.event.id, t.event.outcome;
      InPending(s, id, o);
      MessageCallbackIff(s, id, o, []);
      ShowNothing(s, id, o);
      NoBreak(Shown(s, id, o));
      NextDelivers(s, id, o);
    }
  }

  lemma InPending(s: State, id: nat, o: Outcome)
    requires CallsBack(s, id, o)
    ensures id in s.call.pending && o.received.Message?
  {
  }

  // ----- Callbacks that a callback's own calls would make -----

  /** A call whose own status callback, if it makes one, makes the calls in nested. */
  function ApplyWith(s: State, c: UserCall, nested: seq<UserCall>): (r: State)
    requires s.writing.closeSent ==> s.writing.closing
    ensures r.call.After(s.call)
  {
    match c
    case CallWrite(msg) => Write(s, msg, nested)
    case CallCloseWriting => CloseWriting(s, nested)
    case CallReadEach(cb) => ReadEach(s, cb, nested)
    case CallSetErrorStatus(error) => if error.Ok() then s else SetErrorStatus(s, error, nested)
  }

  /** Each of the calls does what it does when the callbacks that it makes, numbered from the last call
      of the script, call nothing. */
  ghost predicate Undisturbed(s: State, script: seq<UserCall>, nested: nat -> seq<UserCall>)
    requires s.writing.closeSent ==> s.writing.closing
    decreases |script|
  {
    script == [] ||
    (ApplyWith(s, script[0], nested(|script|)) == Apply(s, script[0]) &&
     (ClosingStays(s, script[0]); Undisturbed(Apply(s, script[0]), script[1..], nested)))
  }

  lemma NestedCall(s: State, c: UserCall, nested: seq<UserCall>)
    requires (s.writing.closeSent ==> s.writing.closing) && Apply(s, c).fired == s.fired
    ensures ApplyWith(s, c, nested) == Apply(s, c)
  {
    hide Write, CloseWriting, ReadEach, SetErrorStatus, State.Write, State.CloseWriting, State.ReadEach, State.SetErrorStatus, ApplyAll;
    match c
    case CallWrite(msg) => WriteThen(s, msg, nested);
    case CallCloseWriting => CloseWritingThen(s, nested);
    case CallReadEach(cb) => ReadEachThen(s, cb, nested);
    case CallSetErrorStatus(error) => if !error.Ok() { SetErrorThen(s, error, nested); }
  }

  /** The calls that the conditions allow make no callback, so whatever such a callback would call
      never comes into play: from the message callback ... */
  lemma {:induction false} NestedInMessage(s: State, script: seq<UserCall>, nested: nat -> seq<UserCall>)
    requires Steady(s) && s.status.Ok()
    ensures s.writing.closeSent ==> s.writing.closing
    ensures !BreaksAny(s, script) ==> Undisturbed(s, script, nested)
    decreases |script|
  {
    hide Steady, Mid, Apply, ApplyWith, Breaks;
    SteadyStep(s, CallReadEach(None));
    if script != [] && !BreaksAny(s, script) {
      SteadyStep(s, script[0]);
      MidOrDead(s);
      MidOrDead(Apply(s, script[0]));
      NestedCall(s, script[0], nested(|script|));
      NestedInMessage(Apply(s, script[0]), script[1..], nested);
    }
  }

  /** ... from a status callback that reports an error ... */
  lemma {:induction false} NestedInError(s: State, script: seq<UserCall>, nested: nat -> seq<UserCall>)
    requires !s.status.Ok() && (s.writing.closeSent ==> s.writing.closing)
    ensures Undisturbed(s, script, nested)
    decreases |script|
  {
    hide Apply, ApplyWith;
    if script != [] {
      FailedStep(s, script[0]);
      ClosingStays(s, script[0]);
      NestedCall(s, script[0], nested(|script|));
      NestedInError(Apply(s, script[0]), script[1..], nested);
    }
  }

  /** ... and from one that reports a normal end. */
  lemma {:induction false} NestedInNormalEnd(s: State, script: seq<UserCall>, nested: nat -> seq<UserCall>)
    requires EndsNormally(s) && NoError(script)
    ensures Undisturbed(s, script, nested)
    decreases |script|
  {
    hide ApplyWith, State.SameBooks, Call.After;
    if script != [] {
      assert !Reports(script[0]);
      assert Apply(s, script[0]) == s;
      NestedCall(s, script[0], nested(|script|));
      NestedInNormalEnd(s, script[1..], nested);
    }
  }

  // ----- Runs -----

  predicate ObeysAll(s: State, turns: seq<Turn>)
    requires Inv(s)
    decreases |turns|
  {
    turns == [] || (Obeys(s, turns[0]) && (StatusCallbacksAreLaterCalls(s, turns[0]); ObeysAll(Turned(s, turns[0]), turns[1..])))
  }

  function TurnedAll(s: State, turns: seq<Turn>): (r: State)
    requires Inv(s) && ObeysAll(s, turns)
    ensures Inv(r)
    decreases |turns|
  {
    if turns == [] then s
    else
      StatusCallbacksAreLaterCalls(s, turns[0]);
      TurnedAll(Turned(s, turns[0]), turns[1..])
  }

  /** The steps of a run in which status callbacks call back, as steps of the ordinary run. */
  function Flat(s: State, turns: seq<Turn>): seq<Event>
    requires Inv(s) && ObeysAll(s, turns)
    decreases |turns|
  {
    if turns == [] then []
    else
      StatusCallbacksAreLaterCalls(s, turns[0]);
      [turns[0].event] + (if Bare(s, turns[0]).fired == s.fired then [] else Steps(turns[0].script))
        + Flat(Turned(s, turns[0]), turns[1..])
  }

  lemma {:induction false} ExecJoin(s: State, es: seq<Event>, more: seq<Event>)
    requires Inv(s)
    ensures Exec(s, es + more) == Exec(Exec(s, es), more)
    decreases |es|
  {
    hide Inv, Next;
    if es == [] {
      assert es + more == more;
    } else {
      NextInv(s, es[0]);
      assert (es + more)[0] == es[0] && (es + more)[1..] == es[1..] + more;
      ExecJoin(Next(s, es[0]), es[1..], more);
    }
  }

  /** A run in which the status callbacks call back, and the message callbacks do not, is an ordinary
      run: everything proved of those holds of it. */
  lemma {:induction false} StatusCallbackRun(s: State, turns: seq<Turn>)
    requires Inv(s) && ObeysAll(s, turns) && forall i :: 0 <= i < |turns| ==> turns[i].message == []
    ensures TurnedAll(s, turns) == Exec(s, Flat(s, turns))
    decreases |turns|
  {
    hide Inv, Turned, Bare, MessageObeys, NoError, NoWrite, Next, ApplyAll, Steps;
    if turns != [] {
      var t := turns[0];
      StatusCallbacksAreLaterCalls(s, t);
      EmptyScript(s, t);
      NextInv(s, t.event);
      var late := if Bare(s, t).fired == s.fired then [] else Steps(t.script);
      StatusCallbackRun(Turned(s, t), turns[1..]);
      var rest := Flat(Turned(s, t), turns[1..]);
      ExecJoin(Next(s, t.event), late, rest);
      assert Flat(s, turns)[0] == t.event && Flat(s, turns)[1..] == late + rest;
    }
  }

  /** The wire and the tags of every run in which callbacks call back and obey the conditions are as
      in the runs in which they do not. */
  lemma ReentrantRun(fate: nat -> bool, statusCb: Option<nat>, turns: seq<Turn>)
    requires Inv(Init(fate, statusCb)) && ObeysAll(Init(fate, statusCb), turns)
    ensures var s := TurnedAll(Init(fate, statusCb), turns);
            && |SendTags(s)| <= 1 && |ReadTags(s)| <= 1
            && (forall id :: id in SendTags(s) ==> s.queue != [] && s.call.pending[id] == SendMsgTag(s.queue[0]))
            && (if s.status.Ok()
                then (s.queue != [] <==> |SendTags(s)| == 1) && (s.reading.started && !s.reading.ended <==> |ReadTags(s)| == 1)
                else s.reading.ended && s.writing.ended && s.statusCb.None?)
            && Legal(s.call.wire) && MessagesOn(s.call.wire) <= s.pushed
            && ([SendClose] in s.call.wire && s.status.Ok() ==> MessagesOn(s.call.wire) == s.pushed)
  {
    var s := TurnedAll(Init(fate, statusCb), turns);
    hide TurnedAll, ObeysAll, Legal, MessagesOn;
    OutstandingTags(s);
    hide TagsOk;
  }

  predicate ClosedLateIn(s: State, turns: seq<Turn>)
    requires Inv(s) && ObeysAll(s, turns)
    decreases |turns|
  {
    turns != [] &&
    (ClosesLate(s, turns[0].event) ||
     (StatusCallbacksAreLaterCalls(s, turns[0]); ClosedLateIn(Turned(s, turns[0]), turns[1..])))
  }

  lemma AfterShownFrame(s: State, verdict: Status)
    requires s.status.Ok()
    ensures var r := AfterShown(s, verdict);
            r.given == s.given && (r.status.Ok() ==> r.reading == s.reading)
  {
    hide State.SameBooks, Call.After;
  }

  lemma ReadingIsUnfired(s: State, id: nat, o: Outcome)
    requires Inv(s) && CallsBack(s, id, o)
    ensures s.fired == [] && !s.reading.ended
  {
    CompletionAsserts(s, id);
    hide TagsOk, WireOk;
  }

  lemma MidReads(s: State)
    requires Mid(s)
    ensures s.reading == Reading(true, false)
  {
    hide Live;
  }

  lemma StuckReads(s: State, t: Turn)
    requires Inv(s) && s.given.Some? && ShowsIn(s, t.event) && MessageObeys(s, t)
    ensures StuckAs(s, Bare(s, t), false)
  {
    hide Inv, Mid, Dead, ApplyAll, AfterShown, BreaksAny, AssertsAll, Call.After;
    var id, o := t.event.id, t.event.outcome;
    MessageCallbackIff(s, id, o, t.message);
    ReadingIsUnfired(s, id, o);
    ShownIsMid(s, id, o);
    var shown := Shown(s, id, o);
    SteadyRun(shown, t.message);
    var r := ApplyAll(shown, t.message);
    MidOrDead(r);
    MidReads(r);
    AfterShownFrame(r, o.verdict);
  }

  lemma StuckBare(s: State, t: Turn)
    requires Inv(s) && s.given.Some? && MessageObeys(s, t)
    ensures StuckAs(s, Bare(s, t), ClosesLate(s, t.event))
  {
    hide Inv, MessageObeys, Next, StuckAs, CallsBack;
    if ShowsIn(s, t.event) { StuckReads(s, t); hide Bare; } else { StuckStep(s, t.event); }
  }

  lemma StuckTurn(s: State, t: Turn)
    requires Inv(s) && s.given.Some? && Obeys(s, t)
    ensures StuckAs(s, Turned(s, t), ClosesLate(s, t.event))
  {
    StuckBare(s, t);
    NoFurtherCallback(s, t);
    hide Inv, Bare, Turned, MessageObeys, Obeys;
  }

  lemma {:induction false} StuckTurns(s: State, turns: seq<Turn>)
    requires Inv(s) && s.given.Some? && ObeysAll(s, turns)
    ensures StuckAs(s, TurnedAll(s, turns), ClosedLateIn(s, turns))
    decreases |turns|
  {
    hide Inv, Turned, Bare, MessageObeys, NoError, NoWrite, Stuck, ClosesLate;
    if turns != [] {
      StatusCallbacksAreLaterCalls(s, turns[0]);
      StuckTurn(s, turns[0]);
      StuckTurns(Turned(s, turns[0]), turns[1..]);
    }
  }

  /** The terminal callback in these runs: as when no callback calls back. */
  lemma ReentrantTerminalCallback(fate: nat -> bool, cb: nat, turns: seq<Turn>)
    requires Inv(Init(fate, Some(cb))) && ObeysAll(Init(fate, Some(cb)), turns)
    ensures var s0 := Init(fate, Some(cb)); var s := TurnedAll(s0, turns);
            && |s.fired| <= 1
            && (s.fired != [] ==> s.fired[0].cb == cb)
            && (s.reading.started && s.writing.closing && SendTags(s) == {} && ReadTags(s) == {} ==>
                  (|s.fired| == 1 <==> !(s.status.Ok() && ClosedLateIn(s0, turns))))
  {
    StuckTurns(Init(fate, Some(cb)), turns);
    hide WireOk, TurnedAll, ObeysAll, ClosedLateIn;
    OutstandingTags(TurnedAll(Init(fate, Some(cb)), turns));
  }
}
