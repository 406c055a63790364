/** The bidirectional client stream in the form of its source
    (src/client/impl/client_async_reader_writer_impl.cc).  Every assert statement below is one of
    the source's assertions. */
module ClientAsyncReaderWriter {
  import opened Grpc
  import opened ReaderWriterModel

  class ClientAsyncReaderWriterImpl {
    const call: GrpcCall
    var status: Status
    var msgCb: Option<nat>
    var statusCb: Option<nat>
    var inited: bool
    var readingStarted: bool
    var writingClosing: bool
    var readingEnded: bool
    var writingEnded: bool
    var msgQueue: seq<string>
    var hasSentClose: bool

    // History.
    ghost var sendId: Option<nat>
    ghost var readId: Option<nat>
    ghost var given: Option<nat>
    ghost var fired: seq<Fired>
    ghost var pushed: seq<string>
    ghost var handed: seq<string>
    ghost var delivered: seq<string>

    ghost function Snapshot(): State
      reads this, call
    {
      State(status, msgCb, statusCb, inited, Reading(readingStarted, readingEnded),
            Writing(writingClosing, hasSentClose, writingEnded), msgQueue, call.state,
            sendId, readId, given, fired, pushed, handed, delivered)
    }

    ghost predicate Valid()
      reads this, call
    {
      Inv(Snapshot())
    }

    constructor (call: GrpcCall, statusCb: Option<nat>)
      requires call.state == NewCall(call.state.fate)
      ensures this.call == call && Valid() && Snapshot() == Init(call.state.fate, statusCb)
    {
      this.call := call;
      this.statusCb := statusCb;
      status, msgCb, inited, msgQueue, hasSentClose := OK, None, false, [], false;
      readingStarted, writingClosing, readingEnded, writingEnded := false, false, false, false;
      sendId, readId, given, fired, pushed, handed, delivered := None, None, statusCb, [], [], [], [];
      new;
      InitInv(call.state.fate, statusCb);
    }

    method Write(msg: string) returns (ok: bool)
      requires Valid()
      modifies this, call
      ensures ok == old(Snapshot().WriteResult())
      ensures Valid() && Snapshot() == old(Snapshot()).Write(msg)
    {
      hide Core;
      NextInv(Snapshot(), EvWrite(msg));
      InitAsserts(Snapshot());
      InitIfNot();
      if !status.Ok() {
        assert readingEnded && writingEnded;
        return false;
      }
      if writingClosing || writingEnded { return false; }
      var isSending := msgQueue != [];
      msgQueue := msgQueue + [msg];
      pushed := pushed + [msg];
      if isSending { return true; }
      ok := SendNext();
    }

    method CloseWriting()
      requires Valid()
      modifies this, call
      ensures old(hasSentClose) ==> old(writingClosing)
      ensures Valid() && Snapshot() == old(Snapshot()).CloseWriting()
    {
      hide Core;
      NextInv(Snapshot(), EvCloseWriting);
      CloseWritingAsserts(Snapshot());
      if writingClosing { return; }
      writingClosing := true;
      if !status.Ok() { return; }
      if msgQueue != [] { return; }  // sending
      assert !hasSentClose;
      SendClose();
      assert writingEnded;
    }

    method ReadEach(cb: Option<nat>)
      requires Valid()
      modifies this, call
      ensures Valid() && Snapshot() == old(Snapshot()).ReadEach(cb)
    {
      hide Core;
      NextInv(Snapshot(), EvReadEach(cb));
      InitAsserts(Snapshot());
      if readingStarted { return; }
      readingStarted := true;
      InitIfNot();
      if !status.Ok() { return; }
      msgCb := cb;
      ReadNext();
    }

    method SetErrorStatus(error: Status)
      requires Valid() && !error.Ok()
      modifies this
      ensures Valid() && Snapshot() == old(Snapshot()).SetErrorStatus(error)
    {
      hide Core;
      NextInv(Snapshot(), EvSetErrorStatus(error));
      if status.Ok() {
        EndOnErrorStatus(error);
        return;
      }
      status := error;
    }

    method OnSent(success: bool)
      requires call.state.Accounted() && msgQueue != []
      requires if status.Ok() then !hasSentClose else statusCb.None?
      modifies this, call
      ensures Snapshot() == old(Snapshot()).OnSent(success)
    {
      sendId := None;
      msgQueue := msgQueue[1..];
      if !status.Ok() {
        assert statusCb.None?;
        return;
      }
      if !success {
        SetInternalError(FailedToSendMessage);
        return;
      }
      if msgQueue != [] {
        var _ := SendNext();
        return;
      }
      if !writingClosing { return; }
      SendClose();
      assert writingEnded;
      if readingEnded {
        CallStatusCb();  // both ended
      }
    }

    method OnRead(o: Outcome)
      requires call.state.Accounted() && readingStarted
      requires !status.Ok() ==> statusCb.None?
      modifies this, call
      ensures Snapshot() == old(Snapshot()).OnRead(o)
    {
      readId := None;
      if !status.Ok() {
        assert statusCb.None?;
        return;
      }
      if !o.success {
        SetInternalError(ClientReaderReadCqTagFailed);
        return;
      }
      if o.received.EndOfStream? {
        readingEnded := true;
        if writingEnded { CallStatusCb(); }
        return;
      }
      var result := ResultStatus(o.received);
      if !result.Ok() {
        EndOnErrorStatus(result);
        return;
      }
      if msgCb.Some? {
        delivered := delivered + [o.received.msg];
        if !o.verdict.Ok() {
          EndOnErrorStatus(o.verdict);
          return;
        }
      }
      ReadNext();
    }

    method InitIfNot()
      requires call.state.Accounted()
      modifies this, call
      ensures Snapshot() == old(Snapshot()).InitIfNot() && call.state.Accounted()
    {
      if inited { return; }
      inited := true;
      if !status.Ok() { return; }
      LaunchIsNewStartDelete(call.state, SendInitMdTag, [SendInitMd]);
      var sendTag := call.NewTag();
      var ok := call.StartBatch(sendTag, SendInitMdTag, [SendInitMd]);
      if !ok {
        call.Delete(sendTag);
        SetInternalError(FailedToSendInitMdBidi);
        return;
      }
      LaunchIsNewStartDelete(call.state, RecvInitMdTag, [RecvInitMd]);
      var recvTag := call.NewTag();
      ok := call.StartBatch(recvTag, RecvInitMdTag, [RecvInitMd]);
      if !ok {
        call.Delete(recvTag);
        SetInternalError(FailedToRecvInitMdBidi);
        return;
      }
    }

    method SendNext() returns (ok: bool)
      requires call.state.Accounted() && msgQueue != [] && status.Ok()
      modifies this, call
      ensures ok == old(call.state.WillStart())
      ensures Snapshot() == old(Snapshot()).SendNext()
    {
      LaunchIsNewStartDelete(call.state, SendMsgTag(msgQueue[0]), [SendMsg(msgQueue[0])]);
      var tag := call.NewTag();
      ok := call.StartBatch(tag, SendMsgTag(msgQueue[0]), [SendMsg(msgQueue[0])]);
      if ok {
        sendId := Some(tag);
        handed := handed + [msgQueue[0]];
        return;
      }
      call.Delete(tag);
      SetInternalError(FailedToWriteBidi);
    }

    method ReadNext()
      requires call.state.Accounted() && status.Ok()
      modifies this, call
      ensures Snapshot() == old(Snapshot()).ReadNext()
    {
      LaunchIsNewStartDelete(call.state, ReadTag, [RecvMsg]);
      var tag := call.NewTag();
      var ok := call.StartBatch(tag, ReadTag, [RecvMsg]);
      if ok {
        readId := Some(tag);
        return;
      }
      call.Delete(tag);
      SetInternalError(FailedToReadBidi);
    }

    method SendClose()
      requires call.state.Accounted() && writingClosing && !hasSentClose && status.Ok()
      modifies this, call
      ensures Snapshot() == old(Snapshot()).SendCloseBatch() && writingEnded
    {
      hasSentClose := true;
      writingEnded := true;
      LaunchIsNewStartDelete(call.state, SendCloseTag, [Op.SendClose]);
      var tag := call.NewTag();
      var ok := call.StartBatch(tag, SendCloseTag, [Op.SendClose]);
      if ok { return; }
      call.Delete(tag);
      SetInternalError(FailedToCloseWriting);
    }

    method SetInternalError(cause: Cause)
      requires status.Ok()
      modifies this
      ensures Snapshot() == old(Snapshot()).EndOnErrorStatus(InternalError(cause))
    {
      EndOnErrorStatus(InternalError(cause));
    }

    method EndOnErrorStatus(error: Status)
      requires !error.Ok() && status.Ok()
      modifies this
      ensures Snapshot() == old(Snapshot()).EndOnErrorStatus(error)
    {
      status := error;
      CallStatusCb();
      readingEnded := true;
      writingEnded := true;
    }

    method CallStatusCb()
      modifies this`fired, this`statusCb
      ensures Snapshot() == old(Snapshot()).CallStatusCb()
    {
      if statusCb.None? { return; }
      fired := fired + [Fired(statusCb.value, status)];
      statusCb := None;
    }

    /** GeneralCallCqTag::DoComplete runs the callback set on the tag; other tags have none. */
    method DoComplete(tag: Tag, o: Outcome)
      requires call.state.Accounted()
      requires tag.SendMsgTag? ==> msgQueue != [] && (status.Ok() ==> !hasSentClose)
      requires tag.ReadTag? ==> readingStarted
      requires !status.Ok() ==> statusCb.None?
      modifies this, call
      ensures Snapshot() == old(Snapshot()).DoComplete(tag, o)
    {
      hide State.OnSent, State.OnRead;
      match tag {
        case SendMsgTag(_) => OnSent(o.success);
        case ReadTag => OnRead(o);
        case _ =>
      }
    }

    /** A completion of one of this object's tags, as the completion loop runs it. */
    method Complete(id: nat, o: Outcome)
      requires Valid() && id in call.state.pending
      modifies this, call
      ensures Valid() && Snapshot() == Deliver(old(Snapshot()), id, o)
    {
      hide Core, State.DoComplete;
      DeliverInv(Snapshot(), id, o);
      CompletionAsserts(Snapshot(), id);
      var tag := call.state.pending[id];
      call.Take(id);
      DoComplete(tag, o);
      call.Delete(id);
    }

    /** The destructor runs once no send or read tag shares the object and its wrapper has closed
        writing.  It asserts that both halves have ended: writing always has, reading exactly when
        the stream was read or failed. */
    method Destroy() returns (readingAssertHolds: bool)
      requires Valid() && writingClosing && sendId.None? && readId.None?
      ensures readingAssertHolds <==> readingStarted || !status.Ok()
    {
      hide TagsOk, WireOk;
      readingAssertHolds := readingEnded;
      assert writingEnded;
    }
  }

  lemma InitAsserts(s: State)
    requires Inv(s)
    ensures s.call.Accounted()
    ensures var r := s.InitIfNot(); !r.status.Ok() ==> r.reading.ended && r.writing.ended
  {
    hide TagsOk, WireOk, State.SameBooks;
    assert s.call.Accounted() by { AccountedCore(s); }
  }

  lemma AccountedCore(s: State)
    requires Core(s)
    ensures s.call.Accounted()
  {
    hide WireOk;
  }

  lemma CloseWritingAsserts(s: State)
    requires Inv(s)
    ensures s.call.Accounted()
    ensures s.writing.closeSent ==> s.writing.closing
  {
    AccountedCore(s);
    CloseWritingCore(s);
  }

  /** The object that the public class shares: its destructor closes writing. */
  class ClientAsyncReaderWriterImplWrapper {
    const impl: ClientAsyncReaderWriterImpl

    constructor (impl: ClientAsyncReaderWriterImpl)
      ensures this.impl == impl
    {
      this.impl := impl;
    }

    /** Nothing is accepted any more; what was accepted is still being sent, or all of it has been
        and writing has ended. */
    method Destroy()
      requires impl.Valid()
      modifies impl, impl.call
      ensures old(impl.hasSentClose) ==> old(impl.writingClosing)
      ensures impl.Valid() && impl.Snapshot() == old(impl.Snapshot()).CloseWriting()
      ensures impl.writingClosing && impl.pushed == old(impl.pushed)
      ensures impl.sendId.None? ==> impl.writingEnded
    {
      hide TagsOk, WireOk;
      impl.CloseWriting();
    }
  }
}
