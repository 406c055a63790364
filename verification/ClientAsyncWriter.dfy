/** The client-streaming writer in the form of its source: an object whose methods update its
    fields, each method being one lock-held step (src/client/impl/client_async_writer_impl.cc). */
module ClientAsyncWriter {
  import opened Grpc
  import opened ClientWriterModel

  class ClientAsyncWriterImpl {
    const call: GrpcCall
    var status: Status
    var hasSentClose: bool
    var closeCb: Option<CloseCb>
    var isClosing: bool
    var msgQueue: seq<string>  // the front message is being sent

    // History.
    ghost var lane: Option<nat>
    ghost var begun: bool
    ghost var pushed: seq<string>
    ghost var handed: seq<string>
    ghost var done: seq<string>
    ghost var lost: seq<string>
    ghost var halfClosed: bool
    ghost var given: Option<CloseCb>
    ghost var fired: seq<Fired>

    ghost function Snapshot(): State
      reads this, call
    {
      State(status, Gate(isClosing, hasSentClose, halfClosed), closeCb, msgQueue, call.state,
            lane, begun, pushed, handed, done, lost, given, fired)
    }

    ghost predicate Valid()
      reads this, call
    {
      Inv(Snapshot())
    }

    constructor (call: GrpcCall)
      requires call.state == NewCall(call.state.fate)
      modifies call
      ensures this.call == call && Valid() && Snapshot() == Init(old(call.state.fate))
    {
      this.call := call;
      hasSentClose, closeCb, isClosing, msgQueue := false, None, false, [];
      lane, pushed, handed, done, lost, halfClosed, given, fired := None, [], [], [], [], false, None, [];
      status := OK;
      begun := call.state.WillStart();
      new;
      LaunchIsNewStartDelete(call.state, SendInitMdTag, [SendInitMd]);
      InitInv(call.state.fate);
      var tag := call.NewTag();
      var ok := call.StartBatch(tag, SendInitMdTag, [SendInitMd]);
      if ok { return; }
      call.Delete(tag);
      status := InternalError(FailedToInitClientStreaming);
      assert !isClosing;
    }

    method Write(request: string) returns (ok: bool)
      requires call.state.Accounted()
      modifies this, call
      ensures ok == old(Snapshot().WriteResult())
      ensures Snapshot() == old(Snapshot()).Write(request)
      ensures old(Valid()) ==> Valid()
      decreases if isClosing then 0 else 4
    {
      ghost var before := Snapshot();
      if Inv(before) { WriteInv(before, request); }
      if !status.Ok() { return false; }
      if isClosing { return false; }
      var isSending := msgQueue != [];
      msgQueue := msgQueue + [request];
      pushed := pushed + [request];
      if isSending { return true; }
      ok := SendNext();
    }

    method Close(cb: Option<CloseCb>)
      requires call.state.Accounted() && (hasSentClose ==> isClosing)
      modifies this, call
      ensures Snapshot() == old(Snapshot()).Close(cb)
      ensures old(Valid()) ==> Valid()
      decreases if isClosing then 0 else 4
    {
      ghost var before := Snapshot();
      if Inv(before) { CloseInv(before, cb); }
      if isClosing { return; }
      isClosing := true;
      closeCb := cb;
      given := cb;
      if !status.Ok() {
        CallCloseCb("");
        return;
      }
      if msgQueue == [] {
        SendClose();
      }
    }

    method OnSent(success: bool)
      requires call.state.Accounted() && msgQueue != [] && (hasSentClose ==> !status.Ok())
      requires !status.Ok() ==> closeCb.None?
      modifies this, call
      ensures Snapshot() == old(Snapshot()).OnSent(success)
    {
      hide State.SendNext, State.SendCloseBatch, State.SameBooks;
      lane := None;
      if success { done := done + [msgQueue[0]]; } else { lost := lost + [msgQueue[0]]; }
      msgQueue := msgQueue[1..];
      if !status.Ok() {
        assert closeCb.None?;
        return;
      }
      if !success {
        status := InternalError(FailedToSendMessage);
        TryToCallCloseCb();
        return;
      }
      if msgQueue != [] {
        var _ := SendNext();
        return;
      }
      if isClosing {
        SendClose();
      }
    }

    method SendClose()
      requires call.state.Accounted() && isClosing && !hasSentClose && status.Ok()
      modifies this, call
      ensures Snapshot() == old(Snapshot()).SendCloseBatch()
      decreases 3
    {
      hide State.SameBooks;
      hasSentClose := true;
      LaunchIsNewStartDelete(call.state, WriterCloseTag, CLOSE_BATCH);
      var tag := call.NewTag();
      var ok := call.StartBatch(tag, WriterCloseTag, CLOSE_BATCH);
      if ok {
        lane := Some(tag);
        halfClosed := true;
        return;
      }
      call.Delete(tag);
      status := InternalError(FailedToCloseClientStreaming);
      CallCloseCb("");
    }

    method TryToCallCloseCb()
      requires call.state.Accounted() && !status.Ok()
      modifies this, call
      ensures Snapshot() == if isClosing then old(Snapshot()).FireCb("") else old(Snapshot())
      decreases 2
    {
      if isClosing {
        CallCloseCb("");
      }
    }

    /** The callback runs under the recursive lock and may call back into this object. */
    method CallCloseCb(msg: string)
      requires call.state.Accounted() && isClosing
      modifies this, call
      ensures Snapshot() == old(Snapshot()).FireCb(msg)
      decreases 1
    {
      if closeCb.None? { return; }
      var cb := closeCb.value;
      fired := fired + [Fired(cb, status, msg)];
      ghost var during := Snapshot();
      for i := 0 to |cb.script|
        invariant Snapshot() == during
      {
        ReentryIsHarmless(during, [cb.script[i]]);
        match cb.script[i] {
          case CallWrite(m) => var _ := Write(m);
          case CallClose(c) => Close(c);
        }
      }
      closeCb := None;
    }

    method OnClosed(o: Outcome)
      requires call.state.Accounted() && isClosing
      requires !status.Ok() ==> closeCb.None?
      requires Possible(WriterCloseTag, o)
      modifies this, call
      ensures Snapshot() == old(Snapshot()).OnClosed(o)
    {
      lane := None;
      if !status.Ok() {
        assert closeCb.None?;
        return;
      }
      if !o.status.Ok() {
        status := o.status;
        CallCloseCb("");
        return;
      }
      assert !o.received.EndOfStream?;  // GetResultMsg asserts that a buffer was received
      status := ResultStatus(o.received);
      CallCloseCb(if o.received.Message? then o.received.msg else "");
    }

    method SendNext() returns (ok: bool)
      requires call.state.Accounted() && msgQueue != [] && status.Ok()
      modifies this, call
      ensures ok == old(call.state.WillStart())
      ensures Snapshot() == old(Snapshot()).SendNext()
      decreases 3
    {
      LaunchIsNewStartDelete(call.state, SendMsgTag(msgQueue[0]), [SendMsg(msgQueue[0])]);
      var tag := call.NewTag();
      ok := call.StartBatch(tag, SendMsgTag(msgQueue[0]), [SendMsg(msgQueue[0])]);
      if ok {
        lane := Some(tag);
        handed := handed + [msgQueue[0]];
        return;
      }
      call.Delete(tag);
      status := InternalError(FailedToWriteClientStreaming);
      TryToCallCloseCb();
    }

    /** GeneralCallCqTag::DoComplete runs the callback set on the tag; other tags have none. */
    method DoComplete(tag: Tag, o: Outcome)
      requires call.state.Accounted() && Possible(tag, o)
      requires tag.SendMsgTag? ==> msgQueue != [] && status.Ok() && !hasSentClose
      requires tag.WriterCloseTag? ==> isClosing && status.Ok()
      modifies this, call
      ensures Snapshot() == old(Snapshot()).DoComplete(tag, o)
    {
      hide State.OnSent, State.OnClosed;
      match tag {
        case SendMsgTag(_) => OnSent(o.success);
        case WriterCloseTag => OnClosed(o);
        case _ =>
      }
    }

    /** A completion of one of this object's tags, as the completion loop runs it.  None of the
        source's assertions can fail in a valid state. */
    method Complete(id: nat, o: Outcome)
      requires Valid() && id in call.state.pending && Possible(call.state.pending[id], o)
      modifies this, call
      ensures Valid() && Snapshot() == Deliver(old(Snapshot()), id, o)
    {
      hide Inv, State.DoComplete;
      DeliverInv(Snapshot(), id, o);
      CompletionAsserts(Snapshot(), id);
      var tag := call.state.pending[id];
      call.Take(id);
      DoComplete(tag, o);
      call.Delete(id);
    }
  }

  /** The object that the public class shares: its destructor closes the writer. */
  class ClientAsyncWriterImplWrapper {
    const impl: ClientAsyncWriterImpl

    constructor (impl: ClientAsyncWriterImpl)
      ensures this.impl == impl
    {
      this.impl := impl;
    }

    method Write(request: string) returns (ok: bool)
      requires impl.Valid()
      modifies impl, impl.call
      ensures impl.Valid() && ok == old(impl.Snapshot().WriteResult())
      ensures impl.Snapshot() == old(impl.Snapshot()).Write(request)
    {
      ok := impl.Write(request);
    }

    method Close(cb: Option<CloseCb>)
      requires impl.Valid()
      modifies impl, impl.call
      ensures impl.Valid() && impl.Snapshot() == old(impl.Snapshot()).Close(cb)
    {
      impl.Close(cb);
    }

    /** Nothing is accepted any more, and what was accepted is still being sent. */
    method Destroy()
      requires impl.Valid()
      modifies impl, impl.call
      ensures impl.Valid() && impl.isClosing && impl.pushed == old(impl.pushed)
      ensures impl.Snapshot() == old(impl.Snapshot()).Close(None)
      ensures impl.status.Ok() ==> impl.msgQueue == old(impl.msgQueue) && (impl.lane.Some? || impl.hasSentClose)
    {
      impl.Close(None);
    }
  }
}
