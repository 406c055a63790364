/** The client's asynchronous reader in the form of its source
    (src/client/impl/client_async_reader_impl.cc and the receive-status tag). */
module ClientAsyncReader {
  import opened Grpc
  import opened ClientReaderModel

  class ClientAsyncReaderImpl {
    const call: GrpcCall
    const request: string
    var status: Status
    var msgCb: Option<nat>
    var statusCb: Option<nat>
    var isStarted: bool

    // History.
    ghost var readId: Option<nat>
    ghost var recvId: Option<nat>
    ghost var given: Option<nat>
    ghost var trace: seq<Note>
    ghost var arrived: seq<string>
    ghost var final: Option<Status>

    ghost function Snapshot(): State
      reads this, call
    {
      State(request, status, isStarted, msgCb, statusCb, call.state, readId, recvId, given, trace, arrived, final)
    }

    ghost predicate Valid()
      reads this, call
    {
      Inv(Snapshot())
    }

    constructor (call: GrpcCall, request: string)
      requires call.state == NewCall(call.state.fate)
      ensures this.call == call && Valid() && Snapshot() == ClientReaderModel.Init(call.state.fate, request)
    {
      this.call := call;
      this.request := request;
      status, msgCb, statusCb, isStarted := OK, None, None, false;
      readId, recvId, given, trace, arrived, final := None, None, None, [], [], None;
      new;
      InitInv(call.state.fate, request);
    }

    method Start(msgCb: Option<nat>, statusCb: Option<nat>)
      requires Valid() || (isStarted && call.state.Accounted())
      modifies this, call
      ensures !old(isStarted) ==> old(status).Ok()
      ensures Snapshot() == old(Snapshot()).Start(msgCb, statusCb)
      ensures old(Valid()) ==> Valid()
      decreases if isStarted then 0 else 4
    {
      hide Core;
      ghost var before := Snapshot();
      if Inv(before) {
        NextInv(before, EvStart(msgCb, statusCb));
        StartAsserts(before);
      }
      if isStarted { return; }
      isStarted := true;
      this.msgCb := msgCb;
      this.statusCb := statusCb;
      given := statusCb;
      assert status.Ok();
      var ok := Init();
      if ok { ReadNext(); }
    }

    /** A user's callback runs under the recursive lock and may start the reader again, any number of
        times and with any arguments. */
    method RunCallback()
      requires call.state.Accounted() && isStarted
      modifies this, call
      ensures Snapshot() == old(Snapshot())
      decreases 1
    {
      var script: seq<Restart> := *;
      ghost var during := Snapshot();
      for i := 0 to |script|
        invariant Snapshot() == during
      {
        RestartIsHarmless(during, script[i].msgCb, script[i].statusCb);
        Start(script[i].msgCb, script[i].statusCb);
      }
    }

    method RecvStatus()
      requires call.state.Accounted() && isStarted
      modifies this, call
      ensures Snapshot() == old(Snapshot()).RecvStatus()
      decreases 3
    {
      LaunchIsNewStartDelete(call.state, RecvStatusTag(statusCb), [Op.RecvStatus]);
      var tag := call.NewTag();
      var ok := call.StartBatch(tag, RecvStatusTag(statusCb), [Op.RecvStatus]);
      if ok {
        recvId := Some(tag);
        return;
      }
      call.Delete(tag);
      final := Some(InternalError(FailedToReceiveStatus));
      if statusCb.Some? {
        trace := trace + [Ended(statusCb.value, InternalError(FailedToReceiveStatus))];
        RunCallback();
      }
    }

    method OnRead(o: Outcome)
      requires call.state.Accounted() && isStarted && status.Ok()
      modifies this, call
      ensures Snapshot() == old(Snapshot()).OnRead(o)
    {
      hide State.ReadNext, State.RecvStatus, State.CallStatusCb, Call.After;
      readId := None;
      if !o.success {
        status := InternalError(ClientReaderReadCqTagFailed);
        CallStatusCb();
        return;
      }
      if o.received.EndOfStream? {
        RecvStatus();
        return;
      }
      status := ResultStatus(o.received);
      if !status.Ok() {
        CallStatusCb();
        return;
      }
      arrived := arrived + [o.received.msg];
      if msgCb.Some? {
        trace := trace + [Shown(o.received.msg)];
        RunCallback();
        status := o.verdict;
        if !status.Ok() {
          CallStatusCb();
          return;
        }
      }
      ReadNext();
    }

    method Init() returns (ok: bool)
      requires call.state.Accounted() && isStarted && status.Ok()
      modifies this, call
      decreases 3
      ensures call.state.Accounted()
      ensures ok == old(call.state.WillStart())
      ensures var begun := old(Snapshot()).(call := old(call.state).Launch(ReaderInitTag, InitBatch(request)));
              Snapshot() == if ok then begun else begun.Fail(InternalError(FailedToStartAsyncReader))
    {
      LaunchIsNewStartDelete(call.state, ReaderInitTag, InitBatch(request));
      var tag := call.NewTag();
      ok := call.StartBatch(tag, ReaderInitTag, InitBatch(request));
      if ok { return; }
      call.Delete(tag);
      status := InternalError(FailedToStartAsyncReader);
      CallStatusCb();
    }

    method ReadNext()
      requires call.state.Accounted() && isStarted && status.Ok()
      modifies this, call
      ensures Snapshot() == old(Snapshot()).ReadNext()
      decreases 3
    {
      LaunchIsNewStartDelete(call.state, ReadTag, [RecvMsg]);
      var tag := call.NewTag();
      var ok := call.StartBatch(tag, ReadTag, [RecvMsg]);
      if ok {
        readId := Some(tag);
        return;
      }
      call.Delete(tag);
      status := InternalError(FailedToReadServerStreaming);
      CallStatusCb();
    }

    method CallStatusCb()
      requires call.state.Accounted() && isStarted
      modifies this, call
      ensures Snapshot() == old(Snapshot()).CallStatusCb()
      decreases 2
    {
      final := Some(status);
      if statusCb.None? { return; }
      trace := trace + [Ended(statusCb.value, status)];
      RunCallback();
      statusCb := None;
    }

    /** ClientReaderAsyncRecvStatusCqTag::DoComplete calls the callback stored in the tag. */
    method OnRecvStatus(cb: Option<nat>, o: Outcome)
      requires call.state.Accounted() && isStarted
      modifies this, call
      ensures Snapshot() == old(Snapshot()).OnRecvStatus(cb, o)
    {
      recvId := None;
      final := Some(if o.success then o.status else InternalError(FailedToReceiveStatus));
      if cb.None? { return; }
      if o.success {
        trace := trace + [Ended(cb.value, o.status)];
        RunCallback();
        return;
      }
      trace := trace + [Ended(cb.value, InternalError(FailedToReceiveStatus))];
      RunCallback();
    }

    /** The effect of a completed tag. */
    method DoComplete(tag: Tag, o: Outcome)
      requires call.state.Accounted() && (tag.ReadTag? || tag.RecvStatusTag? ==> isStarted) && (tag.ReadTag? ==> status.Ok())
      modifies this, call
      ensures Snapshot() == old(Snapshot()).DoComplete(tag, o)
    {
      hide State.OnRead, State.OnRecvStatus;
      match tag {
        case ReadTag => OnRead(o);
        case RecvStatusTag(cb) => OnRecvStatus(cb, o);
        case _ =>
      }
    }

    /** A completion of one of this object's tags, as the completion loop runs it. */
    method Complete(id: nat, o: Outcome)
      requires Valid() && id in call.state.pending
      modifies this, call
      ensures Valid() && Snapshot() == Deliver(old(Snapshot()), id, o)
    {
      hide Core, State.DoComplete;
      DeliverInv(Snapshot(), id, o);
      CompletionAsserts(Snapshot(), id);
      var tag := call.state.pending[id];
      call.Take(id);
      DoComplete(tag, o);
      call.Delete(id);
    }
  }

  lemma StartAsserts(s: State)
    requires Inv(s)
    ensures s.call.Accounted() && (!s.started ==> s.status.Ok())
  {
    hide TraceOk;
  }
}
