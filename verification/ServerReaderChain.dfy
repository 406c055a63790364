/** The server's read chains in the form of its source: a reader object whose virtual functions are
    the user's, and tags that each read one message and start the next tag
    (src/server/server_reader.cc, src/server/impl/cqtag/server_reader_cqtag.h). */
module ServerReaderChain {
  import opened Grpc
  import opened ServerReaderModel

  class ServerReader {
    // History.
    ghost var starts: nat
    ghost var trace: seq<Note>

    ghost function Snapshot(call: GrpcCall): State
      reads this, call
    {
      State(call.state, starts, trace)
    }

    constructor ()
      ensures starts == 0 && trace == []
    {
      starts, trace := 0, [];
    }

    /** The user's function decides the verdict. */
    method OnMsgStr(msg: string, verdict: Status) returns (status: Status)
      modifies this`trace
      ensures status == verdict && trace == old(trace) + [Note.OnMsgStr(msg)]
    {
      trace := trace + [Note.OnMsgStr(msg)];
      status := verdict;
    }

    method OnError(status: Status)
      modifies this`trace
      ensures trace == old(trace) + [Note.OnError(status)]
    {
      trace := trace + [Note.OnError(status)];
    }

    method OnEnd()
      modifies this`trace
      ensures trace == old(trace) + [Note.OnEnd]
    {
      trace := trace + [Note.OnEnd];
    }

    /** Begins a chain; nothing keeps the user from starting a reader again. */
    method Start(call: GrpcCall)
      requires Inv(Snapshot(call))
      modifies this, call
      ensures Inv(Snapshot(call)) && Snapshot(call) == old(Snapshot(call)).Start()
    {
      hide Core;
      StartInv(Snapshot(call));
      AccountedInv(Snapshot(call));
      starts := starts + 1;
      LaunchIsNewStartDelete(call.state, ServerReadTag, [RecvMsg]);
      var tag := new ServerReaderCqTag(call, this);
      var ok := tag.Start();
      if ok { return; }
      call.Delete(tag.id);
      OnError(InternalError(FailedToStartServerReader));
      OnEnd();
      ghost var error := InternalError(FailedToStartServerReader);
      assert old(trace) + [Note.OnError(error)] + [Note.OnEnd] == old(trace) + [Note.OnError(error), Note.OnEnd];
    }
  }

  class ServerReaderCqTag {
    const call: GrpcCall
    const reader: ServerReader
    const id: nat

    constructor (call: GrpcCall, reader: ServerReader)
      modifies call
      ensures this.call == call && this.reader == reader && id == old(call.state.next)
      ensures call.state == old(call.state).NewTag() && id in call.state.held
    {
      this.call := call;
      this.reader := reader;
      this.id := call.state.next;
      new;
      var k := call.NewTag();
    }

    method Start() returns (ok: bool)
      requires id in call.state.held
      modifies call
      ensures ok == old(call.state.fate)(id) && call.state == old(call.state).Start(id, ServerReadTag, [RecvMsg])
    {
      ok := call.StartBatch(id, ServerReadTag, [RecvMsg]);
    }

    method DoComplete(o: Outcome)
      requires call.state.Accounted()
      modifies reader, call
      ensures reader.Snapshot(call) == old(reader.Snapshot(call)).DoComplete(o)
    {
      if !o.success {
        EndOnError(InternalError(ServerReaderCqTagFailed));
        return;
      }
      if o.received.EndOfStream? {
        reader.OnEnd();
        return;
      }
      var status := ResultStatus(o.received);
      if !status.Ok() {
        EndOnError(status);
        return;
      }
      status := reader.OnMsgStr(o.received.msg, o.verdict);
      if !status.Ok() {
        EndOnError(status);
        return;
      }
      LaunchIsNewStartDelete(call.state, ServerReadTag, [RecvMsg]);
      var tag := new ServerReaderCqTag(call, reader);
      var ok := tag.Start();
      if ok { return; }
      call.Delete(tag.id);
      EndOnError(InternalError(FailedToReadClientStreaming));
    }

    method EndOnError(status: Status)
      requires !status.Ok()
      modifies reader`trace
      ensures reader.Snapshot(call) == old(reader.Snapshot(call)).EndOnError(status)
    {
      reader.OnError(status);
      reader.OnEnd();
      assert old(reader.trace) + [Note.OnError(status)] + [Note.OnEnd] ==
             old(reader.trace) + [Note.OnError(status), Note.OnEnd];
    }

    /** This tag's completion, as the completion loop runs it. */
    method Complete(o: Outcome)
      requires Inv(reader.Snapshot(call)) && id in call.state.pending
      modifies reader, call
      ensures Inv(reader.Snapshot(call)) && reader.Snapshot(call) == Deliver(old(reader.Snapshot(call)), id, o)
    {
      hide Core, State.DoComplete;
      DeliverInv(reader.Snapshot(call), id, o);
      AccountedInv(reader.Snapshot(call));
      call.Take(id);
      DoComplete(o);
      call.Delete(id);
    }
  }

  lemma AccountedInv(s: State)
    requires Inv(s)
    ensures s.call.Accounted()
  {
    hide TraceOk;
  }
}
