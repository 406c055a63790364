/** The server's stream writer in the form of its source (src/server/impl/server_writer_impl.cc and
    server_writer_impl.h). */
module ServerWriter {
  import opened Grpc
  import opened ServerWriterModel
  import ServerWriterThreads

  /** What other threads and completions do while a caller spins: the spin looks at the queue size,
      yields, and looks again.  The list stands for everything that runs during the yields; with an
      unfinished list the caller is still spinning. */
  function Spin(s: State, others: seq<Event>): (r: State)
    requires Inv(s)
    ensures Inv(r)
    decreases |others|
  {
    if s.queue == [] || others == [] then s
    else
      NextInv(s, others[0]);
      Spin(Next(s, others[0]), others[1..])
  }

  lemma {:induction false} SpinGrows(s: State, others: seq<Event>)
    requires Inv(s)
    ensures ServerWriterThreads.Grows(s, Spin(s, others))
    decreases |others|
  {
    hide Inv, Next;
    if s.queue != [] && others != [] {
      NextInv(s, others[0]);
      ServerWriterThreads.HandedGrows(s, others[0]);
      SpinGrows(Next(s, others[0]), others[1..]);
    }
  }

  lemma {:induction false} ExecGrows(s: State, es: seq<Event>)
    requires Inv(s)
    ensures ServerWriterThreads.Grows(s, Exec(s, es))
    decreases |es|
  {
    hide Inv, Next;
    if es != [] {
      NextInv(s, es[0]);
      ServerWriterThreads.HandedGrows(s, es[0]);
      ExecGrows(Next(s, es[0]), es[1..]);
    }
  }

  /** How many interfering steps the spin sees. */
  function Looks(s: State, others: seq<Event>): nat
    requires Inv(s)
    decreases |others|
  {
    if s.queue == [] || others == [] then 0
    else
      NextInv(s, others[0]);
      1 + Looks(Next(s, others[0]), others[1..])
  }

  /** The spin runs to the first look that finds the queue empty, and no further. */
  lemma {:induction false} SpinStopsAtFirstEmpty(s: State, others: seq<Event>)
    requires Inv(s)
    ensures Looks(s, others) <= |others| && Spin(s, others) == Exec(s, others[..Looks(s, others)])
    ensures forall j :: 0 <= j < Looks(s, others) ==> Exec(s, others[..j]).queue != []
    ensures Looks(s, others) < |others| ==> Spin(s, others).queue == []
    decreases |others|
  {
    hide Inv, Next;
    if s.queue != [] && others != [] {
      NextInv(s, others[0]);
      var s' := Next(s, others[0]);
      SpinStopsAtFirstEmpty(s', others[1..]);
      forall j | 0 <= j <= Looks(s, others)
        ensures j > 0 ==> Exec(s, others[..j]) == Exec(s', others[1..][..j - 1])
      {
        if j > 0 { assert others[..j][1..] == others[1..][..j - 1]; }
      }
    }
  }

  /** A SyncWrite is a run of the object: the push, what interferes up to the first empty queue, and, if
      that was seen, what comes before the last look. */
  lemma SyncWriteIsRun(s: State, msg: string, others: seq<Event>, late: seq<Event>)
    requires Inv(s)
    ensures Inv(Next(s, EvAsyncWrite(msg)))
    ensures var pushed := Next(s, EvAsyncWrite(msg)); var n := Looks(pushed, others);
            && n <= |others|
            && var seen := Exec(pushed, others[..n]);
            SyncWritten(s, msg, others, late) ==
              if !s.Accepts() then pushed else if seen.queue == [] then Exec(seen, late) else seen
  {
    NextInv(s, EvAsyncWrite(msg));
    hide Inv, Exec, Spin, Looks;
    SpinStopsAtFirstEmpty(Next(s, EvAsyncWrite(msg)), others);
  }

  /** If the spin has seen an empty queue and the stream is open at the last look, the message at
      place k was handed to gRPC. */
  lemma SpunOut(s: State, others: seq<Event>, late: seq<Event>, k: nat)
    requires Inv(s) && k < |s.accepted|
    requires Spin(s, others).queue == [] && !Exec(Spin(s, others), late).mode.closed
    ensures var r := Exec(Spin(s, others), late);
            k < |r.handed| && r.handed[k] == s.accepted[k]
  {
    hide Spin, Exec;
    var t := Spin(s, others);
    SpinGrows(s, others);
    ExecGrows(t, late);
    ServerWriterThreads.EmptyQueueIsHanded(t);
  }

  /** Where SyncWrite leaves the object, and what it returns: others runs during the spin, late before
      the last look at closed_. */
  function SyncWritten(s: State, msg: string, others: seq<Event>, late: seq<Event>): (r: State)
    requires Inv(s)
    ensures Inv(r)
  {
    AsyncWriteCore(s, msg);
    var pushed := s.AsyncWrite(msg);
    if !s.Accepts() then pushed
    else
      var t := Spin(pushed, others);
      if t.queue != [] then t else Exec(t, late)
  }

  function SyncWriteResult(s: State, msg: string, others: seq<Event>, late: seq<Event>): Option<bool>
    requires Inv(s)
  {
    AsyncWriteCore(s, msg);
    if !s.Accepts() then Some(false)
    else if Spin(s.AsyncWrite(msg), others).queue != [] then None
    else Some(!SyncWritten(s, msg, others, late).mode.closed)
  }

  /** What a blocking write with its message at this place answers, seen from the object that it leaves:
      false if the message was not accepted; nothing yet while messages wait; else whether the stream
      is open at the last look, and if it is, the message has been handed to gRPC. */
  ghost predicate Answered(r: Option<bool>, place: nat, msg: string, s: State) {
    if |s.accepted| == place then r == Some(false)
    else
      match r
      case None => s.queue != []
      case Some(ok) => (ok <==> !s.mode.closed) && (ok ==> place < |s.handed| && s.handed[place] == msg)
  }

  class ServerWriterImpl {
    const call: GrpcCall
    var closed: bool
    var sendInitMd: bool
    var isSending: bool
    var highQueueSize: nat
    var queue: seq<string>
    var closeStatus: Option<Status>

    // History.
    ghost var writeId: Option<nat>
    ghost var accepted: seq<string>
    ghost var handed: seq<string>
    ghost var final: Option<Status>

    ghost function Snapshot(): State
      reads this, call
    {
      State(Mode(closed, isSending), sendInitMd, highQueueSize, queue, closeStatus, call.state,
            writeId, accepted, handed, final)
    }

    ghost predicate Valid()
      reads this, call
    {
      Inv(Snapshot())
    }

    constructor (call: GrpcCall, maxSize: nat)
      requires call.state == NewCall(call.state.fate)
      ensures this.call == call && Valid() && Snapshot() == Init(call.state.fate, maxSize)
    {
      this.call := call;
      closed, sendInitMd, isSending, highQueueSize, queue, closeStatus := false, true, false, maxSize, [], None;
      writeId, accepted, handed, final := None, [], [], None;
      new;
      InitInv(call.state.fate, maxSize);
    }

    method AsyncWrite(response: string) returns (ok: bool)
      requires Valid()
      modifies this, call
      ensures ok == old(Snapshot().Accepts())
      ensures Valid() && Snapshot() == old(Snapshot()).AsyncWrite(response)
    {
      hide Core;
      NextInv(Snapshot(), EvAsyncWrite(response));
      Asserts(Snapshot());
      if closed || closeStatus.Some? { return false; }
      if isSending {
        queue := queue + [response];
        accepted := accepted + [response];
        return true;
      }
      assert queue == [];
      ok := SendMsg(response);
      if ok { accepted := accepted + [response]; }
    }

    /** A positive answer means that the stream is open and one write completion is due; zero from an
        open stream means that everything accepted has been handed over. */
    method GetQueueSize() returns (n: nat)
      requires Valid()
      ensures n == |queue|
      ensures n > 0 ==> !closed && |WriteTags(Snapshot())| == 1
      ensures n == 0 && !closed ==> handed == accepted
    {
      LookTells(Snapshot());
      n := |queue|;
    }

    method GetHighQueueSize() returns (n: nat)
      ensures n == highQueueSize
    {
      n := highQueueSize;
    }

    method SetHighQueueSize(h: nat)
      requires Valid()
      modifies this`highQueueSize
      ensures Valid() && Snapshot() == old(Snapshot()).SetHighQueueSize(h)
    {
      hide Core;
      NextInv(Snapshot(), EvSetHighQueueSize(h));
      highQueueSize := h;
    }

    /** Once true, nothing is waiting or in flight, and in no continuation is anything more accepted
        or sent; while false, nothing that was accepted has been lost. */
    method IsClosed() returns (b: bool)
      requires Valid()
      ensures b == closed
      ensures b ==> queue == [] && WriteTags(Snapshot()) == {}
      ensures b ==> forall es: seq<Event> ::
                      Exec(Snapshot(), es).accepted == accepted && Exec(Snapshot(), es).call.wire == call.state.wire
      ensures !b ==> accepted == handed + queue
    {
      LookTells(Snapshot());
      if closed {
        forall es: seq<Event>
          ensures Exec(Snapshot(), es).accepted == accepted && Exec(Snapshot(), es).call.wire == call.state.wire
        {
          ClosedForGood(Snapshot(), es);
        }
      }
      b := closed;
    }

    method AsyncClose(status: Status)
      requires Valid()
      modifies this, call
      ensures !old(closed) && !old(isSending) ==> old(queue) == []
      ensures Valid() && Snapshot() == old(Snapshot()).AsyncClose(status)
    {
      hide Core;
      NextInv(Snapshot(), EvAsyncClose(status));
      Asserts(Snapshot());
      if closed || closeStatus.Some? { return; }
      closeStatus := Some(status);
      if isSending { return; }
      assert queue == [];
      SendStatus();
    }

    method TryToWriteNext()
      requires call.state.Accounted()
      modifies this, call
      ensures Snapshot() == old(Snapshot()).TryToWriteNext()
    {
      writeId := None;
      if closed { return; }
      isSending := false;
      if queue != [] {
        var _ := SendMsg(queue[0]);
        if queue != [] {
          queue := queue[1..];
        }
        assert isSending;
        return;
      }
      if closeStatus.Some? {
        SendStatus();
        return;
      }
      assert !isSending;
    }

    method SendStatus()
      requires call.state.Accounted() && !closed && closeStatus.Some? && queue == []
      modifies this, call
      ensures Snapshot() == old(Snapshot()).SendStatusBatch()
    {
      closed := true;
      LaunchIsNewStartDelete(call.state, ServerStatusTag, StatusOps(sendInitMd, closeStatus.value));
      var tag := call.NewTag();
      var ops := StatusBatch(closeStatus.value, sendInitMd);
      var ok := call.StartBatch(tag, ServerStatusTag, ops);
      final := if ok then closeStatus else None;
      if ok { return; }
      call.Delete(tag);
    }

    method SendMsg(msg: string) returns (ok: bool)
      requires call.state.Accounted() && !closed && !isSending
      modifies this, call
      ensures ok == old(call.state.WillStart())
      ensures Snapshot() == old(Snapshot()).SendMsg(msg)
    {
      isSending := true;
      LaunchIsNewStartDelete(call.state, ServerWriteTag(msg), WriteOps(sendInitMd, msg));
      var tag := call.NewTag();
      var ops := WriteBatch(msg, sendInitMd);
      ok := call.StartBatch(tag, ServerWriteTag(msg), ops);
      if ok {
        sendInitMd := false;
        writeId := Some(tag);
        handed := handed + [msg];
        return;
      }
      call.Delete(tag);
      closed := true;
      queue := [];  // ends every spin
    }

    /** A completion of one of this object's tags, as the completion loop runs it. */
    method Complete(id: nat, success: bool)
      requires Valid() && id in call.state.pending
      modifies this, call
      ensures Valid() && Snapshot() == Deliver(old(Snapshot()), id)
    {
      hide Core, State.TryToWriteNext;
      DeliverInv(Snapshot(), id);
      CompletionFindsOpenStream(Snapshot(), id);
      var tag := call.state.pending[id];
      call.Take(id);
      if tag.ServerWriteTag? {
        TryToWriteNext();
      }
      call.Delete(id);
    }

    /** One step of somebody else. */
    method Interfere(e: Event)
      requires Valid()
      modifies this, call
      ensures Valid() && Snapshot() == Next(old(Snapshot()), e)
    {
      hide Core;
      match e {
        case EvAsyncWrite(msg) => var _ := AsyncWrite(msg);
        case EvAsyncClose(status) => AsyncClose(status);
        case EvSetHighQueueSize(h) => SetHighQueueSize(h);
        case EvComplete(id, success) => if id in call.state.pending { Complete(id, success); }
      }
    }

    method InterfereAll(es: seq<Event>)
      requires Valid()
      modifies this, call
      ensures Valid() && Snapshot() == Exec(old(Snapshot()), es)
    {
      hide Core, Next;
      for i := 0 to |es|
        invariant Valid() && Exec(Snapshot(), es[i..]) == Exec(old(Snapshot()), es)
      {
        NextInv(Snapshot(), es[i]);
        assert es[i..][1..] == es[i + 1..];
        Interfere(es[i]);
      }
    }

    /** The blocking loop shared by SyncWrite and SyncClose. */
    method SpinUntilEmpty(others: seq<Event>)
      requires Valid()
      modifies this, call
      ensures Valid() && Snapshot() == Spin(old(Snapshot()), others)
    {
      hide Core, Next;
      var i := 0;
      var size := GetQueueSize();
      assert others[0..] == others;
      while size > 0 && i < |others|
        invariant 0 <= i <= |others| && size == |queue|
        invariant Valid() && Spin(Snapshot(), others[i..]) == Spin(old(Snapshot()), others)
        decreases |others| - i
      {
        NextInv(Snapshot(), others[i]);
        assert others[i..][1..] == others[i + 1..];
        Interfere(others[i]);
        i := i + 1;
        size := GetQueueSize();
      }
    }

    /** others runs during the spin, late between the spin and the last look at closed_.  The result
        is None while the caller is still spinning. */
    method SyncWrite(response: string, others: seq<Event>, late: seq<Event>) returns (r: Option<bool>)
      requires Valid()
      modifies this, call
      ensures Valid() && Snapshot() == SyncWritten(old(Snapshot()), response, others, late)
      ensures r == SyncWriteResult(old(Snapshot()), response, others, late)
      ensures Answered(r, old(|accepted|), response, Snapshot())
    {
      hide Core, State.AsyncWrite, State.Accepts;
      AsyncWriteCore(Snapshot(), response);
      var ok := AsyncWrite(response);
      if !ok { return Some(false); }
      ghost var pushed := Snapshot();
      ghost var k := old(|accepted|);
      SpinUntilEmpty(others);
      SpinGrows(pushed, others);
      var size := GetQueueSize();
      if size > 0 { return None; }
      ExecGrows(Snapshot(), late);
      InterfereAll(late);
      if !closed { SpunOut(pushed, others, late, k); }
      return Some(!closed);
    }

    /** between runs after the size check and before the push. */
    method Write(response: string, between: seq<Event>, others: seq<Event>, late: seq<Event>) returns (r: Option<bool>)
      requires Valid()
      modifies this, call
      ensures Valid()
      ensures old(|queue| < highQueueSize) ==>
                var s := Exec(old(Snapshot()), between);
                r == Some(s.Accepts()) && Snapshot() == s.AsyncWrite(response)
      ensures old(|queue| >= highQueueSize) ==>
                var s := Exec(old(Snapshot()), between);
                && r == SyncWriteResult(s, response, others, late) && Snapshot() == SyncWritten(s, response, others, late)
                && Answered(r, |s.accepted|, response, Snapshot())
    {
      hide Core, SyncWritten, SyncWriteResult;
      var isHigh := |queue| >= highQueueSize;
      InterfereAll(between);
      if isHigh {
        r := SyncWrite(response, others, late);
      } else {
        var ok := AsyncWrite(response);
        r := Some(ok);
      }
    }

    /** Returns whether the spin has ended.  It has, and nothing is waiting, once as many write
        completions ran during it as messages were waiting. */
    method SyncClose(status: Status, others: seq<Event>) returns (returned: bool)
      requires Valid()
      modifies this, call
      ensures Valid() && Closing(Snapshot())
      ensures Snapshot() == Spin(AfterClose(old(Snapshot()), status), others)
      ensures returned <==> queue == []
      ensures WriteCompletions(AfterClose(old(Snapshot()), status), others) >= old(|queue|) ==> returned
    {
      hide Core;
      AsyncClose(status);
      ghost var s := Snapshot();
      SpinUntilEmpty(others);
      SpinKeepsClose(s, others);
      var size := GetQueueSize();
      returned := size == 0;
    }

    /** The destructor runs when no write tag shares the object: its SyncClose need not wait, the
        queue is empty and the stream is closed afterwards. */
    method Destroy()
      requires Valid() && WriteTags(Snapshot()) == {}
      modifies this, call
      ensures Valid() && queue == [] && closed && Snapshot() == AfterClose(old(Snapshot()), OK)
    {
      hide Core;
      DestructorCloses(Snapshot(), OK);
      assert queue == [];
      var returned := SyncClose(OK, []);
      assert returned;
    }
  }

  function AfterClose(s: State, status: Status): (r: State)
    requires Inv(s)
    ensures Inv(r) && r == Next(s, EvAsyncClose(status)) && r.queue == s.queue && Closing(r)
  {
    AsyncCloseCore(s, status);
    s.AsyncClose(status)
  }

  lemma Asserts(s: State)
    requires Inv(s)
    ensures s.call.Accounted()
    ensures !s.mode.closed && !s.mode.isSending ==> s.queue == [] && s.closeStatus.None?
  {
    hide WireOk;
  }

  lemma {:induction false} SpinKeepsClose(s: State, others: seq<Event>)
    requires Inv(s) && Closing(s)
    ensures Closing(Spin(s, others))
    ensures WriteCompletions(s, others) >= |s.queue| ==> Spin(s, others).queue == []
    decreases |others|
  {
    hide Inv, Next, Closing, WriteCompletion;
    if s.queue != [] && others != [] {
      NextInv(s, others[0]);
      ClosingStep(s, others[0]);
      SpinKeepsClose(Next(s, others[0]), others[1..]);
    }
  }

  /** ServerWriterWriteCqTag::Start and ServerWriterSendStatusCqTag::StartSend fill the batch op by
      op. */
  method WriteBatch(message: string, withInitMd: bool) returns (ops: Batch)
    ensures |ops| >= 1 && ops[|ops| - 1] == SendMsg(message)
    ensures ops[..|ops| - 1] == if withInitMd then [SendInitMd] else []
    ensures ops == WriteOps(withInitMd, message)
  {
    ops := [];
    if withInitMd {
      ops := ops + [SendInitMd];
    }
    ops := ops + [SendMsg(message)];
  }

  method StatusBatch(status: Status, withInitMd: bool) returns (ops: Batch)
    ensures |ops| >= 1 && ops[|ops| - 1] == SendStatus(status)
    ensures ops[..|ops| - 1] == if withInitMd then [SendInitMd] else []
    ensures ops == StatusOps(withInitMd, status)
  {
    ops := [];
    if withInitMd {
      ops := ops + [SendInitMd];
    }
    ops := ops + [SendStatus(status)];
  }
}
