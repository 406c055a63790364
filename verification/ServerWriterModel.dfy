/** The server's stream writer as a state machine, one atomic step per lock-held section
    (src/server/impl/server_writer_impl.cc).  The message in flight is not in the queue. */
module ServerWriterModel {
  import opened Grpc

  datatype Mode = Mode(closed: bool, isSending: bool)

  /** mode .. call are the fields of the source class.  The rest is history: the outstanding write
      tag, the messages accepted by AsyncWrite, those whose batch was started, and the status that
      went out. */
  datatype State = State(
    mode: Mode,
    sendInitMd: bool,
    high: nat,
    queue: seq<string>,
    closeStatus: Option<Status>,
    call: Call,
    writeId: Option<nat>,
    accepted: seq<string>,
    handed: seq<string>,
    final: Option<Status>)
  {
    function SendMsg(msg: string): (r: State)
      requires !mode.closed && !mode.isSending
      ensures r.call.After(call) && r.closeStatus == closeStatus && r.accepted == accepted && r.high == high
      ensures r.mode.closed == !call.WillStart()
      ensures r.queue == if call.WillStart() then queue else []
    {
      var c := call.Launch(ServerWriteTag(msg), WriteOps(sendInitMd, msg));
      if call.WillStart()
      then this.(mode := Mode(false, true), sendInitMd := false, call := c,
                 writeId := Some(call.next), handed := handed + [msg])
      else this.(mode := Mode(true, true), queue := [], call := c)
    }

    function SendStatusBatch(): (r: State)
      requires !mode.closed && closeStatus.Some? && queue == []
      ensures r.call.After(call) && r.closeStatus == closeStatus && r.accepted == accepted && r.high == high
      ensures r.mode.closed && r.queue == []
    {
      this.(mode := mode.(closed := true),
            call := call.Launch(ServerStatusTag, StatusOps(sendInitMd, closeStatus.value)),
            final := if call.WillStart() then closeStatus else None)
    }

    predicate Accepts() {
      !mode.closed && closeStatus.None? && (mode.isSending || call.WillStart())
    }

    function AsyncWrite(msg: string): (r: State)
      ensures r.closeStatus == closeStatus && r.high == high && r.call.After(call)
      ensures r.accepted == accepted + if Accepts() then [msg] else []
      ensures mode.closed ==> r.mode.closed
      ensures mode.closed || closeStatus.Some? ==> r == this
      ensures r.queue == if Accepts() && mode.isSending then queue + [msg]
                         else if !mode.closed && closeStatus.None? && !call.WillStart() then [] else queue
    {
      if mode.closed || closeStatus.Some? then this
      else if mode.isSending then this.(queue := queue + [msg], accepted := accepted + [msg])
      else this.SendMsg(msg).(accepted := if call.WillStart() then accepted + [msg] else accepted)
    }

    function AsyncClose(status: Status): (r: State)
      requires !mode.closed && !mode.isSending ==> queue == []
      ensures r.accepted == accepted && r.high == high && r.queue == queue && r.call.After(call)
      ensures r.closeStatus == if mode.closed || closeStatus.Some? then closeStatus else Some(status)
      ensures mode.closed ==> r.mode.closed
    {
      if mode.closed || closeStatus.Some? then this
      else
        var s := this.(closeStatus := Some(status));
        if mode.isSending then s else s.SendStatusBatch()
    }

    /** The source pops the queue even after SendMsg has failed and emptied it; the pop is guarded
        here. */
    function TryToWriteNext(): (r: State)
      ensures r.call.After(call) && r.closeStatus == closeStatus && r.accepted == accepted && r.high == high
      ensures mode.closed ==> r.mode.closed && r.queue == queue
      ensures !mode.closed && queue != [] ==> r.queue == if call.WillStart() then queue[1..] else []
      ensures !mode.closed && queue == [] ==> r.queue == [] && r.mode.closed == closeStatus.Some?
    {
      var s := this.(writeId := None);
      if mode.closed then s
      else
        var idle := s.(mode := Mode(false, false));
        if queue != [] then
          var sent := idle.SendMsg(queue[0]);
          if sent.queue == [] then sent else sent.(queue := sent.queue[1..])
        else if closeStatus.Some? then idle.SendStatusBatch()
        else idle
    }

    function SetHighQueueSize(h: nat): State { this.(high := h) }

    function DoComplete(tag: Tag): (r: State)
      ensures r.call.After(call)
    {
      if tag.ServerWriteTag? then TryToWriteNext() else this
    }
  }

  function WriteOps(withInitMd: bool, msg: string): Batch {
    if withInitMd then [SendInitMd, SendMsg(msg)] else [SendMsg(msg)]
  }

  function StatusOps(withInitMd: bool, status: Status): Batch {
    if withInitMd then [SendInitMd, SendStatus(status)] else [SendStatus(status)]
  }

  /** high_queue_size_ starts as the largest size_t. */
  function Init(fate: nat -> bool, maxSize: nat): State {
    State(Mode(false, false), true, maxSize, [], None, NewCall(fate), None, [], [], None)
  }

  // ----- The wire trace a run may produce -----

  function MessageFrames(msgs: seq<string>): seq<Batch> {
    if msgs == [] then []
    else MessageFrames(msgs[..|msgs| - 1]) + [WriteOps(|msgs| == 1, msgs[|msgs| - 1])]
  }

  /** Messages, then at most one status; initial metadata in the very first batch only. */
  function Trace(msgs: seq<string>, final: Option<Status>): seq<Batch> {
    MessageFrames(msgs) + if final.Some? then [StatusOps(msgs == [], final.value)] else []
  }

  // ----- The invariant -----

  ghost predicate TagsOk(c: Call, writeId: Option<nat>, handed: seq<string>) {
    && c.Accounted()
    && (forall id :: id in c.pending ==>
          if writeId == Some(id) then handed != [] && c.pending[id] == ServerWriteTag(handed[|handed| - 1])
          else c.pending[id] == ServerStatusTag)
    && (writeId.Some? ==> writeId.value in c.pending)
  }

  ghost predicate WireOk(wire: seq<Batch>, handed: seq<string>, final: Option<Status>) {
    wire == Trace(handed, final)
  }

  /** Everything but the link between isSending and the outstanding write tag. */
  ghost predicate Base(s: State) {
    && TagsOk(s.call, s.writeId, s.handed)
    && WireOk(s.call.wire, s.handed, s.final)
    && if s.mode.closed then
         && s.queue == []
         && s.writeId.None?
         && s.handed <= s.accepted
         && (s.final.Some? ==> s.handed == s.accepted && s.closeStatus == s.final)
       else
         && s.final.None?
         && s.accepted == s.handed + s.queue
         && s.sendInitMd == (s.handed == [])
         && s.mode.isSending == s.writeId.Some?
  }

  ghost predicate Core(s: State) {
    && Base(s)
    && (!s.mode.closed && (s.queue != [] || s.closeStatus.Some?) ==> s.mode.isSending)
  }

  ghost predicate Inv(s: State) { Core(s) && s.call.held == {} }

  lemma FramesSnoc(msgs: seq<string>, msg: string)
    ensures MessageFrames(msgs + [msg]) == MessageFrames(msgs) + [WriteOps(msgs == [], msg)]
  {
    assert (msgs + [msg])[..|msgs|] == msgs;
  }

  /** Sending the front of the queue, or a message with an empty queue in front of it. */
  lemma SendMsgBase(s: State, msg: string, rest: seq<string>)
    requires Base(s) && !s.mode.closed && !s.mode.isSending
    requires s.queue == [msg] + rest
    ensures var r := s.SendMsg(msg);
            if s.call.WillStart() then Core(r.(queue := rest)) && r.mode.isSending else Core(r)
  {
    hide MessageFrames, WriteOps, StatusOps;
    FramesSnoc(s.handed, msg);
    assert s.handed + s.queue == s.handed + [msg] + rest;
    assert s.handed <= s.accepted;
  }

  lemma SendStatusCore(s: State)
    requires Base(s) && !s.mode.closed && !s.mode.isSending && s.closeStatus.Some? && s.queue == []
    ensures Core(s.SendStatusBatch())
  {
    hide MessageFrames;
  }

  lemma AsyncWriteCore(s: State, msg: string)
    requires Core(s)
    ensures Core(s.AsyncWrite(msg)) && s.AsyncWrite(msg).call.held == s.call.held
  {
    hide TagsOk, WireOk;
    if !s.mode.closed && s.closeStatus.None? {
      if s.mode.isSending {
        assert s.handed + (s.queue + [msg]) == s.handed + s.queue + [msg];
      } else {
        var offered := s.(queue := [msg], accepted := s.accepted + [msg]);
        assert Base(offered);
        SendMsgBase(offered, msg, []);
      }
    }
  }

  lemma AsyncCloseCore(s: State, status: Status)
    requires Core(s)
    ensures !s.mode.closed && !s.mode.isSending ==> s.queue == []
    ensures Core(s.AsyncClose(status)) && s.AsyncClose(status).call.held == s.call.held
  {
    hide TagsOk, WireOk;
    if !s.mode.closed && s.closeStatus.None? && !s.mode.isSending {
      SendStatusCore(s.(closeStatus := Some(status)));
    }
  }

  lemma TakeWrite(s: State, id: nat)
    requires Core(s) && s.writeId == Some(id) && id in s.call.pending
    ensures TagsOk(s.call.Take(id), None, s.handed)
  {
    hide WireOk;
  }

  lemma TakeOther(s: State, id: nat)
    requires Core(s) && s.writeId != Some(id) && id in s.call.pending
    ensures Core(s.(call := s.call.Take(id)))
  {
    hide WireOk;
  }

  lemma TryToWriteNextCore(s: State, id: nat)
    requires Core(s) && s.writeId == Some(id) && id in s.call.pending
    ensures !s.mode.closed
    ensures var r := s.(call := s.call.Take(id)).TryToWriteNext();
            Core(r) && r.call.held == s.call.held + {id}
  {
    hide TagsOk, WireOk;
    TakeWrite(s, id);
    var idle := s.(call := s.call.Take(id), writeId := None, mode := Mode(false, false));
    assert Base(idle);
    if s.queue != [] {
      assert s.queue == [s.queue[0]] + s.queue[1..];
      SendMsgBase(idle, s.queue[0], s.queue[1..]);
    } else if s.closeStatus.Some? {
      SendStatusCore(idle);
    }
  }

  // ----- Runs -----

  datatype Event =
    | EvAsyncWrite(msg: string)
    | EvAsyncClose(status: Status)
    | EvSetHighQueueSize(high: nat)
    | EvComplete(id: nat, success: bool)

  /** One completion; its success flag is not looked at. */
  function Deliver(s: State, id: nat): State
    requires Inv(s) && id in s.call.pending
  {
    var r := s.(call := s.call.Take(id)).DoComplete(s.call.pending[id]);
    r.(call := r.call.Delete(id))
  }

  function Next(s: State, e: Event): State
    requires Inv(s)
  {
    match e
    case EvAsyncWrite(msg) => s.AsyncWrite(msg)
    case EvAsyncClose(status) => AsyncCloseCore(s, status); s.AsyncClose(status)
    case EvSetHighQueueSize(h) => s.SetHighQueueSize(h)
    case EvComplete(id, _) => if id in s.call.pending then Deliver(s, id) else s
  }

  /** A write completion belongs to the outstanding message, and finds the stream open. */
  lemma CompletionFindsOpenStream(s: State, id: nat)
    requires Inv(s) && id in s.call.pending
    ensures s.call.Accounted()
    ensures s.call.pending[id].ServerWriteTag? <==> s.writeId == Some(id)
    ensures s.call.pending[id].ServerWriteTag? ==>
              !s.mode.closed && s.handed != [] && s.call.pending[id].msg == s.handed[|s.handed| - 1]
  {
    hide WireOk;
  }

  lemma ReleaseInv(s: State, id: nat)
    requires Core(s) && s.call.held == {id}
    ensures Inv(s.(call := s.call.Delete(id)))
  {
    hide WireOk;
    assert {id} - {id} == {};
  }

  lemma DeliverInv(s: State, id: nat)
    requires Inv(s) && id in s.call.pending
    ensures Inv(Deliver(s, id))
  {
    hide Core;
    CompletionFindsOpenStream(s, id);
    var taken := s.(call := s.call.Take(id));
    if s.writeId == Some(id) {
      TryToWriteNextCore(s, id);
      ReleaseInv(taken.TryToWriteNext(), id);
    } else {
      TakeOther(s, id);
      ReleaseInv(taken, id);
    }
  }

  lemma NextInv(s: State, e: Event)
    requires Inv(s)
    ensures Inv(Next(s, e))
  {
    match e
    case EvAsyncWrite(msg) => hide Core; AsyncWriteCore(s, msg);
    case EvAsyncClose(status) => hide Core; AsyncCloseCore(s, status);
    case EvSetHighQueueSize(h) => hide TagsOk, WireOk;
    case EvComplete(id, _) => hide Core; if id in s.call.pending { DeliverInv(s, id); }
  }

  lemma InitInv(fate: nat -> bool, maxSize: nat)
    ensures Inv(Init(fate, maxSize))
  {
  }

  function Exec(s: State, es: seq<Event>): (r: State)
    requires Inv(s)
    ensures Inv(r)
    decreases |es|
  {
    if es == [] then s
    else
      NextInv(s, es[0]);
      Exec(Next(s, es[0]), es[1..])
  }

  // ----- What every run keeps -----

  lemma FramesShape(msgs: seq<string>)
    ensures |MessageFrames(msgs)| == |msgs|
    ensures forall i :: 0 <= i < |msgs| ==> MessageFrames(msgs)[i] == WriteOps(i == 0, msgs[i])
  {
    if msgs != [] { FramesShape(msgs[..|msgs| - 1]); }
  }

  lemma {:induction false} FramesCarry(msgs: seq<string>)
    ensures MessagesOn(MessageFrames(msgs)) == msgs
    decreases |msgs|
  {
    if msgs != [] {
      var init, last := msgs[..|msgs| - 1], msgs[|msgs| - 1];
      FramesCarry(init);
      assert msgs == init + [last];
      FramesSnoc(init, last);
      MessagesOnSnoc(MessageFrames(init), WriteOps(init == [], last));
      WritePayload(init == [], last);
    }
  }

  lemma WritePayload(withInitMd: bool, msg: string)
    ensures Payload(WriteOps(withInitMd, msg)) == [msg]
  {
    assert Payload([SendMsg(msg)]) == [msg] + Payload([]);
    assert Payload([SendInitMd, SendMsg(msg)]) == Payload([SendMsg(msg)]) by {
      assert [SendInitMd, SendMsg(msg)][1..] == [SendMsg(msg)];
    }
  }

  lemma StatusPayload(withInitMd: bool, status: Status)
    ensures Payload(StatusOps(withInitMd, status)) == []
  {
    assert Payload([SendStatus(status)]) == [];
    assert [SendInitMd, SendStatus(status)][1..] == [SendStatus(status)];
  }

  lemma WireCarriesHanded(s: State)
    requires Inv(s)
    ensures MessagesOn(s.call.wire) == s.handed
  {
    hide TagsOk, MessageFrames;
    FramesCarry(s.handed);
    if s.final.Some? {
      MessagesOnSnoc(MessageFrames(s.handed), StatusOps(s.handed == [], s.final.value));
      StatusPayload(s.handed == [], s.final.value);
    } else {
      assert s.call.wire == MessageFrames(s.handed);
    }
  }

  predicate CarriesStatus(b: Batch) { exists op :: op in b && op.SendStatus? }

  /** The exact shape of what every run puts on the wire: message batches, then at most one status;
      initial metadata in the first batch and in no other; the messages are a prefix, in order, of
      those accepted, and all of them once the status is out. */
  lemma WireShape(fate: nat -> bool, maxSize: nat, es: seq<Event>)
    ensures Inv(Init(fate, maxSize))
    ensures var s := Exec(Init(fate, maxSize), es); var wire := s.call.wire;
            && s.handed <= s.accepted
            && |wire| == |s.handed| + (if s.final.Some? then 1 else 0)
            && (forall i :: 0 <= i < |s.handed| ==> wire[i] == (if i == 0 then [SendInitMd] else []) + [SendMsg(s.handed[i])])
            && (forall i :: 0 <= i < |wire| ==> (SendInitMd in wire[i] <==> i == 0))
            && (forall i :: 0 <= i < |wire| ==> (CarriesStatus(wire[i]) <==> i == |s.handed|))
            && (s.final.Some? ==>
                  && s.handed == s.accepted && s.closeStatus == s.final
                  && wire[|s.handed|] == (if s.handed == [] then [SendInitMd] else []) + [SendStatus(s.final.value)])
  {
    InitInv(fate, maxSize);
    var s := Exec(Init(fate, maxSize), es);
    FramesShape(s.handed);
    assert s.handed <= s.accepted && s.call.wire == Trace(s.handed, s.final) by { hide TagsOk, Trace, Exec; }
    hide Exec, Inv, MessageFrames, CarriesStatus, WriteOps, StatusOps;
    var wire := s.call.wire;
    forall i | 0 <= i < |s.handed|
      ensures wire[i] == (if i == 0 then [SendInitMd] else []) + [SendMsg(s.handed[i])]
      ensures (SendInitMd in wire[i] <==> i == 0) && !CarriesStatus(wire[i])
    {
      assert wire[i] == MessageFrames(s.handed)[i];
      WriteCarries(i == 0, s.handed[i]);
    }
    if s.final.Some? { StatusCarries(s.handed == [], s.final.value); }
  }

  lemma WriteCarries(withInitMd: bool, msg: string)
    ensures WriteOps(withInitMd, msg) == (if withInitMd then [SendInitMd] else []) + [SendMsg(msg)]
    ensures (SendInitMd in WriteOps(withInitMd, msg) <==> withInitMd) && !CarriesStatus(WriteOps(withInitMd, msg))
  {
  }

  lemma StatusCarries(withInitMd: bool, status: Status)
    ensures StatusOps(withInitMd, status) == (if withInitMd then [SendInitMd] else []) + [SendStatus(status)]
    ensures (SendInitMd in StatusOps(withInitMd, status) <==> withInitMd) && CarriesStatus(StatusOps(withInitMd, status))
  {
    assert SendStatus(status) in StatusOps(withInitMd, status);
  }

  /** The messages AsyncWrite accepted, read off the run. */
  function Accepted(s: State, es: seq<Event>): seq<string>
    requires Inv(s)
    decreases |es|
  {
    if es == [] then []
    else
      NextInv(s, es[0]);
      (if es[0].EvAsyncWrite? && s.Accepts() then [es[0].msg] else []) + Accepted(Next(s, es[0]), es[1..])
  }

  /** The first close that found the stream open, read off the run. */
  function EffectiveClose(s: State, es: seq<Event>): Option<Status>
    requires Inv(s)
    decreases |es|
  {
    if es == [] then None
    else
      NextInv(s, es[0]);
      if es[0].EvAsyncClose? && !s.mode.closed then Some(es[0].status)
      else EffectiveClose(Next(s, es[0]), es[1..])
  }

  lemma StepBooks(s: State, e: Event)
    requires Inv(s)
    ensures var r := Next(s, e);
            && r.accepted == s.accepted + (if e.EvAsyncWrite? && s.Accepts() then [e.msg] else [])
            && r.closeStatus == (if e.EvAsyncClose? && !s.mode.closed && s.closeStatus.None? then Some(e.status) else s.closeStatus)
            && (s.mode.closed ==> r.mode.closed)
  {
    hide Core, State.AsyncWrite, State.AsyncClose, State.TryToWriteNext;
    if e.EvAsyncClose? { AsyncCloseCore(s, e.status); }
  }

  lemma {:induction false} RunBooks(s: State, es: seq<Event>)
    requires Inv(s)
    ensures Exec(s, es).accepted == s.accepted + Accepted(s, es)
    ensures Exec(s, es).closeStatus == if s.closeStatus.Some? then s.closeStatus else EffectiveClose(s, es)
    ensures s.mode.closed ==> Exec(s, es).mode.closed
    decreases |es|
  {
    hide Inv, Next, State.Accepts;
    if es != [] {
      NextInv(s, es[0]);
      StepBooks(s, es[0]);
      RunBooks(Next(s, es[0]), es[1..]);
    }
  }

  /** Every run: what is on the wire is a prefix of what AsyncWrite accepted.  A status is sent exactly
      when the stream is closed and its last start was accepted; it is the one given to the first
      effective close, it comes in the last batch and in no other, after everything accepted, and
      stands there alone, or after the initial metadata if no message went before it. */
  lemma StreamIsFaithful(fate: nat -> bool, maxSize: nat, es: seq<Event>)
    ensures Inv(Init(fate, maxSize))
    ensures var s0 := Init(fate, maxSize); var s := Exec(s0, es);
            var wire, sent := s.call.wire, MessagesOn(s.call.wire);
            && sent <= Accepted(s0, es)
            && (forall i :: 0 <= i < |wire| && CarriesStatus(wire[i]) ==>
                  && i == |wire| - 1 && sent == Accepted(s0, es) && EffectiveClose(s0, es).Some?
                  && wire[i] == (if sent == [] then [SendInitMd] else []) + [SendStatus(EffectiveClose(s0, es).value)])
            && ((exists i :: 0 <= i < |wire| && CarriesStatus(wire[i])) <==> s.mode.closed && fate(|sent|))
  {
    InitInv(fate, maxSize);
    var s0, s := Init(fate, maxSize), Exec(Init(fate, maxSize), es);
    RunBooks(s0, es);
    WireShape(fate, maxSize, es);
    WireCarriesHanded(s);
    StartsAreNumbered(s0, es);
    FinalIsClosed(s);
    hide Exec, Accepted, EffectiveClose, Inv, CarriesStatus, MessagesOn;
    assert s.accepted == Accepted(s0, es);
    if s.final.Some? { assert CarriesStatus(s.call.wire[|s.handed|]); }
  }

  lemma FinalIsClosed(s: State)
    requires Inv(s)
    ensures s.final.Some? ==> s.mode.closed && s.closeStatus == s.final
  {
    hide TagsOk, WireOk;
  }

  /** The high mark that the run sets last. */
  function HighMark(high: nat, es: seq<Event>): nat
    decreases |es|
  {
    if es == [] then high
    else HighMark(if es[0].EvSetHighQueueSize? then es[0].high else high, es[1..])
  }

  lemma HighStep(s: State, e: Event)
    requires Inv(s)
    ensures Next(s, e).high == if e.EvSetHighQueueSize? then e.high else s.high
  {
    hide Core, State.AsyncWrite, State.AsyncClose, State.TryToWriteNext;
    if e.EvAsyncClose? { AsyncCloseCore(s, e.status); }
  }

  lemma {:induction false} RunHigh(s: State, es: seq<Event>)
    requires Inv(s)
    ensures Exec(s, es).high == HighMark(s.high, es)
    decreases |es|
  {
    hide Inv, Next;
    if es != [] {
      NextInv(s, es[0]);
      HighStep(s, es[0]);
      RunHigh(Next(s, es[0]), es[1..]);
    }
  }

  /** The high mark is always the last one set, and the largest size before that. */
  lemma HighMarkIsLast(fate: nat -> bool, maxSize: nat, es: seq<Event>)
    ensures Inv(Init(fate, maxSize)) && Exec(Init(fate, maxSize), es).high == HighMark(maxSize, es)
  {
    InitInv(fate, maxSize);
    hide Inv, Exec;
    RunHigh(Init(fate, maxSize), es);
  }

  ghost function WriteTags(s: State): set<nat> { set id | id in s.call.pending && s.call.pending[id].ServerWriteTag? }

  lemma OutstandingWrite(s: State)
    requires Inv(s)
    ensures WriteTags(s) == if s.writeId.Some? then {s.writeId.value} else {}
  {
    hide WireOk;
  }

  /** No lost wake-up: a non-empty queue, or a recorded close that has not gone out, means that the
      stream is open and exactly one write completion is due; and closed streams have no queue. */
  lemma NoLostWakeUp(fate: nat -> bool, maxSize: nat, es: seq<Event>)
    ensures Inv(Init(fate, maxSize))
    ensures var s := Exec(Init(fate, maxSize), es);
            && |WriteTags(s)| <= 1
            && (|WriteTags(s)| == 1 <==> !s.mode.closed && s.mode.isSending)
            && (s.queue != [] ==> !s.mode.closed && |WriteTags(s)| == 1)
            && (s.closeStatus.Some? && !s.mode.closed ==> |WriteTags(s)| == 1)
  {
    InitInv(fate, maxSize);
    hide Exec;
    OutstandingWrite(Exec(Init(fate, maxSize), es));
    hide TagsOk, WireOk;
  }

  // ----- Draining after a close -----

  predicate WriteCompletion(s: State, e: Event) {
    e.EvComplete? && e.id in s.call.pending && s.call.pending[e.id].ServerWriteTag?
  }

  function WriteCompletions(s: State, es: seq<Event>): nat
    requires Inv(s)
    decreases |es|
  {
    if es == [] then 0
    else
      NextInv(s, es[0]);
      (if WriteCompletion(s, es[0]) then 1 else 0) + WriteCompletions(Next(s, es[0]), es[1..])
  }

  predicate Closing(s: State) { s.mode.closed || s.closeStatus.Some? }

  lemma ClosingStep(s: State, e: Event)
    requires Inv(s) && Closing(s)
    ensures var r := Next(s, e);
            && Closing(r)
            && |r.queue| <= |s.queue|
            && (WriteCompletion(s, e) && s.queue != [] ==> |r.queue| < |s.queue|)
  {
    hide Core, State.AsyncWrite, State.AsyncClose, State.TryToWriteNext;
    if e.EvAsyncClose? { AsyncCloseCore(s, e.status); }
    if WriteCompletion(s, e) { CompletionFindsOpenStream(s, e.id); }
  }

  /** Once a close is recorded the queue only shrinks, by one with every write completion, so the
      spin of SyncClose ends within |queue| completions and the queue stays empty from then on. */
  lemma {:induction false} CloseDrains(s: State, es: seq<Event>)
    requires Inv(s) && Closing(s)
    ensures Closing(Exec(s, es))
    ensures |Exec(s, es).queue| <= |s.queue|
    ensures WriteCompletions(s, es) < |s.queue| ==> |Exec(s, es).queue| <= |s.queue| - WriteCompletions(s, es)
    ensures WriteCompletions(s, es) >= |s.queue| ==> Exec(s, es).queue == []
    decreases |es|
  {
    hide Inv, Next, Closing, WriteCompletion;
    if es != [] {
      NextInv(s, es[0]);
      ClosingStep(s, es[0]);
      CloseDrains(Next(s, es[0]), es[1..]);
    }
  }

  /** While the queue is not empty a write completion is possible. */
  lemma CompletionIsDue(s: State)
    requires Inv(s) && s.queue != []
    ensures exists e :: WriteCompletion(s, e)
  {
    OutstandingWrite(s);
    hide TagsOk, WireOk;
    assert s.writeId.value in WriteTags(s);
    assert WriteCompletion(s, EvComplete(s.writeId.value, true));
  }

  // ----- When an accepted message goes out -----

  lemma StepHands(s: State, e: Event)
    requires Inv(s)
    ensures var r := Next(s, e);
            && s.handed <= r.handed && s.accepted <= r.accepted && (s.mode.closed ==> r.mode.closed)
            && (WriteCompletion(s, e) && s.queue != [] ==> |r.handed| == |s.handed| + 1 || r.mode.closed)
  {
    StepBooks(s, e);
    hide TagsOk, WireOk;
  }

  lemma WaitingOrHanded(s: State)
    requires Inv(s)
    ensures s.mode.closed || s.accepted == s.handed + s.queue
  {
    hide TagsOk, WireOk;
  }

  /** The accepted message at place t is handed over, or the stream closed, as soon as t + 1 - |handed|
      write completions have come in, whatever is written after it. */
  lemma {:induction false} MessageGoesOut(s: State, es: seq<Event>, t: nat)
    requires Inv(s) && t < |s.accepted|
    ensures |s.handed| + WriteCompletions(s, es) > t ==> |Exec(s, es).handed| > t || Exec(s, es).mode.closed
    decreases |es|
  {
    hide Inv, Next, WriteCompletion;
    if es != [] {
      NextInv(s, es[0]);
      StepHands(s, es[0]);
      WaitingOrHanded(s);
      MessageGoesOut(Next(s, es[0]), es[1..], t);
      HandedStays(Next(s, es[0]), es[1..]);
    }
  }

  lemma {:induction false} HandedStays(s: State, es: seq<Event>)
    requires Inv(s)
    ensures s.handed <= Exec(s, es).handed && (s.mode.closed ==> Exec(s, es).mode.closed)
    decreases |es|
  {
    hide Inv, Next, WriteCompletion;
    if es != [] {
      NextInv(s, es[0]);
      StepHands(s, es[0]);
      HandedStays(Next(s, es[0]), es[1..]);
    }
  }

  // ----- Which starts were refused, and what that loses -----

  /** Every start but the last one of a closed stream was a message that went out; the last one of a
      closed stream was its status, or was refused. */
  ghost predicate Numbered(s: State) {
    && s.call.next == |s.handed| + (if s.mode.closed then 1 else 0)
    && (forall k :: 0 <= k < |s.handed| ==> s.call.fate(k))
    && (s.mode.closed ==> (s.call.fate(|s.handed|) <==> s.final.Some?))
  }

  lemma NumberedDeliver(s: State, id: nat)
    requires Inv(s) && Numbered(s) && id in s.call.pending
    ensures Numbered(Deliver(s, id)) && Deliver(s, id).call.fate == s.call.fate
  {
    CompletionFindsOpenStream(s, id);
    hide TagsOk, WireOk, Call.After;
  }

  lemma NumberedStep(s: State, e: Event)
    requires Inv(s) && Numbered(s)
    ensures Numbered(Next(s, e)) && Next(s, e).call.fate == s.call.fate
  {
    hide TagsOk, WireOk, Call.After, Deliver;
    if e.EvComplete? && e.id in s.call.pending { NumberedDeliver(s, e.id); }
  }

  /** The message handed over k-th was the k-th start, and a refused start is the last one. */
  lemma {:induction false} StartsAreNumbered(s: State, es: seq<Event>)
    requires Inv(s) && Numbered(s)
    ensures Numbered(Exec(s, es)) && Exec(s, es).call.fate == s.call.fate
    decreases |es|
  {
    hide Inv, Next, Numbered;
    if es != [] {
      NextInv(s, es[0]);
      NumberedStep(s, es[0]);
      StartsAreNumbered(Next(s, es[0]), es[1..]);
    }
  }

  /** What SendMsg leaves of the queue, just before the source pops it. */
  function QueueAtPop(s: State): seq<string>
    requires !s.mode.closed && s.queue != []
  {
    s.(mode := Mode(false, false)).SendMsg(s.queue[0]).queue
  }

  /** A write completion after which the source pops a queue that SendMsg has already emptied. */
  predicate PopsEmptyQueue(s: State, e: Event) {
    WriteCompletion(s, e) && !s.mode.closed && s.queue != [] && QueueAtPop(s) == []
  }

  /** The messages that were waiting when the source popped an emptied queue, read off the run. */
  function Lost(s: State, es: seq<Event>): seq<string>
    requires Inv(s)
    decreases |es|
  {
    if es == [] then []
    else
      NextInv(s, es[0]);
      (if PopsEmptyQueue(s, es[0]) then s.queue else []) + Lost(Next(s, es[0]), es[1..])
  }

  lemma LostDeliver(s: State, e: Event, gone: seq<string>)
    requires Inv(s) && s.accepted == s.handed + s.queue + gone && (gone != [] ==> s.mode.closed)
    requires e.EvComplete? && e.id in s.call.pending
    ensures var r := Deliver(s, e.id); var now := if PopsEmptyQueue(s, e) then s.queue else [];
            r.accepted == r.handed + r.queue + (gone + now) && (gone + now != [] ==> r.mode.closed)
  {
    CompletionFindsOpenStream(s, e.id);
    hide Inv, Call.After;
    if s.call.pending[e.id].ServerWriteTag? && s.queue != [] {
      assert s.handed + s.queue == s.handed + [s.queue[0]] + s.queue[1..];
    }
  }

  lemma LostStep(s: State, e: Event, gone: seq<string>)
    requires Inv(s) && s.accepted == s.handed + s.queue + gone && (gone != [] ==> s.mode.closed)
    ensures var r := Next(s, e); var now := if PopsEmptyQueue(s, e) then s.queue else [];
            r.accepted == r.handed + r.queue + (gone + now) && (gone + now != [] ==> r.mode.closed)
  {
    if e.EvComplete? && e.id in s.call.pending {
      LostDeliver(s, e, gone);
      hide Inv, Deliver, PopsEmptyQueue;
    } else {
      assert gone + [] == gone;
      NextInv(s, e);
      hide TagsOk, WireOk, Call.After;
    }
  }

  lemma {:induction false} LostRun(s: State, es: seq<Event>, gone: seq<string>)
    requires Inv(s) && s.accepted == s.handed + s.queue + gone && (gone != [] ==> s.mode.closed)
    ensures var r := Exec(s, es);
            r.accepted == r.handed + r.queue + (gone + Lost(s, es)) && (gone + Lost(s, es) != [] ==> r.mode.closed)
    decreases |es|
  {
    hide Inv, Next, PopsEmptyQueue;
    if es == [] {
      assert gone + [] == gone;
    } else {
      NextInv(s, es[0]);
      LostStep(s, es[0], gone);
      var now := if PopsEmptyQueue(s, es[0]) then s.queue else [];
      var s', rest := Next(s, es[0]), Lost(Next(s, es[0]), es[1..]);
      LostRun(s', es[1..], gone + now);
      assert gone + now + rest == gone + (now + rest);
    }
  }

  /** Accepted messages are conserved: those on the wire, then those waiting, then those that were
      lost when the source popped an emptied queue, are what AsyncWrite accepted, in order.  So a
      refused status and a refused direct write lose nothing that was accepted. */
  lemma AcceptedAreConserved(fate: nat -> bool, maxSize: nat, es: seq<Event>)
    ensures Inv(Init(fate, maxSize))
    ensures var s0 := Init(fate, maxSize); var s := Exec(s0, es);
            && Accepted(s0, es) == MessagesOn(s.call.wire) + s.queue + Lost(s0, es)
            && (Lost(s0, es) != [] ==> s.mode.closed && s.queue == [] && s.final.None? && !fate(|MessagesOn(s.call.wire)|))
  {
    InitInv(fate, maxSize);
    var s0, s := Init(fate, maxSize), Exec(Init(fate, maxSize), es);
    RunBooks(s0, es);
    LostRun(s0, es, []);
    StartsAreNumbered(s0, es);
    WireCarriesHanded(s);
    hide Exec, Accepted, Lost, TagsOk, WireOk, MessagesOn;
    assert s.accepted == Accepted(s0, es);
    assert [] + Lost(s0, es) == Lost(s0, es);
    if Lost(s0, es) != [] {
      assert |s.accepted| > |s.handed|;
    }
  }

  lemma ClosedStep(s: State, e: Event)
    requires Inv(s) && s.mode.closed
    ensures var r := Next(s, e);
            r.mode.closed && r.accepted == s.accepted && r.handed == s.handed && r.call.wire == s.call.wire
  {
    hide TagsOk, WireOk, Call.After;
    if e.EvComplete? && e.id in s.call.pending { CompletionFindsOpenStream(s, e.id); }
  }

  /** A closed stream takes nothing more and sends nothing more. */
  lemma {:induction false} ClosedForGood(s: State, es: seq<Event>)
    requires Inv(s) && s.mode.closed
    ensures var r := Exec(s, es);
            r.mode.closed && r.accepted == s.accepted && r.handed == s.handed && r.call.wire == s.call.wire
    decreases |es|
  {
    hide Inv, Next;
    if es != [] {
      NextInv(s, es[0]);
      ClosedStep(s, es[0]);
      ClosedForGood(Next(s, es[0]), es[1..]);
    }
  }

  /** What one look at the object tells: a message is waiting only on an open stream with one write
      completion due, and an open stream has lost nothing. */
  lemma LookTells(s: State)
    requires Inv(s)
    ensures s.queue != [] ==> !s.mode.closed && |WriteTags(s)| == 1
    ensures s.mode.closed ==> s.queue == [] && WriteTags(s) == {}
    ensures !s.mode.closed ==> s.accepted == s.handed + s.queue
  {
    OutstandingWrite(s);
    hide TagsOk, WireOk;
  }

  // ----- The pop on an empty queue -----

  /** The source pops an empty queue after a write completion exactly when messages are waiting and
      the start of the first of them is refused. */
  lemma PopFindsEmptyQueueIff(s: State, e: Event)
    requires Inv(s) && WriteCompletion(s, e)
    ensures PopsEmptyQueue(s, e) <==> s.queue != [] && !s.call.WillStart()
  {
    CompletionFindsOpenStream(s, e.id);
    hide TagsOk, WireOk, Call.After;
  }

  /** The first message goes out at once, the second waits behind it. */
  lemma TwoWrites(fate: nat -> bool, maxSize: nat, a: string, b: string)
    requires fate(0)
    ensures Inv(Init(fate, maxSize))
    ensures var s0 := Init(fate, maxSize); var s := s0.AsyncWrite(a).AsyncWrite(b);
            && s == Exec(s0, [EvAsyncWrite(a), EvAsyncWrite(b)])
            && Accepted(s0, [EvAsyncWrite(a), EvAsyncWrite(b)]) == [a, b]
            && !s.mode.closed && s.queue == [b] && s.handed == [a] && s.accepted == [a, b]
            && s.writeId == Some(0) && s.call.next == 1 && s.call.fate == fate
            && WriteCompletion(s, EvComplete(0, true)) && WriteCompletion(s, EvComplete(0, false))
  {
    InitInv(fate, maxSize);
    hide TagsOk, WireOk, Call.After;
    var s0, es := Init(fate, maxSize), [EvAsyncWrite(a), EvAsyncWrite(b)];
    var s1 := Next(s0, es[0]);
    NextInv(s0, es[0]);
    NextInv(s1, es[1]);
    RunBooks(s0, es);
    assert es[1..] == [es[1]] && es[1..][1..] == [];
    assert Exec(s0, es) == Exec(s1, es[1..]) == Exec(Next(s1, es[1]), []);
  }

  /** Two messages, of which the second is refused: it waits behind the first, whose completion makes
      the source pop the emptied queue. */
  lemma SecondMessageRefused(fate: nat -> bool, maxSize: nat, a: string, b: string, success: bool)
    requires fate(0) && !fate(1)
    ensures Inv(Init(fate, maxSize))
    ensures var s0, es := Init(fate, maxSize), [EvAsyncWrite(a), EvAsyncWrite(b)];
            && Accepted(s0, es) == [a, b]
            && PopsEmptyQueue(Exec(s0, es), EvComplete(0, success))
            && MessagesOn(Next(Exec(s0, es), EvComplete(0, success)).call.wire) == [a]
            && Next(Exec(s0, es), EvComplete(0, success)).queue == []
  {
    TwoWrites(fate, maxSize, a, b);
    hide Exec, Accepted, State.AsyncWrite;
    var s := Exec(Init(fate, maxSize), [EvAsyncWrite(a), EvAsyncWrite(b)]);
    var done := EvComplete(0, success);
    PopFindsEmptyQueueIff(s, done);
    NextInv(s, done);
    WireCarriesHanded(Next(s, done));
    CompletionFindsOpenStream(s, 0);
    hide Inv, Call.After, WriteCompletion, MessagesOn;
  }

  /** The destructor runs when no write tag shares the object.  It finds the queue empty, and after
      its close the queue is still empty and the stream is closed. */
  lemma DestructorCloses(s: State, status: Status)
    requires Inv(s) && WriteTags(s) == {}
    ensures s.queue == []
    ensures s.AsyncClose(status).mode.closed && s.AsyncClose(status).queue == []
  {
    OutstandingWrite(s);
    hide TagsOk, WireOk;
  }
}
