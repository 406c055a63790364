/** The client-streaming writer as a state machine: one atomic step per method that holds the lock
    (src/client/impl/client_async_writer_impl.cc), and what holds in every run. */
module ClientWriterModel {
  import opened Grpc

  /** A user's close callback: its identity, and the calls it makes back into the writer. */
  datatype CloseCb = CloseCb(id: nat, script: seq<Api>)
  datatype Api = CallWrite(msg: string) | CallClose(cb: Option<CloseCb>)

  /** is_closing_, has_sent_close_, and whether the half-close was accepted. */
  datatype Gate = Gate(closing: bool, closeSent: bool, halfClosed: bool)

  datatype Fired = Fired(cb: CloseCb, status: Status, msg: string)

  const CLOSE_BATCH: Batch := [SendClose, RecvInitMd, RecvMsg, RecvStatus]

  /** status .. call are the fields of the source class.  The rest is history: the outstanding send
      or close tag, whether initial metadata was started, the messages pushed, started, completed
      and lost by a failed completion, whether the half-close was started, the callback of the
      effective Close and the callbacks made. */
  datatype State = State(
    status: Status,
    gate: Gate,
    closeCb: Option<CloseCb>,
    queue: seq<string>,
    call: Call,
    lane: Option<nat>,
    begun: bool,
    pushed: seq<string>,
    handed: seq<string>,
    done: seq<string>,
    lost: seq<string>,
    given: Option<CloseCb>,
    fired: seq<Fired>)
  {
    /** What a step leaves alone: the books of messages and the effective Close. */
    ghost predicate SameBooks(s: State) {
      && pushed == s.pushed && done == s.done && lost == s.lost
      && gate.closing == s.gate.closing && given == s.given
      && call.After(s.call)
    }

    function FireCb(msg: string): (r: State)
      ensures r.SameBooks(this)
    {
      if closeCb.None? then this
      else this.(fired := fired + [Fired(closeCb.value, status, msg)], closeCb := None)
    }

    function Fail(cause: Cause): (r: State)
      ensures r.SameBooks(this)
    {
      var s := this.(status := InternalError(cause));
      if gate.closing then s.FireCb("") else s
    }

    function SendNext(): (r: State)
      requires queue != [] && status.Ok()
      ensures r.SameBooks(this) && r.queue == queue
    {
      var s := this.(call := call.Launch(SendMsgTag(queue[0]), [SendMsg(queue[0])]));
      if call.WillStart() then s.(lane := Some(call.next), handed := handed + [queue[0]])
      else s.Fail(FailedToWriteClientStreaming)
    }

    function SendCloseBatch(): (r: State)
      requires gate.closing && !gate.closeSent && status.Ok()
      ensures r.SameBooks(this) && r.queue == queue
    {
      var s := this.(gate := gate.(closeSent := true), call := call.Launch(WriterCloseTag, CLOSE_BATCH));
      if call.WillStart() then s.(lane := Some(call.next), gate := s.gate.(halfClosed := true))
      else s.Fail(FailedToCloseClientStreaming)
    }

    predicate WriteResult() {
      status.Ok() && !gate.closing && (queue != [] || call.WillStart())
    }

    function Write(msg: string): (r: State)
      ensures r.done == done && r.lost == lost && r.gate.closing == gate.closing && r.given == given
      ensures r.call.After(call)
      ensures r.pushed == pushed + if status.Ok() && !gate.closing then [msg] else []
    {
      if !status.Ok() || gate.closing then this
      else
        var s := this.(queue := queue + [msg], pushed := pushed + [msg]);
        if queue != [] then s else s.SendNext()
    }

    function Close(cb: Option<CloseCb>): (r: State)
      requires gate.closeSent ==> gate.closing
      ensures r.pushed == pushed && r.done == done && r.lost == lost && r.call.After(call)
      ensures r.gate.closing && r.given == if gate.closing then given else cb
    {
      if gate.closing then this
      else
        var s := this.(gate := gate.(closing := true), closeCb := cb, given := cb);
        if !status.Ok() then s.FireCb("")
        else if queue == [] then s.SendCloseBatch()
        else s
    }

    function OnSent(success: bool): (r: State)
      requires queue != [] && (gate.closeSent ==> !status.Ok())
      ensures r.pushed == pushed && r.gate.closing == gate.closing && r.given == given
      ensures r.call.After(call)
      ensures r.queue == queue[1..]
      ensures r.done == done + (if success then [queue[0]] else [])
      ensures r.lost == lost + (if success then [] else [queue[0]])
    {
      var s := this.(queue := queue[1..], lane := None,
                     done := if success then done + [queue[0]] else done,
                     lost := if success then lost else lost + [queue[0]]);
      if !status.Ok() then s
      else if !success then s.Fail(FailedToSendMessage)
      else if s.queue != [] then s.SendNext()
      else if gate.closing then s.SendCloseBatch()
      else s
    }

    function OnClosed(o: Outcome): (r: State)
      ensures r.SameBooks(this) && r.queue == queue && r.lane.None?
    {
      var s := this.(lane := None);
      if !status.Ok() then s
      else if !o.status.Ok() then s.(status := o.status).FireCb("")
      else s.(status := ResultStatus(o.received)).FireCb(if o.received.Message? then o.received.msg else "")
    }

    function DoComplete(tag: Tag, o: Outcome): (r: State)
      requires tag.SendMsgTag? ==> queue != [] && (gate.closeSent ==> !status.Ok())
      ensures r.call.After(call)
    {
      match tag
      case SendMsgTag(_) => OnSent(o.success)
      case WriterCloseTag => OnClosed(o)
      case _ => this
    }
  }

  /** The constructor: it starts sending initial metadata. */
  function Init(fate: nat -> bool): State {
    var c := NewCall(fate);
    State(if c.WillStart() then OK else InternalError(FailedToInitClientStreaming),
          Gate(false, false, false), None, [], c.Launch(SendInitMdTag, [SendInitMd]),
          None, c.WillStart(), [], [], [], [], None, [])
  }

  // ----- The invariant -----

  /** At most one send or close tag is outstanding; a send tag carries the front of the queue. */
  ghost predicate TagsOk(c: Call, lane: Option<nat>, queue: seq<string>) {
    && c.Accounted()
    && (forall id :: id in c.pending ==>
          if lane == Some(id)
          then c.pending[id] == if queue != [] then SendMsgTag(queue[0]) else WriterCloseTag
          else c.pending[id] == SendInitMdTag)
    && (lane.Some? ==> lane.value in c.pending)
  }

  ghost predicate WireOk(wire: seq<Batch>, begun: bool, handed: seq<string>, halfClosed: bool) {
    wire == Trace(begun, handed, halfClosed)
  }

  ghost predicate Control(s: State) {
    && (s.gate.closeSent ==> s.gate.closing)
    && (s.gate.halfClosed ==> s.gate.closeSent && s.queue == [] && s.lost == [])
    && (if s.status.Ok() then
          && s.begun
          && (s.queue != [] ==> s.lane.Some?)
          && s.gate.closeSent == s.gate.halfClosed == (s.gate.closing && s.queue == [])
          && (s.lane.Some? && s.queue == [] ==> s.gate.closeSent)
        else
          s.lane.None?)
  }

  ghost predicate Books(s: State) {
    && s.pushed == s.done + s.lost + s.queue
    && |s.lost| <= 1
    && (s.status.Ok() ==> s.lost == [])
    && s.handed == s.done + s.lost + if s.status.Ok() && s.queue != [] then [s.queue[0]] else []
  }

  /** The callback handed to the effective Close is pending exactly while a send or close tag is
      outstanding on a healthy stream, and has otherwise been called once. */
  ghost predicate Callback(s: State) {
    if !s.gate.closing then s.given.None? && s.closeCb.None? && s.fired == []
    else if s.lane.Some? then s.closeCb == s.given && s.fired == []
    else
      && s.closeCb.None?
      && if s.given.None? then s.fired == []
         else |s.fired| == 1 && s.fired[0].cb == s.given.value && s.fired[0].status == s.status
  }

  function Frames(msgs: seq<string>): seq<Batch> {
    if msgs == [] then [] else Frames(msgs[..|msgs| - 1]) + [[SendMsg(msgs[|msgs| - 1])]]
  }

  function Trace(begun: bool, handed: seq<string>, halfClosed: bool): seq<Batch> {
    (if begun then [[SendInitMd]] else []) + Frames(handed) + if halfClosed then [CLOSE_BATCH] else []
  }

  /** The invariant up to the tag that the completion loop may be holding. */
  ghost predicate Core(s: State) {
    && TagsOk(s.call, s.lane, s.queue)
    && WireOk(s.call.wire, s.begun, s.handed, s.gate.halfClosed)
    && Control(s)
    && Books(s)
    && Callback(s)
  }

  ghost predicate Inv(s: State) { Core(s) && s.call.held == {} }

  /** A healthy stream between two batches: nothing in flight, nothing closed. */
  ghost predicate Resting(s: State) {
    && TagsOk(s.call, None, [])
    && s.status.Ok() && s.begun && s.lane.None?
    && !s.gate.closeSent && !s.gate.halfClosed
    && s.lost == [] && s.handed == s.done && s.pushed == s.done + s.queue
    && s.closeCb == s.given && s.fired == [] && (!s.gate.closing ==> s.given.None?)
    && WireOk(s.call.wire, true, s.handed, false)
  }

  // ----- Runs -----

  datatype Event =
    | EvWrite(msg: string)
    | EvClose(cb: Option<CloseCb>)
    | EvComplete(id: nat, outcome: Outcome)

  /** gRPC supplies a response buffer whenever the received status is OK. */
  predicate Possible(tag: Tag, o: Outcome) {
    tag.WriterCloseTag? && o.status.Ok() ==> !o.received.EndOfStream?
  }

  predicate Delivers(s: State, e: Event) {
    e.EvComplete? && e.id in s.call.pending && Possible(s.call.pending[e.id], e.outcome)
  }

  /** One completion: the queue gives the tag out, its effect runs, the loop deletes it. */
  function Deliver(s: State, id: nat, o: Outcome): State
    requires Inv(s) && id in s.call.pending
  {
    var tag := s.call.pending[id];
    var s' := s.(call := s.call.Take(id)).DoComplete(tag, o);
    s'.(call := s'.call.Delete(id))
  }

  /** One atomic step.  A completion that cannot happen leaves the state alone. */
  function Next(s: State, e: Event): State
    requires Inv(s)
  {
    match e
    case EvWrite(msg) => s.Write(msg)
    case EvClose(cb) => s.Close(cb)
    case EvComplete(id, o) => if Delivers(s, e) then Deliver(s, id, o) else s
  }

  lemma FramesSnoc(msgs: seq<string>, m: string)
    ensures Frames(msgs + [m]) == Frames(msgs) + [[SendMsg(m)]]
  {
    assert (msgs + [m])[..|msgs|] == msgs;
  }

  lemma SendNextFromRest(s: State)
    requires Resting(s) && s.queue != []
    ensures Core(s.SendNext()) && s.SendNext().call.held == s.call.held
  {
    if s.call.WillStart() { FramesSnoc(s.handed, s.queue[0]); }
  }

  lemma SendCloseFromRest(s: State)
    requires Resting(s) && s.queue == [] && s.gate.closing
    ensures Core(s.SendCloseBatch()) && s.SendCloseBatch().call.held == s.call.held
  {
  }

  lemma InitInv(fate: nat -> bool)
    ensures Inv(Init(fate))
  {
  }

  lemma WriteInv(s: State, msg: string)
    requires Inv(s)
    ensures Inv(s.Write(msg))
  {
    hide TagsOk, WireOk;
    if s.status.Ok() && !s.gate.closing {
      if s.queue == [] {
        var first := s.(queue := [msg], pushed := s.pushed + [msg]);
        assert Resting(first);
        SendNextFromRest(first);
        assert s.Write(msg) == first.SendNext();
      } else {
        EnqueueInv(s, msg);
      }
    }
  }

  lemma EnqueueInv(s: State, msg: string)
    requires Inv(s) && s.status.Ok() && !s.gate.closing && s.queue != []
    ensures Inv(s.(queue := s.queue + [msg], pushed := s.pushed + [msg]))
  {
    hide WireOk;
  }

  lemma CloseInv(s: State, cb: Option<CloseCb>)
    requires Inv(s)
    ensures Inv(s.Close(cb))
  {
    hide TagsOk, WireOk;
    if !s.gate.closing && s.status.Ok() && s.queue == [] {
      SendCloseFromRest(s.(gate := s.gate.(closing := true), closeCb := cb, given := cb));
    }
  }

  function Popped(s: State, id: nat): State
    requires id in s.call.pending && s.queue != []
  {
    s.(call := s.call.Take(id), queue := s.queue[1..], lane := None, done := s.done + [s.queue[0]])
  }

  lemma PoppedRests(s: State, id: nat)
    requires Core(s) && s.lane == Some(id) && id in s.call.pending && s.queue != []
    ensures Resting(Popped(s, id))
  {
    hide WireOk;
    assert s.queue == [s.queue[0]] + s.queue[1..];
  }

  lemma OnSentCore(s: State, id: nat, success: bool)
    requires Core(s) && s.lane == Some(id) && id in s.call.pending && s.queue != []
    ensures var r := s.(call := s.call.Take(id)).OnSent(success);
            Core(r) && r.call.held == s.call.held + {id}
  {
    hide TagsOk, WireOk;
    if success {
      PoppedRests(s, id);
      var rest := Popped(s, id);
      if rest.queue != [] { SendNextFromRest(rest); }
      else if s.gate.closing { SendCloseFromRest(rest); }
    } else {
      SendFailedCore(s, id);
    }
  }

  lemma SendFailedCore(s: State, id: nat)
    requires Core(s) && s.lane == Some(id) && id in s.call.pending && s.queue != []
    ensures var r := s.(call := s.call.Take(id)).OnSent(false);
            Core(r) && r.call.held == s.call.held + {id}
  {
    hide WireOk;
    var r := s.(call := s.call.Take(id)).OnSent(false);
    assert Books(r) by { assert s.queue == [s.queue[0]] + r.queue; }
  }

  lemma OnClosedCore(s: State, id: nat, o: Outcome)
    requires Core(s) && s.lane == Some(id) && id in s.call.pending && s.queue == []
    requires Possible(WriterCloseTag, o)
    ensures var r := s.(call := s.call.Take(id)).OnClosed(o);
            Core(r) && r.call.held == s.call.held + {id}
  {
    hide WireOk;
  }

  lemma InitMdCore(s: State, id: nat)
    requires Core(s) && s.lane != Some(id) && id in s.call.pending
    ensures s.call.pending[id] == SendInitMdTag
    ensures Core(s.(call := s.call.Take(id)))
  {
    hide WireOk;
  }

  /** What the source asserts when a completion comes in. */
  lemma CompletionAsserts(s: State, id: nat)
    requires Inv(s) && id in s.call.pending
    ensures s.call.Accounted()
    ensures s.call.pending[id].SendMsgTag? ==> s.status.Ok() && !s.gate.closeSent
    ensures s.call.pending[id].WriterCloseTag? ==> s.status.Ok() && s.gate.closing
    ensures s.call.pending[id] ==
            if s.lane != Some(id) then SendInitMdTag
            else if s.queue != [] then SendMsgTag(s.queue[0])
            else WriterCloseTag
  {
    hide WireOk;
  }

  lemma DeliverInv(s: State, id: nat, o: Outcome)
    requires Inv(s) && id in s.call.pending && Possible(s.call.pending[id], o)
    ensures Inv(Deliver(s, id, o))
  {
    hide TagsOk, WireOk;
    CompletionAsserts(s, id);
    var taken := s.(call := s.call.Take(id));
    if s.lane != Some(id) {
      InitMdCore(s, id);
      ReleaseInv(taken, id);
    } else if s.queue != [] {
      OnSentCore(s, id, o.success);
      ReleaseInv(taken.OnSent(o.success), id);
    } else {
      OnClosedCore(s, id, o);
      ReleaseInv(taken.OnClosed(o), id);
    }
  }

  lemma ReleaseInv(s: State, id: nat)
    requires Core(s) && s.call.held == {id}
    ensures Inv(s.(call := s.call.Delete(id)))
  {
    hide WireOk;
    assert {id} - {id} == {};
  }

  lemma NextInv(s: State, e: Event)
    requires Inv(s)
    ensures Inv(Next(s, e))
  {
    hide Core;
    match e
    case EvWrite(msg) => WriteInv(s, msg);
    case EvClose(cb) => CloseInv(s, cb);
    case EvComplete(id, o) => if Delivers(s, e) { DeliverInv(s, id, o); }
  }

  function Exec(s: State, es: seq<Event>): (r: State)
    requires Inv(s)
    ensures Inv(r)
    decreases |es|
  {
    if es == [] then s
    else
      NextInv(s, es[0]);
      Exec(Next(s, es[0]), es[1..])
  }

  // ----- What every run keeps -----

  lemma FramesAt(msgs: seq<string>)
    ensures |Frames(msgs)| == |msgs|
    ensures forall i :: 0 <= i < |msgs| ==> Frames(msgs)[i] == [SendMsg(msgs[i])]
  {
    if msgs != [] { FramesAt(msgs[..|msgs| - 1]); }
  }

  lemma {:induction false} FramesCarry(begun: bool, msgs: seq<string>)
    ensures MessagesOn(Trace(begun, msgs, false)) == msgs
    decreases |msgs|
  {
    if msgs == [] {
      assert begun ==> Trace(begun, msgs, false) == [] + [[SendInitMd]];
    } else {
      var init, last := msgs[..|msgs| - 1], msgs[|msgs| - 1];
      FramesCarry(begun, init);
      TraceSnoc(begun, init, last);
      hide Trace, Frames, MessagesOn;
      assert msgs == init + [last];
      MessagesOnSnoc(Trace(begun, init, false), [SendMsg(last)]);
    }
  }

  lemma TraceSnoc(begun: bool, msgs: seq<string>, m: string)
    ensures Trace(begun, msgs + [m], false) == Trace(begun, msgs, false) + [[SendMsg(m)]]
  {
    FramesSnoc(msgs, m);
  }

  /** A trace, operation by operation. */
  lemma TraceShape(begun: bool, msgs: seq<string>, halfClosed: bool)
    ensures var wire := Trace(begun, msgs, halfClosed); var first := if begun then 1 else 0;
            && MessagesOn(wire) == msgs
            && |wire| == first + |msgs| + (if halfClosed then 1 else 0)
            && (begun ==> wire[0] == [SendInitMd])
            && (forall i :: 0 <= i < |msgs| ==> wire[first + i] == [SendMsg(msgs[i])])
            && (halfClosed ==> wire[|wire| - 1] == [SendClose, RecvInitMd, RecvMsg, RecvStatus])
  {
    FramesAt(msgs);
    FramesCarry(begun, msgs);
    var open := Trace(begun, msgs, false);
    if halfClosed {
      assert Trace(begun, msgs, true) == open + [CLOSE_BATCH];
      MessagesOnSnoc(open, CLOSE_BATCH);
    } else {
      assert Trace(begun, msgs, halfClosed) == open;
    }
  }

  /** A step that starts the half-close: the first Close on an empty queue, or the last send's
      completion after Close; and the start is accepted. */
  predicate StartsClose(s: State, e: Event) {
    && s.status.Ok() && s.call.WillStart()
    && match e
       case EvWrite(_) => false
       case EvClose(_) => !s.gate.closing && s.queue == []
       case EvComplete(id, o) =>
         Delivers(s, e) && s.call.pending[id].SendMsgTag? && o.success && s.gate.closing && |s.queue| == 1
  }

  predicate ClosesOut(s: State, es: seq<Event>)
    requires Inv(s)
    decreases |es|
  {
    es != [] && (StartsClose(s, es[0]) || (NextInv(s, es[0]); ClosesOut(Next(s, es[0]), es[1..])))
  }

  lemma StepCloses(s: State, e: Event)
    requires Inv(s)
    ensures Next(s, e).gate.halfClosed <==> s.gate.halfClosed || StartsClose(s, e)
    ensures Next(s, e).begun == s.begun && Next(s, e).call.fate == s.call.fate
    ensures !s.status.Ok() ==> Next(s, e).status == s.status && Next(s, e).handed == s.handed && !StartsClose(s, e)
  {
    hide TagsOk, WireOk, Books, Callback, State.SameBooks, Call.After;
    if e.EvComplete? && e.id in s.call.pending { CompletionAsserts(s, e.id); }
  }

  lemma {:induction false} RunCloses(s: State, es: seq<Event>)
    requires Inv(s)
    ensures Exec(s, es).gate.halfClosed <==> s.gate.halfClosed || ClosesOut(s, es)
    ensures Exec(s, es).begun == s.begun && Exec(s, es).call.fate == s.call.fate
    ensures !s.status.Ok() ==> Exec(s, es).status == s.status && Exec(s, es).handed == s.handed && !ClosesOut(s, es)
    decreases |es|
  {
    hide Inv, Next, StartsClose;
    if es != [] {
      NextInv(s, es[0]);
      StepCloses(s, es[0]);
      RunCloses(Next(s, es[0]), es[1..]);
    }
  }

  predicate HalfCloses(b: Batch) { SendClose in b }

  lemma BatchesDiffer(msg: string)
    ensures !HalfCloses([SendMsg(msg)]) && SendInitMd !in [SendMsg(msg)]
    ensures !HalfCloses([SendInitMd]) && SendInitMd in [SendInitMd]
    ensures var close := [SendClose, RecvInitMd, RecvMsg, RecvStatus];
            HalfCloses(close) && SendInitMd !in close
  {
    assert [SendClose, RecvInitMd, RecvMsg, RecvStatus][0] == SendClose;
  }

  lemma TraceInOps(begun: bool, msgs: seq<string>, halfClosed: bool)
    requires !begun ==> msgs == [] && !halfClosed
    ensures var wire := Trace(begun, msgs, halfClosed);
            && (wire != [] <==> begun) && (begun ==> wire[0] == [SendInitMd])
            && (forall i :: 0 <= i < |wire| ==> (SendInitMd in wire[i] <==> i == 0))
            && (forall i :: 0 <= i < |wire| ==> (HalfCloses(wire[i]) <==> halfClosed && i == |wire| - 1))
  {
    TraceShape(begun, msgs, halfClosed);
    hide Trace, HalfCloses, MessagesOn;
    var wire := Trace(begun, msgs, halfClosed);
    forall i | 0 <= i < |wire|
      ensures SendInitMd in wire[i] <==> i == 0
      ensures HalfCloses(wire[i]) <==> halfClosed && i == |wire| - 1
    {
      BatchesDiffer("");
      if 1 <= i < 1 + |msgs| {
        assert wire[1 + (i - 1)] == [SendMsg(msgs[i - 1])];
        BatchesDiffer(msgs[i - 1]);
      }
    }
  }

  lemma WireOfInv(s: State)
    requires Inv(s)
    ensures s.call.wire == Trace(s.begun, s.handed, s.gate.halfClosed)
    ensures s.handed <= s.pushed
    ensures s.gate.halfClosed ==> s.handed == s.done == s.pushed && s.queue == []
  {
    hide TagsOk, Callback, Trace;
    if s.queue != [] { assert s.queue == [s.queue[0]] + s.queue[1..]; }
  }

  /** Every run, in the operations that reach gRPC: initial metadata stands alone in the first batch,
      if that start was accepted, and nowhere else; the batches between carry one message each, a
      prefix of those pushed; and a half-close, which is on the wire exactly when a step started it,
      stands once, in the last batch, together with the receipt of metadata, response and status, and
      only when every message ever pushed has completed successfully. */
  lemma HalfCloseComesLastAndOnce(fate: nat -> bool, es: seq<Event>)
    ensures Inv(Init(fate))
    ensures var s0 := Init(fate); var s := Exec(s0, es); var wire := s.call.wire;
            && MessagesOn(wire) <= Pushed(s0, es)
            && (wire != [] <==> fate(0))
            && (forall i :: 0 <= i < |wire| ==> (SendInitMd in wire[i] <==> i == 0))
            && (fate(0) ==> wire[0] == [SendInitMd])
            && (forall i :: 0 <= i < |wire| && HalfCloses(wire[i]) ==>
                  && i == |wire| - 1 && wire[i] == [SendClose, RecvInitMd, RecvMsg, RecvStatus]
                  && MessagesOn(wire) == Pushed(s0, es) == Completed(s0, es, true) && s.queue == [])
            && ((exists i :: 0 <= i < |wire| && HalfCloses(wire[i])) <==> ClosesOut(s0, es))
  {
    InitInv(fate);
    var s0, s := Init(fate), Exec(Init(fate), es);
    RunCloses(s0, es);
    RunBooks(s0, es);
    WireOfInv(s);
    TraceInOps(s.begun, s.handed, s.gate.halfClosed);
    TraceShape(s.begun, s.handed, s.gate.halfClosed);
    assert s.pushed == Pushed(s0, es) && s.done == Completed(s0, es, true) && s.begun == fate(0);
    hide Exec, Inv, Pushed, Completed, ClosesOut, MessagesOn, Trace, HalfCloses;
  }

  /** The messages that Write pushed, read off the run. */
  function Pushed(s: State, es: seq<Event>): seq<string>
    requires Inv(s)
    decreases |es|
  {
    if es == [] then []
    else
      NextInv(s, es[0]);
      (if es[0].EvWrite? && s.status.Ok() && !s.gate.closing then [es[0].msg] else []) + Pushed(Next(s, es[0]), es[1..])
  }

  /** The messages whose send completed with the given flag, read off the run. */
  function Completed(s: State, es: seq<Event>, success: bool): seq<string>
    requires Inv(s)
    decreases |es|
  {
    if es == [] then []
    else
      NextInv(s, es[0]);
      (if Delivers(s, es[0]) && s.call.pending[es[0].id].SendMsgTag? && es[0].outcome.success == success
       then [s.call.pending[es[0].id].msg] else []) + Completed(Next(s, es[0]), es[1..], success)
  }

  lemma StepBooks(s: State, e: Event)
    requires Inv(s)
    ensures Next(s, e).pushed == s.pushed + if e.EvWrite? && s.status.Ok() && !s.gate.closing then [e.msg] else []
    ensures var sent := Delivers(s, e) && s.call.pending[e.id].SendMsgTag?;
            && Next(s, e).done == s.done + (if sent && e.outcome.success then [s.call.pending[e.id].msg] else [])
            && Next(s, e).lost == s.lost + (if sent && !e.outcome.success then [s.call.pending[e.id].msg] else [])
  {
    hide Core, State.Write, State.Close, State.OnSent, State.OnClosed;
    if e.EvComplete? && e.id in s.call.pending { CompletionAsserts(s, e.id); }
  }

  lemma {:induction false} RunBooks(s: State, es: seq<Event>)
    requires Inv(s)
    ensures Exec(s, es).pushed == s.pushed + Pushed(s, es)
    ensures Exec(s, es).done == s.done + Completed(s, es, true)
    ensures Exec(s, es).lost == s.lost + Completed(s, es, false)
    decreases |es|
  {
    hide Next, Inv, Delivers;
    if es != [] {
      NextInv(s, es[0]);
      StepBooks(s, es[0]);
      RunBooks(Next(s, es[0]), es[1..]);
    }
  }

  /** Nothing is lost, duplicated or reordered: what completed successfully, then at most one
      message popped on a failed completion, then the queue, is what Write pushed. */
  lemma MessagesConserved(fate: nat -> bool, es: seq<Event>)
    ensures Inv(Init(fate))
    ensures var s0 := Init(fate);
            && Pushed(s0, es) == Completed(s0, es, true) + Completed(s0, es, false) + Exec(s0, es).queue
            && |Completed(s0, es, false)| <= 1
  {
    hide Exec, Pushed, Completed, TagsOk, WireOk, Callback, Control;
    InitInv(fate);
    RunBooks(Init(fate), es);
    var s0, s := Init(fate), Exec(Init(fate), es);
    assert s.pushed == Pushed(s0, es) && s.done == Completed(s0, es, true) && s.lost == Completed(s0, es, false);
  }

  /** The callback of the first Close of a run, if there is one. */
  function FirstClose(es: seq<Event>): Option<Option<CloseCb>> {
    if es == [] then None
    else if es[0].EvClose? then Some(es[0].cb)
    else FirstClose(es[1..])
  }

  lemma StepClosing(s: State, e: Event)
    requires Inv(s)
    ensures Next(s, e).gate.closing == (s.gate.closing || e.EvClose?)
    ensures Next(s, e).given == if s.gate.closing || !e.EvClose? then s.given else e.cb
  {
    hide Core, State.Write, State.Close, State.OnSent, State.OnClosed;
    if e.EvComplete? && e.id in s.call.pending { CompletionAsserts(s, e.id); }
  }

  lemma {:induction false} GivenByFirstClose(s: State, es: seq<Event>)
    requires Inv(s)
    ensures Exec(s, es).gate.closing == (s.gate.closing || FirstClose(es).Some?)
    ensures Exec(s, es).given == if s.gate.closing || FirstClose(es).None? then s.given else FirstClose(es).value
    decreases |es|
  {
    hide Inv, Next;
    if es != [] {
      NextInv(s, es[0]);
      StepClosing(s, es[0]);
      GivenByFirstClose(Next(s, es[0]), es[1..]);
    }
  }

  /** The outstanding tags other than the initial-metadata tag. */
  ghost function Outstanding(s: State): set<nat> {
    set id | id in s.call.pending && s.call.pending[id] != SendInitMdTag
  }

  /** The close callback of the first Close is pending exactly while the status is OK and exactly
      one send or close tag is outstanding; at all other times it has been called exactly once,
      with the status the stream ended with.  No other Close callback is ever called. */
  lemma CloseCallbackOnce(fate: nat -> bool, es: seq<Event>)
    ensures Inv(Init(fate))
    ensures var s := Exec(Init(fate), es);
            && |Outstanding(s)| <= 1
            && (Outstanding(s) != {} ==> s.status.Ok())
            && match FirstClose(es)
               case None => s.closeCb.None? && s.fired == []
               case Some(None) => s.closeCb.None? && s.fired == []
               case Some(Some(cb)) =>
                 if |Outstanding(s)| == 1
                 then s.closeCb == Some(cb) && s.fired == []
                 else s.closeCb.None? && |s.fired| == 1 && s.fired[0].cb == cb && s.fired[0].status == s.status
  {
    InitInv(fate);
    GivenByFirstClose(Init(fate), es);
    var s := Exec(Init(fate), es);
    if s.lane.Some? {
      assert Outstanding(s) == {s.lane.value};
    } else {
      assert Outstanding(s) == {};
    }
  }

  /** No send or close completion ever finds the stream already failed. */
  lemma CompletionsFindHealthyStream(fate: nat -> bool, es: seq<Event>, id: nat)
    ensures Inv(Init(fate))
    ensures var s := Exec(Init(fate), es);
            id in s.call.pending && s.call.pending[id] != SendInitMdTag ==>
              s.status.Ok() && (s.call.pending[id].SendMsgTag? ==> s.queue != [] && s.call.pending[id].msg == s.queue[0])
  {
    InitInv(fate);
  }

  /** The close callback gets the status of the stream and, if the half-close completed with an OK
      status and a readable response, that response. */
  lemma CallbackTellsResponse(s: State, e: Event)
    requires Inv(s) && Next(s, e).fired != s.fired
    ensures var r := Next(s, e);
            var closed := Delivers(s, e) && s.call.pending[e.id].WriterCloseTag?;
            && r.fired == [Fired(r.given.value, r.status, if closed && e.outcome.status.Ok() && e.outcome.received.Message?
                                                          then e.outcome.received.msg else "")]
            && (closed && !e.outcome.status.Ok() ==> r.status == e.outcome.status)
            && (r.status.Ok() ==> closed && e.outcome.status.Ok() && e.outcome.received.Message?)
  {
    hide TagsOk, WireOk, Books, State.SameBooks, Call.After;
    if e.EvComplete? && e.id in s.call.pending { CompletionAsserts(s, e.id); }
  }

  // ----- The status as a function of the events -----

  /** The error that a step meets on a healthy stream: a refused start, a failed send, and, once the
      half-close has completed, the received status or an unreadable response. */
  function StepError(s: State, e: Event): Option<Status> {
    match e
    case EvWrite(_) =>
      if s.gate.closing || s.queue != [] || s.call.WillStart() then None else Some(InternalError(FailedToWriteClientStreaming))
    case EvClose(_) =>
      if s.gate.closing || s.queue != [] || s.call.WillStart() then None else Some(InternalError(FailedToCloseClientStreaming))
    case EvComplete(id, o) =>
      if !Delivers(s, e) then None
      else match s.call.pending[id]
           case SendMsgTag(_) =>
             if !o.success then Some(InternalError(FailedToSendMessage))
             else if s.call.WillStart() then None
             else if |s.queue| > 1 then Some(InternalError(FailedToWriteClientStreaming))
             else if s.gate.closing then Some(InternalError(FailedToCloseClientStreaming))
             else None
           case WriterCloseTag =>
             if !o.status.Ok() then Some(o.status)
             else if o.received.Message? then None
             else Some(InternalError(FailedToReadRecvBuffer))
           case _ => None
  }

  function FirstError(s: State, es: seq<Event>): Option<Status>
    requires Inv(s)
    decreases |es|
  {
    if es == [] then None
    else if StepError(s, es[0]).Some? then StepError(s, es[0])
    else
      NextInv(s, es[0]);
      FirstError(Next(s, es[0]), es[1..])
  }

  lemma StepStatus(s: State, e: Event)
    requires Inv(s) && s.status == OK
    ensures Next(s, e).status == if StepError(s, e).Some? then StepError(s, e).value else OK
    ensures StepError(s, e).Some? ==> !StepError(s, e).value.Ok()
  {
    hide TagsOk, WireOk, Books, Callback, State.SameBooks, Call.After;
    if e.EvComplete? && e.id in s.call.pending { CompletionAsserts(s, e.id); }
  }

  lemma {:induction false} RunStatus(s: State, es: seq<Event>)
    requires Inv(s) && s.status == OK
    ensures Exec(s, es).status == if FirstError(s, es).Some? then FirstError(s, es).value else OK
    decreases |es|
  {
    hide Inv, Next, StepError;
    if es != [] {
      NextInv(s, es[0]);
      StepStatus(s, es[0]);
      if StepError(s, es[0]).Some? {
        RunCloses(Next(s, es[0]), es[1..]);
      } else {
        RunStatus(Next(s, es[0]), es[1..]);
      }
    }
  }

  /** In every run the stream has the first error that it met, the refused start of its constructor
      included, and no other status; and that is what the close callback is told. */
  lemma StatusIsFirstError(fate: nat -> bool, es: seq<Event>)
    ensures Inv(Init(fate))
    ensures var s0 := Init(fate); var s := Exec(s0, es);
            && s.status == (if !fate(0) then InternalError(FailedToInitClientStreaming)
                            else if FirstError(s0, es).Some? then FirstError(s0, es).value else OK)
            && (s.fired != [] ==> s.fired[0].status == s.status)
  {
    InitInv(fate);
    var s0, s := Init(fate), Exec(Init(fate), es);
    if fate(0) { RunStatus(s0, es); } else { RunCloses(s0, es); }
    hide TagsOk, WireOk, Books, Exec, FirstError;
  }

  // ----- Draining after Close -----

  /** How many more send or close completions a closed stream can see. */
  function Budget(s: State): nat {
    if s.lane.None? then 0 else |s.queue| + 1
  }

  predicate LaneCompletion(s: State, e: Event) {
    Delivers(s, e) && s.call.pending[e.id] != SendInitMdTag
  }

  function LaneCompletions(s: State, es: seq<Event>): nat
    requires Inv(s)
    decreases |es|
  {
    if es == [] then 0
    else
      NextInv(s, es[0]);
      (if LaneCompletion(s, es[0]) then 1 else 0) + LaneCompletions(Next(s, es[0]), es[1..])
  }

  lemma BudgetFalls(s: State, e: Event)
    requires Inv(s) && s.gate.closing
    ensures Next(s, e).gate.closing
    ensures if LaneCompletion(s, e) then Budget(Next(s, e)) < Budget(s) else Budget(Next(s, e)) == Budget(s)
  {
    hide WireOk, Books, Callback;
  }

  lemma {:induction false} BudgetBoundsRun(s: State, es: seq<Event>)
    requires Inv(s) && s.gate.closing
    ensures Budget(Exec(s, es)) + LaneCompletions(s, es) <= Budget(s)
    decreases |es|
  {
    hide Next, Inv, LaneCompletion, Budget;
    if es != [] {
      NextInv(s, es[0]);
      BudgetFalls(s, es[0]);
      BudgetBoundsRun(Next(s, es[0]), es[1..]);
    }
  }

  /** After Close on a healthy stream the callback fires within |queue| + 1 send or close
      completions, whatever else happens in between; and until then a completion is due. */
  lemma DrainsAfterClose(s: State, cb: CloseCb, es: seq<Event>)
    requires Inv(s) && s.status.Ok() && !s.gate.closing
    ensures Inv(s.Close(Some(cb)))
    ensures var r := Exec(s.Close(Some(cb)), es);
            && LaneCompletions(s.Close(Some(cb)), es) <= |s.queue| + 1
            && (LaneCompletions(s.Close(Some(cb)), es) == |s.queue| + 1 ==> |r.fired| == 1 && r.fired[0].cb == cb)
            && (r.fired == [] ==> exists e :: LaneCompletion(r, e))
  {
    var closed := s.Close(Some(cb));
    CloseInv(s, Some(cb));
    BudgetBoundsRun(closed, es);
    var r := Exec(closed, es);
    GivenStays(closed, es);
    if r.fired == [] {
      assert LaneCompletion(r, EvComplete(r.lane.value, Outcome(false, Message(""), OK, OK)));
    }
  }

  lemma {:induction false} GivenStays(s: State, es: seq<Event>)
    requires Inv(s) && s.gate.closing
    ensures Exec(s, es).gate.closing && Exec(s, es).given == s.given
  {
    GivenByFirstClose(s, es);
  }

  // ----- Re-entry -----

  /** The calls a close callback makes back into the writer. */
  function Reenter(s: State, script: seq<Api>): State
    requires s.gate.closing
    decreases |script|
  {
    if script == [] then s
    else
      var s' := match script[0]
                case CallWrite(msg) => s.Write(msg)
                case CallClose(cb) => s.Close(cb);
      Reenter(s', script[1..])
  }

  /** A close callback runs only after Close, and then calling back into the writer does nothing. */
  lemma {:induction false} ReentryIsHarmless(s: State, script: seq<Api>)
    requires s.gate.closing
    ensures Reenter(s, script) == s
    decreases |script|
  {
    if script != [] { ReentryIsHarmless(s, script[1..]); }
  }
}
