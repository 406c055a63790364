/** The client's asynchronous reader as a state machine: a chain in which every read arms the next
    one (src/client/impl/client_async_reader_impl.cc). */
module ClientReaderModel {
  import opened Grpc

  /** What the user's callbacks see. */
  datatype Note = Shown(msg: string) | Ended(cb: nat, status: Status)

  /** status .. call are the fields of the source class.  The rest is history: the outstanding read
      and receive-status tags, the status callback of the effective Start, the callbacks made, the
      messages decoded, and the status the chain ended with. */
  datatype State = State(
    request: string,
    status: Status,
    started: bool,
    msgCb: Option<nat>,
    statusCb: Option<nat>,
    call: Call,
    readId: Option<nat>,
    recvId: Option<nat>,
    given: Option<nat>,
    trace: seq<Note>,
    arrived: seq<string>,
    final: Option<Status>)
  {
    /** The chain ends with a status; the callback, if any, is told. */
    function End(cb: Option<nat>, st: Status): State {
      this.(final := Some(st), trace := if cb.None? then trace else trace + [Ended(cb.value, st)])
    }

    function CallStatusCb(): State { End(statusCb, status).(statusCb := None) }

    function Fail(error: Status): State { this.(status := error).CallStatusCb() }

    function ReadNext(): (r: State)
      requires status.Ok()
      ensures r.call.After(call)
    {
      var s := this.(call := call.Launch(ReadTag, [RecvMsg]));
      if call.WillStart() then s.(readId := Some(call.next))
      else s.Fail(InternalError(FailedToReadServerStreaming))
    }

    function Start(msg: Option<nat>, st: Option<nat>): (r: State)
      requires !started ==> status.Ok()
      ensures r.call.After(call)
    {
      if started then this
      else
        var s := this.(started := true, msgCb := msg, statusCb := st, given := st,
                       call := call.Launch(ReaderInitTag, InitBatch(request)));
        if call.WillStart() then s.ReadNext()
        else s.Fail(InternalError(FailedToStartAsyncReader))
    }

    function RecvStatus(): (r: State)
      ensures r.call.After(call)
    {
      var s := this.(call := call.Launch(RecvStatusTag(statusCb), [Op.RecvStatus]));
      if call.WillStart() then s.(recvId := Some(call.next))
      else s.End(statusCb, InternalError(FailedToReceiveStatus))
    }

    function OnRead(o: Outcome): (r: State)
      requires status.Ok()
      ensures r.call.After(call)
    {
      var s := this.(readId := None);
      if !o.success then s.Fail(InternalError(ClientReaderReadCqTagFailed))
      else match o.received
           case EndOfStream => s.RecvStatus()
           case Garbled => s.Fail(ResultStatus(Garbled))
           case Message(msg) =>
             var got := s.(status := OK, arrived := arrived + [msg]);
             if msgCb.None? then got.ReadNext()
             else
               var shown := got.(status := o.verdict, trace := trace + [Shown(msg)]);
               if o.verdict.Ok() then shown.ReadNext() else shown.CallStatusCb()
    }

    function OnRecvStatus(cb: Option<nat>, o: Outcome): (r: State)
      ensures r.call == call
    {
      this.(recvId := None).End(cb, if o.success then o.status else InternalError(FailedToReceiveStatus))
    }

    function DoComplete(tag: Tag, o: Outcome): (r: State)
      requires tag.ReadTag? ==> status.Ok()
      ensures r.call.After(call)
    {
      match tag
      case ReadTag => OnRead(o)
      case RecvStatusTag(cb) => OnRecvStatus(cb, o)
      case _ => this
    }
  }

  function InitBatch(request: string): Batch {
    [SendMsg(request), SendInitMd, RecvInitMd, SendClose]
  }

  function Init(fate: nat -> bool, request: string): State {
    State(request, OK, false, None, None, NewCall(fate), None, None, None, [], [], None)
  }

  // ----- The invariant -----

  function Notes(msgs: seq<string>): seq<Note> {
    seq(|msgs|, i requires 0 <= i < |msgs| => Shown(msgs[i]))
  }

  ghost predicate TagsOk(c: Call, readId: Option<nat>, recvId: Option<nat>, given: Option<nat>) {
    && c.Accounted()
    && (forall id :: id in c.pending ==>
          if readId == Some(id) then c.pending[id] == ReadTag
          else if recvId == Some(id) then c.pending[id] == RecvStatusTag(given)
          else c.pending[id] == ReaderInitTag)
    && (readId.Some? ==> readId.value in c.pending && recvId.None?)
    && (recvId.Some? ==> recvId.value in c.pending)
  }

  /** The callbacks so far: the decoded messages in order, then the end once it has come. */
  ghost predicate TraceOk(trace: seq<Note>, msgCb: Option<nat>, arrived: seq<string>, given: Option<nat>, final: Option<Status>) {
    trace == (if msgCb.Some? then Notes(arrived) else [])
             + (if final.Some? && given.Some? then [Ended(given.value, final.value)] else [])
  }

  ghost predicate Core(s: State) {
    && TagsOk(s.call, s.readId, s.recvId, s.given)
    && TraceOk(s.trace, s.msgCb, s.arrived, s.given, s.final)
    && (!s.started ==> s.status.Ok() && s.readId.None? && s.recvId.None? && s.final.None? && s.arrived == [])
    && (s.started ==> (s.final.None? <==> s.readId.Some? || s.recvId.Some?))
    && (s.readId.Some? ==> s.status.Ok() && s.statusCb == s.given)
  }

  ghost predicate Inv(s: State) { Core(s) && s.call.held == {} }

  /** A chain that is about to start its next operation. */
  ghost predicate Armed(s: State) {
    && TagsOk(s.call, None, None, s.given)
    && TraceOk(s.trace, s.msgCb, s.arrived, s.given, None)
    && s.started && s.readId.None? && s.recvId.None? && s.final.None? && s.statusCb == s.given
  }

  lemma FailCore(s: State, error: Status)
    requires Armed(s)
    ensures Core(s.Fail(error)) && s.Fail(error).call == s.call
  {
    hide Notes;
  }

  lemma ReadNextCore(s: State)
    requires Armed(s) && s.status.Ok()
    ensures Core(s.ReadNext())
  {
    hide Notes;
    if !s.call.WillStart() {
      FailCore(s.(call := s.call.Launch(ReadTag, [RecvMsg])), InternalError(FailedToReadServerStreaming));
    }
  }

  lemma RecvStatusCore(s: State)
    requires Armed(s)
    ensures Core(s.RecvStatus())
  {
    hide Notes;
  }

  lemma StartCore(s: State, msg: Option<nat>, st: Option<nat>)
    requires Core(s)
    ensures !s.started ==> s.status.Ok()
    ensures Core(s.Start(msg, st)) && s.Start(msg, st).call.held == s.call.held
  {
    if !s.started {
      assert Notes([]) == [];
      var begun := s.(started := true, msgCb := msg, statusCb := st, given := st,
                      call := s.call.Launch(ReaderInitTag, InitBatch(s.request)));
      assert Armed(begun);
      hide Armed;
      if s.call.WillStart() { ReadNextCore(begun); } else { FailCore(begun, InternalError(FailedToStartAsyncReader)); }
    }
  }

  lemma ShowCore(s: State, msg: string)
    requires TraceOk(s.trace, s.msgCb, s.arrived, s.given, None)
    ensures TraceOk(if s.msgCb.None? then s.trace else s.trace + [Shown(msg)], s.msgCb, s.arrived + [msg], s.given, None)
  {
    assert Notes(s.arrived + [msg]) == Notes(s.arrived) + [Shown(msg)];
  }

  lemma OnReadCore(s: State, id: nat, o: Outcome)
    requires Core(s) && s.readId == Some(id) && id in s.call.pending
    ensures s.status.Ok()
    ensures var r := s.(call := s.call.Take(id)).OnRead(o);
            Core(r) && r.call.held == s.call.held + {id}
  {
    assert Armed(s.(call := s.call.Take(id), readId := None)) by { hide Notes; }
    hide TraceOk, TagsOk, Core;
    var taken := s.(call := s.call.Take(id), readId := None);
    if !o.success {
      FailCore(taken, InternalError(ClientReaderReadCqTagFailed));
    } else if o.received.EndOfStream? {
      RecvStatusCore(taken);
    } else if o.received.Garbled? {
      FailCore(taken, ResultStatus(Garbled));
    } else {
      var msg := o.received.msg;
      ShowCore(taken, msg);
      var got := taken.(status := OK, arrived := s.arrived + [msg]);
      if s.msgCb.None? {
        ReadNextCore(got);
      } else {
        var shown := got.(status := o.verdict, trace := s.trace + [Shown(msg)]);
        if o.verdict.Ok() { ReadNextCore(shown); } else { FailCore(shown, o.verdict); }
      }
    }
  }

  lemma OnRecvStatusCore(s: State, id: nat, o: Outcome)
    requires Core(s) && s.recvId == Some(id) && id in s.call.pending
    ensures s.call.pending[id] == RecvStatusTag(s.given)
    ensures var r := s.(call := s.call.Take(id)).OnRecvStatus(s.given, o);
            Core(r) && r.call.held == s.call.held + {id}
  {
    hide Notes;
  }

  lemma TakeOther(s: State, id: nat)
    requires Core(s) && s.readId != Some(id) && s.recvId != Some(id) && id in s.call.pending
    ensures Core(s.(call := s.call.Take(id)))
  {
    hide TraceOk;
  }

  // ----- Runs -----

  datatype Event = EvStart(msgCb: Option<nat>, statusCb: Option<nat>) | EvComplete(id: nat, outcome: Outcome)

  /** What the source asserts when a completion comes in. */
  lemma CompletionAsserts(s: State, id: nat)
    requires Inv(s) && id in s.call.pending
    ensures s.call.Accounted()
    ensures s.call.pending[id].ReadTag? ==> s.started && s.status.Ok()
    ensures s.call.pending[id].RecvStatusTag? ==> s.started
    ensures s.call.pending[id].ReadTag? <==> s.readId == Some(id)
    ensures s.call.pending[id].RecvStatusTag? <==> s.recvId == Some(id)
  {
    hide TraceOk;
  }

  function Deliver(s: State, id: nat, o: Outcome): State
    requires Inv(s) && id in s.call.pending
  {
    CompletionAsserts(s, id);
    var r := s.(call := s.call.Take(id)).DoComplete(s.call.pending[id], o);
    r.(call := r.call.Delete(id))
  }

  function Next(s: State, e: Event): State
    requires Inv(s)
  {
    match e
    case EvStart(msgCb, statusCb) => s.Start(msgCb, statusCb)
    case EvComplete(id, o) => if id in s.call.pending then Deliver(s, id, o) else s
  }

  lemma ReleaseInv(s: State, id: nat)
    requires Core(s) && s.call.held == {id}
    ensures Inv(s.(call := s.call.Delete(id)))
  {
    hide TraceOk;
    assert {id} - {id} == {};
  }

  lemma DeliverInv(s: State, id: nat, o: Outcome)
    requires Inv(s) && id in s.call.pending
    ensures Inv(Deliver(s, id, o))
  {
    hide Core;
    CompletionAsserts(s, id);
    var taken := s.(call := s.call.Take(id));
    if s.readId == Some(id) {
      OnReadCore(s, id, o);
      ReleaseInv(taken.OnRead(o), id);
    } else if s.recvId == Some(id) {
      OnRecvStatusCore(s, id, o);
      ReleaseInv(taken.OnRecvStatus(s.given, o), id);
    } else {
      TakeOther(s, id);
      ReleaseInv(taken, id);
    }
  }

  lemma NextInv(s: State, e: Event)
    requires Inv(s)
    ensures Inv(Next(s, e))
  {
    hide Core;
    match e
    case EvStart(msgCb, statusCb) => StartCore(s, msgCb, statusCb);
    case EvComplete(id, o) => if id in s.call.pending { DeliverInv(s, id, o); }
  }

  lemma InitInv(fate: nat -> bool, request: string)
    ensures Inv(Init(fate, request))
  {
  }

  function Exec(s: State, es: seq<Event>): (r: State)
    requires Inv(s)
    ensures Inv(r)
    decreases |es|
  {
    if es == [] then s
    else
      NextInv(s, es[0]);
      Exec(Next(s, es[0]), es[1..])
  }

  // ----- What every run keeps -----

  predicate Decodes(s: State, e: Event) {
    && e.EvComplete? && e.id in s.call.pending && s.call.pending[e.id].ReadTag?
    && e.outcome.success && e.outcome.received.Message?
  }

  /** The messages decoded, read off the run. */
  function Decoded(s: State, es: seq<Event>): seq<string>
    requires Inv(s)
    decreases |es|
  {
    if es == [] then []
    else
      NextInv(s, es[0]);
      (if Decodes(s, es[0]) then [es[0].outcome.received.msg] else []) + Decoded(Next(s, es[0]), es[1..])
  }

  /** The arguments of the first Start. */
  function FirstStart(es: seq<Event>): Option<(Option<nat>, Option<nat>)> {
    if es == [] then None
    else if es[0].EvStart? then Some((es[0].msgCb, es[0].statusCb))
    else FirstStart(es[1..])
  }

  lemma StepBooks(s: State, e: Event)
    requires Inv(s)
    ensures var r := Next(s, e);
            && r.arrived == s.arrived + (if Decodes(s, e) then [e.outcome.received.msg] else [])
            && r.started == (s.started || e.EvStart?)
            && (if s.started || !e.EvStart? then r.msgCb == s.msgCb && r.given == s.given
                else r.msgCb == e.msgCb && r.given == e.statusCb)
  {
    hide Core, Call.After;
    if e.EvComplete? && e.id in s.call.pending { CompletionAsserts(s, e.id); }
  }

  lemma {:induction false} RunBooks(s: State, es: seq<Event>)
    requires Inv(s)
    ensures var r := Exec(s, es);
            && r.arrived == s.arrived + Decoded(s, es)
            && r.started == (s.started || FirstStart(es).Some?)
            && (r.msgCb, r.given) == if s.started || FirstStart(es).None? then (s.msgCb, s.given) else FirstStart(es).value
    decreases |es|
  {
    hide Inv, Next, Decodes;
    if es != [] {
      NextInv(s, es[0]);
      StepBooks(s, es[0]);
      RunBooks(Next(s, es[0]), es[1..]);
    }
  }

  ghost function ChainTags(s: State): set<nat> { set id | id in s.call.pending && s.call.pending[id] != ReaderInitTag }

  lemma OutstandingTags(s: State)
    requires Inv(s)
    ensures ChainTags(s) ==
            if s.readId.Some? then {s.readId.value} else if s.recvId.Some? then {s.recvId.value} else {}
  {
    hide TraceOk;
  }

  // ----- What ends the chain, and what keeps it going -----

  /** The status that this step ends the chain with: a refused start, a failed read, a message that
      does not parse, the verdict of the message callback, or the received status. */
  function StepEnd(s: State, e: Event): Option<Status> {
    var n := s.call.next;
    match e
    case EvStart(_, _) =>
      if s.started then None
      else if !s.call.fate(n) then Some(InternalError(FailedToStartAsyncReader))
      else if !s.call.fate(n + 1) then Some(InternalError(FailedToReadServerStreaming))
      else None
    case EvComplete(id, o) =>
      if id !in s.call.pending then None
      else match s.call.pending[id]
           case ReadTag =>
             if !o.success then Some(InternalError(ClientReaderReadCqTagFailed))
             else (match o.received
                   case EndOfStream => if s.call.fate(n) then None else Some(InternalError(FailedToReceiveStatus))
                   case Garbled => Some(InternalError(FailedToReadRecvBuffer))
                   case Message(_) =>
                     if s.msgCb.Some? && !o.verdict.Ok() then Some(o.verdict)
                     else if s.call.fate(n) then None
                     else Some(InternalError(FailedToReadServerStreaming)))
           case RecvStatusTag(_) => Some(if o.success then o.status else InternalError(FailedToReceiveStatus))
           case _ => None
  }

  /** A read of the chain completes, and what it brings. */
  predicate ReadDone(s: State, e: Event) {
    e.EvComplete? && e.id in s.call.pending && s.call.pending[e.id].ReadTag?
  }

  predicate ReadsEnd(s: State, e: Event) { ReadDone(s, e) && e.outcome.success && e.outcome.received.EndOfStream? }

  predicate MovesChain(s: State, e: Event) {
    match e
    case EvStart(_, _) => !s.started
    case EvComplete(id, _) => id in s.call.pending && (s.call.pending[id].ReadTag? || s.call.pending[id].RecvStatusTag?)
  }

  /** The chain has ended with this status, or goes on with the one tag that asks for what comes next. */
  ghost predicate GoesOn(r: State, end: Option<Status>, asksStatus: bool) {
    r.final == end && (r.recvId.Some? <==> end.None? && asksStatus) && (r.readId.Some? <==> end.None? && !asksStatus)
  }

  lemma StartGoesOn(s: State, msgCb: Option<nat>, statusCb: Option<nat>)
    requires Inv(s) && !s.started
    ensures GoesOn(s.Start(msgCb, statusCb), StepEnd(s, EvStart(msgCb, statusCb)), false)
  {
    hide Call.After, Call.Accounted, TraceOk;
    var e := EvStart(msgCb, statusCb);
    var begun := s.(started := true, msgCb := msgCb, statusCb := statusCb, given := statusCb,
                    call := s.call.Launch(ReaderInitTag, InitBatch(s.request)));
    hide TagsOk, InitBatch;
    assert s.Start(msgCb, statusCb) == if s.call.WillStart() then begun.ReadNext() else begun.Fail(InternalError(FailedToStartAsyncReader));
  }

  lemma ReadGoesOn(s: State, id: nat, o: Outcome)
    requires Inv(s) && id in s.call.pending && s.call.pending[id].ReadTag?
    ensures s.status.Ok() && s.final.None?
    ensures var e := EvComplete(id, o); GoesOn(s.(call := s.call.Take(id)).OnRead(o), StepEnd(s, e), ReadsEnd(s, e))
  {
    hide Inv, Call.After, Call.Accounted;
    CompletionAsserts(s, id);
    StillRunning(s, id);
  }

  lemma StillRunning(s: State, id: nat)
    requires Inv(s) && id in s.call.pending && (s.call.pending[id].ReadTag? || s.call.pending[id].RecvStatusTag?)
    ensures s.final.None? && s.started
    ensures s.call.pending[id].ReadTag? ==> s.recvId.None?
    ensures s.call.pending[id].RecvStatusTag? ==> s.readId.None?
  {
    hide TraceOk;
  }

  /** Every step of the chain ends it with that status, or leaves exactly one tag outstanding: a
      receive-status after the end of the stream, and otherwise the next read.  Other steps leave the
      chain alone. */
  lemma ChainStep(s: State, e: Event)
    requires Inv(s)
    ensures var r := Next(s, e);
            if !MovesChain(s, e) then r.final == s.final && r.readId == s.readId && r.recvId == s.recvId && StepEnd(s, e).None?
            else s.final.None? && GoesOn(r, StepEnd(s, e), ReadsEnd(s, e))
  {
    match e
    case EvStart(msgCb, statusCb) =>
      if !s.started { NotStarted(s); StartGoesOn(s, msgCb, statusCb); }
      hide Inv, StepEnd, GoesOn, State.Start;
      if s.started { StartAgain(s, msgCb, statusCb); }
    case EvComplete(id, o) =>
      if id in s.call.pending {
        CompletionAsserts(s, id);
        if s.call.pending[id].ReadTag? { ReadGoesOn(s, id, o); }
        if MovesChain(s, e) { StillRunning(s, id); }
        hide Inv, State.OnRead, Call.After, Call.Accounted;
      }
  }

  lemma NotStarted(s: State)
    requires Inv(s) && !s.started
    ensures s.status.Ok() && s.final.None?
  {
    hide TraceOk, TagsOk;
  }

  lemma StartAgain(s: State, msgCb: Option<nat>, statusCb: Option<nat>)
    requires s.started
    ensures s.Start(msgCb, statusCb) == s && StepEnd(s, EvStart(msgCb, statusCb)).None?
  {
  }

  /** The first end in the run. */
  function RunEnd(s: State, es: seq<Event>): Option<Status>
    requires Inv(s)
    decreases |es|
  {
    if es == [] then None
    else if StepEnd(s, es[0]).Some? then StepEnd(s, es[0])
    else
      NextInv(s, es[0]);
      RunEnd(Next(s, es[0]), es[1..])
  }

  lemma {:induction false} RunEnds(s: State, es: seq<Event>)
    requires Inv(s)
    ensures Exec(s, es).final == if s.final.Some? then s.final else RunEnd(s, es)
    decreases |es|
  {
    hide Inv, Next, StepEnd, MovesChain, ReadsEnd;
    if es != [] {
      NextInv(s, es[0]);
      ChainStep(s, es[0]);
      RunEnds(Next(s, es[0]), es[1..]);
    }
  }

  /** In every run the callbacks of the first Start see exactly the decoded messages in the order of
      their arrival and then, once no read and no receive-status is outstanding, the run's end; at most
      one of those tags is ever outstanding, and one is until the run has its end. */
  lemma ReaderTrace(fate: nat -> bool, request: string, es: seq<Event>)
    ensures Inv(Init(fate, request))
    ensures var s0 := Init(fate, request); var s := Exec(s0, es); var end := RunEnd(s0, es);
            && |ChainTags(s)| <= 1
            && match FirstStart(es)
               case None => s.trace == [] && ChainTags(s) == {} && end.None?
               case Some((msgCb, statusCb)) =>
                 && (end.Some? <==> ChainTags(s) == {})
                 && s.trace == (if msgCb.Some? then Notes(Decoded(s0, es)) else [])
                             + (if statusCb.Some? && end.Some? then [Ended(statusCb.value, end.value)] else [])
  {
    InitInv(fate, request);
    RunBooks(Init(fate, request), es);
    RunEnds(Init(fate, request), es);
    hide Exec, Decoded, FirstStart, TagsOk, Notes, RunEnd;
    var s := Exec(Init(fate, request), es);
    OutstandingTags(s);
    assert s.arrived == Decoded(Init(fate, request), es);
    assert Notes([]) == [] by { NoNotes(); }
  }

  // ----- The wire -----

  /** The reads that completed. */
  function ReadsDone(s: State, es: seq<Event>): nat
    requires Inv(s)
    decreases |es|
  {
    if es == [] then 0
    else
      NextInv(s, es[0]);
      (if ReadDone(s, es[0]) then 1 else 0) + ReadsDone(Next(s, es[0]), es[1..])
  }

  /** A read completed with the end of the stream, and the start after it was accepted. */
  predicate AsksStatus(s: State, es: seq<Event>)
    requires Inv(s)
    decreases |es|
  {
    es != [] &&
    ((ReadsEnd(s, es[0]) && s.call.WillStart()) || (NextInv(s, es[0]); AsksStatus(Next(s, es[0]), es[1..])))
  }

  function Reading(n: nat): seq<Batch> {
    if n == 0 then [] else Reading(n - 1) + [[RecvMsg]]
  }

  /** The request, so many reads, and the receipt of the status. */
  function Sent(request: string, begun: bool, done: nat, asked: bool): seq<Batch> {
    (if begun then [[SendMsg(request), SendInitMd, RecvInitMd, SendClose]] else []) + Reading(done)
      + if asked then [[Op.RecvStatus]] else []
  }

  /** done reads of the chain have completed, and what has been sent is this. */
  ghost predicate WireIs(s: State, begun: bool, done: nat, asked: bool) {
    && s.call.wire == Sent(s.request, begun, done + (if s.readId.Some? then 1 else 0), asked)
    && (s.readId.Some? ==> !asked)
    && (!s.started ==> !begun && !asked && done == 0 && s.call.next == 0)
  }

  /** What a step adds to the wire. */
  function StepSends(s: State, e: Event): seq<Batch> {
    if e.EvStart? && !s.started then
      (if s.call.WillStart() then [[SendMsg(s.request), SendInitMd, RecvInitMd, SendClose]] else [])
        + (if StepEnd(s, e).None? then [[RecvMsg]] else [])
    else if ReadDone(s, e) && StepEnd(s, e).None? then (if ReadsEnd(s, e) then [[Op.RecvStatus]] else [[RecvMsg]])
    else []
  }

  ghost predicate SameEnds(s: State, r: State) {
    r.call.fate == s.call.fate && r.request == s.request
  }

  lemma StartSends(s: State, msgCb: Option<nat>, statusCb: Option<nat>)
    requires Inv(s)
    ensures var e, r := EvStart(msgCb, statusCb), s.Start(msgCb, statusCb);
            SameEnds(s, r) && r.started && r.call.wire == s.call.wire + StepSends(s, e)
  {
    hide Inv, Call.After, Call.Accounted;
  }

  lemma ReadSends(s: State, id: nat, o: Outcome)
    requires Inv(s) && id in s.call.pending && s.call.pending[id].ReadTag?
    ensures s.status.Ok()
    ensures var e, r := EvComplete(id, o), s.(call := s.call.Take(id)).OnRead(o);
            SameEnds(s, r) && r.started == s.started && r.call.wire == s.call.wire + StepSends(s, e)
  {
    hide Inv, Call.After, Call.Accounted;
    CompletionAsserts(s, id);
  }

  lemma StepWire(s: State, e: Event)
    requires Inv(s)
    ensures var r := Next(s, e);
            && SameEnds(s, r) && r.started == (s.started || e.EvStart?)
            && (!r.started ==> r.call.next == s.call.next)
            && r.call.wire == s.call.wire + StepSends(s, e)
  {
    match e
    case EvStart(msgCb, statusCb) => StartSends(s, msgCb, statusCb); hide Inv, State.Start;
    case EvComplete(id, o) =>
      if id in s.call.pending {
        CompletionAsserts(s, id);
        if ReadDone(s, e) { ReadSends(s, id, o); }
        hide Inv, State.OnRead, Call.After, StepEnd;
      }
  }

  lemma WireStep(s: State, e: Event, begun: bool, done: nat, asked: bool)
    requires Inv(s) && WireIs(s, begun, done, asked)
    ensures WireIs(Next(s, e), begun || (!s.started && e.EvStart? && s.call.fate(0)),
                   done + (if ReadDone(s, e) then 1 else 0), asked || (ReadsEnd(s, e) && s.call.WillStart()))
    ensures Next(s, e).call.fate == s.call.fate && Next(s, e).request == s.request
  {
    hide Inv, Next, Sent, Call.After;
    StepWire(s, e);
    ChainStep(s, e);
    NotReading(s, e);
    if ReadDone(s, e) { CompletionAsserts(s, e.id); }
    if ReadsEnd(s, e) { assert s.call.WillStart() <==> StepEnd(s, e).None?; }
    SentGrows(s.request, begun, done + (if s.readId.Some? then 1 else 0));
    SentGrows(s.request, true, 0);
    if e.EvStart? && !s.started {
      assert s.call.wire == [] && Next(s, e).call.wire == StepSends(s, e);
    } else if ReadDone(s, e) {
      assert s.call.wire + [] == s.call.wire;
    } else {
      assert s.call.wire + [] == s.call.wire;
    }
  }

  lemma SentGrows(request: string, begun: bool, n: nat)
    ensures Sent(request, begun, n, false) + [[RecvMsg]] == Sent(request, begun, n + 1, false)
    ensures Sent(request, begun, n, false) + [[Op.RecvStatus]] == Sent(request, begun, n, true)
    ensures Sent(request, false, 0, false) == []
    ensures Sent(request, true, 0, false) == [[SendMsg(request), SendInitMd, RecvInitMd, SendClose]]
  {
    assert Reading(n + 1) == Reading(n) + [[RecvMsg]];
  }

  lemma NotReading(s: State, e: Event)
    requires Inv(s)
    ensures MovesChain(s, e) && !ReadDone(s, e) ==> s.readId.None?
  {
    hide TraceOk;
  }

  lemma {:induction false} WireRun(s: State, es: seq<Event>, begun: bool, done: nat, asked: bool)
    requires Inv(s) && WireIs(s, begun, done, asked)
    ensures WireIs(Exec(s, es), begun || (!s.started && FirstStart(es).Some? && s.call.fate(0)),
                   done + ReadsDone(s, es), asked || AsksStatus(s, es))
    ensures Exec(s, es).request == s.request
    decreases |es|
  {
    hide Inv, Next, WireIs, ReadDone, ReadsEnd, Call.WillStart;
    if es != [] {
      NextInv(s, es[0]);
      WireStep(s, es[0], begun, done, asked);
      StepBooks(s, es[0]);
      WireRun(Next(s, es[0]), es[1..], begun || (!s.started && es[0].EvStart? && s.call.fate(0)),
              done + (if ReadDone(s, es[0]) then 1 else 0), asked || (ReadsEnd(s, es[0]) && s.call.WillStart()));
    }
  }

  /** Every run, in the operations that reach gRPC: the first Start sends the request, if it is
      accepted, with both kinds of metadata and the half-close in one batch; then come the reads, of
      which each but the outstanding one has completed; and last, if and only if a read completed with
      the end of the stream and the start was accepted, the receipt of the status. */
  lemma ReaderWire(fate: nat -> bool, request: string, es: seq<Event>)
    ensures Inv(Init(fate, request))
    ensures var s0 := Init(fate, request); var s := Exec(s0, es);
            s.call.wire == Sent(request, FirstStart(es).Some? && fate(0),
                                ReadsDone(s0, es) + |set id | id in s.call.pending && s.call.pending[id].ReadTag?|, AsksStatus(s0, es))
  {
    hide Inv, Exec, ReadsDone, AsksStatus, Sent, Init;
    WireStarts(fate, request);
    WireRun(Init(fate, request), es, false, 0, false);
    OutstandingReads(Exec(Init(fate, request), es));
  }

  lemma WireStarts(fate: nat -> bool, request: string)
    ensures var s := Init(fate, request);
            Inv(s) && WireIs(s, false, 0, false) && !s.started && s.request == request && s.call.fate == fate
  {
    InitInv(fate, request);
    assert Reading(0) == [];
  }

  lemma OutstandingReads(s: State)
    requires Inv(s)
    ensures (set id | id in s.call.pending && s.call.pending[id].ReadTag?) == if s.readId.Some? then {s.readId.value} else {}
  {
    hide TraceOk;
  }

  lemma NoNotes()
    ensures Notes([]) == []
  {
  }

  /** A completed receive-status ends the chain with what the server sent, or with an error. */
  lemma ReceivedStatusEnds(s: State, id: nat, o: Outcome)
    requires Inv(s) && id in s.call.pending && s.call.pending[id].RecvStatusTag?
    ensures s.final.None?
    ensures var end := if o.success then o.status else InternalError(FailedToReceiveStatus);
            var r := Next(s, EvComplete(id, o));
            r.final == Some(end) && r.trace == s.trace + if s.given.Some? then [Ended(s.given.value, end)] else []
  {
    hide TraceOk;
  }

  /** The chain ends with an OK status only by receiving one from the server. */
  lemma EndsOkOnlyOnReceivedStatus(s: State, e: Event)
    requires Inv(s) && s.final.None?
    ensures var r := Next(s, e);
            r.final.Some? && r.final.value.Ok() ==>
              && e.EvComplete? && e.id in s.call.pending && s.call.pending[e.id].RecvStatusTag?
              && e.outcome.success && r.final.value == e.outcome.status
  {
    hide Core;
    if e.EvComplete? && e.id in s.call.pending { CompletionAsserts(s, e.id); }
    if e.EvStart? { StartCore(s, e.msgCb, e.statusCb); }
  }

  /** The arguments of a Start that a callback makes. */
  datatype Restart = Restart(msgCb: Option<nat>, statusCb: Option<nat>)

  /** Start on a started reader changes nothing, whatever state it runs in. */
  lemma RestartIsHarmless(s: State, msgCb: Option<nat>, statusCb: Option<nat>)
    requires s.started
    ensures s.Start(msgCb, statusCb) == s
  {
  }
}
