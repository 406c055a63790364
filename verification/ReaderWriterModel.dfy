/** The bidirectional client stream as a state machine: two half-streams that share one status, one
    queue and one terminal callback (src/client/impl/client_async_reader_writer_impl.cc).  Every
    lock-held method is one atomic step; user callbacks do not call back into the stream. */
module ReaderWriterModel {
  import opened Grpc

  datatype Fired = Fired(cb: nat, status: Status)
  datatype Reading = Reading(started: bool, ended: bool)
  datatype Writing = Writing(closing: bool, closeSent: bool, ended: bool)

  /** status .. call are the fields of the source class.  The rest is history: the outstanding send
      and read tags, the constructor's status callback, the callbacks made, the messages accepted
      by Write, started, and shown to the message callback. */
  datatype State = State(
    status: Status,
    msgCb: Option<nat>,
    statusCb: Option<nat>,
    inited: bool,
    reading: Reading,
    writing: Writing,
    queue: seq<string>,
    call: Call,
    sendId: Option<nat>,
    readId: Option<nat>,
    given: Option<nat>,
    fired: seq<Fired>,
    pushed: seq<string>,
    handed: seq<string>,
    delivered: seq<string>)
  {
    /** The callbacks made once the terminal callback, if still set, is called with a status. */
    function Report(st: Status): seq<Fired> {
      if statusCb.None? then fired else fired + [Fired(statusCb.value, st)]
    }

    /** What a step leaves alone unless it is the step's purpose. */
    ghost predicate SameBooks(s: State) { pushed == s.pushed && delivered == s.delivered }

    function CallStatusCb(): (r: State)
      ensures r.call == call && r.SameBooks(this)
    {
      this.(fired := Report(status), statusCb := None)
    }

    function EndOnErrorStatus(error: Status): (r: State)
      requires !error.Ok() && status.Ok()
      ensures r.call == call && !r.status.Ok() && r.SameBooks(this)
    {
      this.(status := error, fired := Report(error), statusCb := None, reading := reading.(ended := true), writing := writing.(ended := true))
    }

    function InitIfNot(): (r: State)
      ensures r.call.After(call) && r.queue == queue && r.inited && r.SameBooks(this)
    {
      if inited then this
      else if !status.Ok() then this.(inited := true)
      else
        var sending := call.Launch(SendInitMdTag, [SendInitMd]);
        var receiving := sending.Launch(RecvInitMdTag, [RecvInitMd]);
        if !call.WillStart()
        then this.(inited := true, call := sending).EndOnErrorStatus(InternalError(FailedToSendInitMdBidi))
        else if !sending.WillStart()
        then this.(inited := true, call := receiving).EndOnErrorStatus(InternalError(FailedToRecvInitMdBidi))
        else this.(inited := true, call := receiving)
    }

    function SendNext(): (r: State)
      requires queue != [] && status.Ok()
      ensures r.call.After(call) && r.SameBooks(this)
    {
      var s := this.(call := call.Launch(SendMsgTag(queue[0]), [SendMsg(queue[0])]));
      if call.WillStart() then s.(sendId := Some(call.next), handed := handed + [queue[0]])
      else s.EndOnErrorStatus(InternalError(FailedToWriteBidi))
    }

    function ReadNext(): (r: State)
      requires status.Ok()
      ensures r.call.After(call) && r.SameBooks(this)
    {
      var s := this.(call := call.Launch(ReadTag, [RecvMsg]));
      if call.WillStart() then s.(readId := Some(call.next))
      else s.EndOnErrorStatus(InternalError(FailedToReadBidi))
    }

    function SendCloseBatch(): (r: State)
      requires writing.closing && !writing.closeSent && status.Ok()
      ensures r.call.After(call) && r.SameBooks(this)
    {
      var s := this.(writing := writing.(closeSent := true, ended := true), call := call.Launch(SendCloseTag, [SendClose]));
      if call.WillStart() then s
      else s.EndOnErrorStatus(InternalError(FailedToCloseWriting))
    }

    predicate WriteResult() {
      Accepts() && (queue != [] || InitIfNot().call.WillStart())
    }

    predicate Accepts() {
      var s := InitIfNot();
      s.status.Ok() && !s.writing.closing && !s.writing.ended
    }

    function Write(msg: string): (r: State)
      ensures r.delivered == delivered && r.call.After(call)
      ensures r.pushed == pushed + if Accepts() then [msg] else []
    {
      var s := InitIfNot();
      if !s.status.Ok() || s.writing.closing || s.writing.ended then s
      else
        var s' := s.(queue := s.queue + [msg], pushed := s.pushed + [msg]);
        if s.queue != [] then s' else s'.SendNext()
    }

    function CloseWriting(): (r: State)
      requires writing.closeSent ==> writing.closing
      ensures r.SameBooks(this) && r.call.After(call)
    {
      if writing.closing then this
      else
        var s := this.(writing := writing.(closing := true));
        if status.Ok() && queue == [] then s.SendCloseBatch() else s
    }

    function ReadEach(cb: Option<nat>): (r: State)
      ensures r.SameBooks(this) && r.call.After(call)
    {
      if reading.started then this
      else
        var s := this.(reading := reading.(started := true)).InitIfNot();
        if s.status.Ok() then s.(msgCb := cb).ReadNext() else s
    }

    function SetErrorStatus(error: Status): (r: State)
      requires !error.Ok()
      ensures r.SameBooks(this) && r.call == call
    {
      if status.Ok() then EndOnErrorStatus(error) else this.(status := error)
    }

    function OnSent(success: bool): (r: State)
      requires queue != [] && (status.Ok() ==> !writing.closeSent)
      ensures r.call.After(call) && r.SameBooks(this)
    {
      var s := this.(queue := queue[1..], sendId := None);
      if !status.Ok() then s
      else if !success then s.EndOnErrorStatus(InternalError(FailedToSendMessage))
      else if s.queue != [] then s.SendNext()
      else if !writing.closing then s
      else
        var closed := s.SendCloseBatch();
        if closed.reading.ended then closed.CallStatusCb() else closed
    }

    /** A completed read that calls the message callback. */
    predicate Shows(o: Outcome) { o.success && o.received.Message? && msgCb.Some? }

    function OnRead(o: Outcome): (r: State)
      ensures r.call.After(call) && r.pushed == pushed
      ensures r.delivered == delivered + if status.Ok() && Shows(o) then [o.received.msg] else []
    {
      var s := this.(readId := None);
      if !status.Ok() then s
      else if !o.success then s.EndOnErrorStatus(InternalError(ClientReaderReadCqTagFailed))
      else match o.received
           case EndOfStream =>
             var ended := s.(reading := reading.(ended := true));
             if writing.ended then ended.CallStatusCb() else ended
           case Garbled => s.EndOnErrorStatus(ResultStatus(Garbled))
           case Message(msg) =>
             if msgCb.None? then s.ReadNext()
             else
               var shown := s.(delivered := delivered + [msg]);
               if o.verdict.Ok() then shown.ReadNext() else shown.EndOnErrorStatus(o.verdict)
    }

    function DoComplete(tag: Tag, o: Outcome): (r: State)
      requires tag.SendMsgTag? ==> queue != [] && (status.Ok() ==> !writing.closeSent)
      ensures r.call.After(call)
    {
      match tag
      case SendMsgTag(_) => OnSent(o.success)
      case ReadTag => OnRead(o)
      case _ => this
    }
  }

  /** The constructor starts nothing. */
  function Init(fate: nat -> bool, statusCb: Option<nat>): State {
    State(OK, None, statusCb, false, Reading(false, false), Writing(false, false, false), [], NewCall(fate),
          None, None, statusCb, [], [], [], [])
  }

  // ----- Which batches may follow which -----

  predicate CarriesMessage(b: Batch) {
    |b| == 1 && (b[0].SendMsg? || b[0].RecvMsg?)
  }

  /** Initial metadata is started once each way and before any message; the half-close is started
      once and no message is sent after it. */
  ghost predicate Legal(wire: seq<Batch>) {
    OncePerBatch(wire) && MetadataFirst(wire) && NothingSentAfterClose(wire)
  }

  ghost predicate OncePerBatch(wire: seq<Batch>) {
    forall i, j :: 0 <= i < j < |wire| && wire[i] == wire[j] ==> CarriesMessage(wire[i])
  }

  ghost predicate MetadataFirst(wire: seq<Batch>) {
    forall i :: 0 <= i < |wire| && CarriesMessage(wire[i]) ==> [SendInitMd] in wire[..i] && [RecvInitMd] in wire[..i]
  }

  ghost predicate NothingSentAfterClose(wire: seq<Batch>) {
    forall i, j :: 0 <= i < j < |wire| && wire[i] == [SendClose] && CarriesMessage(wire[j]) ==> wire[j] == [RecvMsg]
  }

  lemma LegalSnoc(wire: seq<Batch>, b: Batch)
    requires Legal(wire)
    requires b in wire ==> CarriesMessage(b)
    requires CarriesMessage(b) ==> [SendInitMd] in wire && [RecvInitMd] in wire
    requires CarriesMessage(b) && [SendClose] in wire ==> b == [RecvMsg]
    ensures Legal(wire + [b])
  {
    hide CarriesMessage, OncePerBatch, MetadataFirst, NothingSentAfterClose;
    OncePerBatchSnoc(wire, b);
    MetadataFirstSnoc(wire, b);
    NothingSentAfterCloseSnoc(wire, b);
  }

  lemma OncePerBatchSnoc(wire: seq<Batch>, b: Batch)
    requires OncePerBatch(wire) && (b in wire ==> CarriesMessage(b))
    ensures OncePerBatch(wire + [b])
  {
    hide CarriesMessage;
    var w := wire + [b];
    forall i, j | 0 <= i < j < |w| && w[i] == w[j]
      ensures CarriesMessage(w[i])
    {
      if j < |wire| { assert wire[i] == wire[j]; } else { assert wire[i] == b; }
    }
  }

  lemma NothingSentAfterCloseSnoc(wire: seq<Batch>, b: Batch)
    requires NothingSentAfterClose(wire)
    requires CarriesMessage(b) && [SendClose] in wire ==> b == [RecvMsg]
    ensures NothingSentAfterClose(wire + [b])
  {
    hide CarriesMessage;
    var w := wire + [b];
    forall i, j | 0 <= i < j < |w| && w[i] == [SendClose] && CarriesMessage(w[j])
      ensures w[j] == [RecvMsg]
    {
      if j < |wire| { assert wire[i] == [SendClose] && wire[j] == w[j]; } else { assert wire[i] == [SendClose]; }
    }
  }

  lemma MetadataFirstSnoc(wire: seq<Batch>, b: Batch)
    requires MetadataFirst(wire)
    requires CarriesMessage(b) ==> [SendInitMd] in wire && [RecvInitMd] in wire
    ensures MetadataFirst(wire + [b])
  {
    hide CarriesMessage;
    var w := wire + [b];
    forall i | 0 <= i < |w| && CarriesMessage(w[i])
      ensures [SendInitMd] in w[..i] && [RecvInitMd] in w[..i]
    {
      assert w[..i] == wire[..i];
      assert i == |wire| ==> wire[..i] == wire;
    }
  }

  // ----- The invariant -----

  /** At most one send tag, carrying the front of the queue, and at most one read tag. */
  ghost predicate TagsOk(c: Call, sendId: Option<nat>, readId: Option<nat>, queue: seq<string>) {
    && c.Accounted()
    && (forall id :: id in c.pending ==>
          if sendId == Some(id) then queue != [] && c.pending[id] == SendMsgTag(queue[0])
          else if readId == Some(id) then c.pending[id] == ReadTag
          else c.pending[id] == SendInitMdTag || c.pending[id] == RecvInitMdTag || c.pending[id] == SendCloseTag)
    && (sendId.Some? ==> sendId.value in c.pending)
    && (readId.Some? ==> readId.value in c.pending && readId != sendId)
  }

  ghost predicate WireOk(wire: seq<Batch>, handed: seq<string>, inited: bool, status: Status, writing: Writing) {
    && Legal(wire)
    && MessagesOn(wire) == handed
    && (!inited ==> [SendInitMd] !in wire && [RecvInitMd] !in wire)
    && (inited && status.Ok() ==> [SendInitMd] in wire && [RecvInitMd] in wire)
    && (!writing.closeSent ==> [SendClose] !in wire)
    && (writing.closeSent ==> writing.closing)
  }

  ghost predicate Tags(s: State) {
    TagsOk(s.call, s.sendId, s.readId, s.queue) && (s.readId.Some? ==> s.reading.started)
  }

  ghost predicate Wire(s: State) { WireOk(s.call.wire, s.handed, s.inited, s.status, s.writing) }

  /** A healthy stream, possibly with an operation still to be started. */
  ghost predicate Open(s: State) { Tags(s) && Wire(s) && Healthy(s) }

  ghost predicate Healthy(s: State) {
    && s.status == OK
    && s.writing.ended == s.writing.closeSent
    && (s.writing.closeSent ==> s.queue == [])
    && (s.reading.ended ==> s.reading.started && s.readId.None?)
    && (s.sendId.Some? ==> s.queue != [])
    && s.pushed == s.handed + (if s.sendId.Some? then s.queue[1..] else s.queue)
    && (Unfired(s) || (s.reading.ended && s.writing.ended && FiredOnce(s) && s.fired[0].status == OK))
  }

  ghost predicate Unfired(s: State) { s.statusCb == s.given && s.fired == [] }

  ghost predicate FiredOnce(s: State) {
    && s.given.Some? && s.statusCb.None?
    && |s.fired| == 1 && s.fired[0].cb == s.given.value
  }

  ghost predicate Live(s: State) {
    && Open(s)
    && (s.queue != [] <==> s.sendId.Some?)
    && (s.reading.started && !s.reading.ended <==> s.readId.Some?)
    && (s.writing.closing && s.queue == [] ==> s.writing.closeSent)
    && (s.reading.started || s.queue != [] ==> s.inited)
  }

  ghost predicate Dead(s: State) {
    && Tags(s)
    && Wire(s)
    && !s.status.Ok()
    && s.reading.ended && s.writing.ended
    && s.handed <= s.pushed
    && if s.given.None? then Unfired(s) else FiredOnce(s)
  }

  /** The invariant up to the tag that the completion loop may be holding. */
  ghost predicate Core(s: State) { Live(s) || Dead(s) }

  ghost predicate Inv(s: State) { Core(s) && s.call.held == {} }

  // ----- The internal operations -----

  lemma EndOnErrorDead(s: State, error: Status)
    requires Open(s) && !error.Ok()
    ensures Dead(s.EndOnErrorStatus(error))
  {
  }

  lemma RefusedKeepsOpen(s: State, tag: Tag, b: Batch)
    requires Open(s) && !s.call.WillStart()
    ensures Open(s.(call := s.call.Launch(tag, b)))
  {
    hide Legal, MessagesOn;
  }

  /** Starting a message or the half-close where the protocol allows it keeps the wire legal. */
  lemma AcceptedWire(s: State, tag: Tag, b: Batch)
    requires Wire(s) && s.status.Ok() && s.inited && s.call.WillStart()
    requires CarriesMessage(b) && (s.writing.closeSent ==> b == [RecvMsg])
    ensures Wire(s.(call := s.call.Launch(tag, b), handed := s.handed + Payload(b)))
  {
    hide Legal, MessagesOn, Payload;
    LegalSnoc(s.call.wire, b);
    MessagesOnSnoc(s.call.wire, b);
  }

  lemma AcceptedCloseWire(s: State)
    requires Wire(s) && s.status.Ok() && s.call.WillStart() && s.writing.closing && !s.writing.closeSent
    ensures Wire(s.(call := s.call.Launch(SendCloseTag, [SendClose]), writing := Writing(true, true, true)))
  {
    hide Legal, MessagesOn;
    LegalSnoc(s.call.wire, [SendClose]);
    MessagesOnSnoc(s.call.wire, [SendClose]);
  }

  lemma SendNextOpens(s: State)
    requires Open(s) && s.inited && s.queue != [] && s.sendId.None?
    ensures var r := s.SendNext();
            if s.call.WillStart()
            then Open(r) && r.sendId.Some? && r == s.(call := r.call, sendId := r.sendId, handed := r.handed)
            else Dead(r)
  {
    hide WireOk;
    var tag, b := SendMsgTag(s.queue[0]), [SendMsg(s.queue[0])];
    if s.call.WillStart() {
      assert Payload(b) == [s.queue[0]];
      AcceptedWire(s, tag, b);
      assert s.handed + s.queue == s.handed + [s.queue[0]] + s.queue[1..];
    } else {
      RefusedKeepsOpen(s, tag, b);
      hide Open, Dead;
      EndOnErrorDead(s.(call := s.call.Launch(tag, b)), InternalError(FailedToWriteBidi));
    }
  }

  lemma ReadNextOpens(s: State)
    requires Open(s) && s.inited && s.reading.started && !s.reading.ended && s.readId.None?
    ensures var r := s.ReadNext();
            if s.call.WillStart()
            then Open(r) && r.readId.Some? && r == s.(call := r.call, readId := r.readId)
            else Dead(r)
  {
    hide WireOk;
    if s.call.WillStart() {
      assert s.handed + Payload([RecvMsg]) == s.handed;
      AcceptedWire(s, ReadTag, [RecvMsg]);
    } else {
      RefusedKeepsOpen(s, ReadTag, [RecvMsg]);
      hide Open, Dead;
      EndOnErrorDead(s.(call := s.call.Launch(ReadTag, [RecvMsg])), InternalError(FailedToReadBidi));
    }
  }

  lemma SendCloseOpens(s: State)
    requires Open(s) && s.writing.closing && !s.writing.closeSent && s.queue == [] && s.sendId.None?
    ensures var r := s.SendCloseBatch();
            if s.call.WillStart()
            then Open(r) && Unfired(r) && r == s.(call := r.call, writing := Writing(true, true, true))
            else Dead(r)
  {
    hide WireOk;
    if s.call.WillStart() {
      AcceptedCloseWire(s);
    } else {
      var closed := s.(writing := Writing(true, true, true));
      assert Wire(closed) by { ClosedWire(s); }
      RefusedKeepsOpen(closed, SendCloseTag, [SendClose]);
      hide Open, Dead;
      EndOnErrorDead(closed.(call := s.call.Launch(SendCloseTag, [SendClose])), InternalError(FailedToCloseWriting));
    }
  }

  lemma ClosedWire(s: State)
    requires Wire(s) && s.writing.closing
    ensures Wire(s.(writing := Writing(true, true, true)))
  {
  }

  lemma InitWire(s: State, error: Status)
    requires Wire(s) && s.status.Ok() && !s.inited && !error.Ok()
    ensures var sending := s.call.Launch(SendInitMdTag, [SendInitMd]);
            var receiving := sending.Launch(RecvInitMdTag, [RecvInitMd]);
            var ended := s.writing.(ended := true);
            if !s.call.WillStart() then WireOk(sending.wire, s.handed, true, error, ended)
            else if !sending.WillStart() then WireOk(receiving.wire, s.handed, true, error, ended)
            else WireOk(receiving.wire, s.handed, true, s.status, s.writing)
  {
    hide Legal, MessagesOn, Payload;
    var b1, b2: Batch := [SendInitMd], [RecvInitMd];
    LegalSnoc(s.call.wire, b1);
    MessagesOnSnoc(s.call.wire, b1);
    LegalSnoc(s.call.wire + [b1], b2);
    MessagesOnSnoc(s.call.wire + [b1], b2);
    assert Payload(b1) == [] && Payload(b2) == [] by { NoPayload(b1); NoPayload(b2); }
  }

  lemma NoPayload(b: Batch)
    requires |b| == 1 && !b[0].SendMsg?
    ensures Payload(b) == []
  {
  }

  lemma InitTags(s: State)
    requires Tags(s)
    ensures var sending := s.call.Launch(SendInitMdTag, [SendInitMd]);
            && TagsOk(sending, s.sendId, s.readId, s.queue)
            && TagsOk(sending.Launch(RecvInitMdTag, [RecvInitMd]), s.sendId, s.readId, s.queue)
  {
  }

  lemma RefusedInit(s: State, c: Call, error: Status)
    requires Open(s) && !error.Ok() && TagsOk(c, s.sendId, s.readId, s.queue)
    requires WireOk(c.wire, s.handed, true, error, s.writing.(ended := true))
    ensures Dead(s.(inited := true, call := c).EndOnErrorStatus(error))
  {
    hide TagsOk, WireOk;
  }

  lemma InitOpens(s: State)
    requires Open(s)
    ensures var r := s.InitIfNot();
            if r.status.Ok() then Open(r) && r == s.(call := r.call, inited := true) else Dead(r)
  {
    hide WireOk, TagsOk;
    if !s.inited {
      InitTags(s);
      InitWire(s, InternalError(FailedToSendInitMdBidi));
      InitWire(s, InternalError(FailedToRecvInitMdBidi));
      var sending := s.call.Launch(SendInitMdTag, [SendInitMd]);
      if !s.call.WillStart() {
        RefusedInit(s, sending, InternalError(FailedToSendInitMdBidi));
      } else if !sending.WillStart() {
        RefusedInit(s, sending.Launch(RecvInitMdTag, [RecvInitMd]), InternalError(FailedToRecvInitMdBidi));
      }
    }
  }

  lemma DeadInit(s: State)
    requires Dead(s)
    ensures Dead(s.InitIfNot()) && s.InitIfNot() == s.(inited := true)
  {
    hide Legal, MessagesOn, TagsOk;
  }

  // ----- The atomic steps keep the invariant -----

  lemma WriteCore(s: State, msg: string)
    requires Core(s)
    ensures Core(s.Write(msg)) && s.Write(msg).call.held == s.call.held
  {
    hide TagsOk, WireOk, State.SameBooks;
    if Dead(s) {
      DeadInit(s);
    } else {
      InitOpens(s);
      var r := s.InitIfNot();
      hide State.InitIfNot, Dead;
      if r.status.Ok() && !r.writing.closing && !r.writing.ended {
        PushOpens(r, msg);
        assert r.queue == [] ==> r.queue + [msg] == [msg];
        if r.queue == [] { SendNextOpens(r.(queue := [msg], pushed := r.pushed + [msg])); }
      }
    }
  }

  lemma PushOpens(s: State, msg: string)
    requires Open(s) && !s.writing.closeSent
    ensures Open(s.(queue := s.queue + [msg], pushed := s.pushed + [msg]))
  {
    hide WireOk;
    if s.sendId.Some? {
      assert s.handed + (s.queue + [msg])[1..] == s.handed + s.queue[1..] + [msg];
    } else {
      assert s.handed + (s.queue + [msg]) == s.handed + s.queue + [msg];
    }
  }

  lemma ClosingWire(s: State)
    requires Core(s)
    ensures s.writing.closeSent ==> s.writing.closing
    ensures Wire(s.(writing := s.writing.(closing := true)))
  {
    hide TagsOk, Legal, MessagesOn;
  }

  lemma CloseWritingCore(s: State)
    requires Core(s)
    ensures s.writing.closeSent ==> s.writing.closing
    ensures Core(s.CloseWriting()) && s.CloseWriting().call.held == s.call.held
  {
    hide TagsOk, WireOk, State.SameBooks;
    ClosingWire(s);
    var closing := s.(writing := s.writing.(closing := true));
    if s.writing.closing {
    } else if Dead(s) {
      assert Dead(closing);
      hide Dead;
    } else if s.queue != [] {
      assert Live(closing);
      hide Live;
    } else {
      assert Open(closing);
      SendCloseOpens(closing);
      hide Dead, Open, State.SendCloseBatch;
    }
  }

  lemma ReadEachCore(s: State, cb: Option<nat>)
    requires Core(s)
    ensures Core(s.ReadEach(cb)) && s.ReadEach(cb).call.held == s.call.held
  {
    hide TagsOk, WireOk, State.SameBooks;
    var started := s.(reading := s.reading.(started := true));
    if s.reading.started {
    } else if Dead(s) {
      assert Dead(started);
      DeadInit(started);
      hide Dead;
    } else {
      assert Open(started);
      InitOpens(started);
      var r := started.InitIfNot();
      hide Dead, State.InitIfNot;
      if r.status.Ok() { ReadNextOpens(r.(msgCb := cb)); }
    }
  }

  lemma SetErrorStatusCore(s: State, error: Status)
    requires Core(s) && !error.Ok()
    ensures Core(s.SetErrorStatus(error)) && s.SetErrorStatus(error).call == s.call
  {
    if s.status.Ok() {
      hide TagsOk, WireOk, State.SameBooks;
      EndOnErrorDead(s, error);
    } else {
      hide TagsOk, Legal, MessagesOn;
    }
  }

  /** The loop takes a completed tag: the handler then starts from an open stream. */
  lemma TakeSend(s: State, id: nat)
    requires Core(s) && s.sendId == Some(id) && id in s.call.pending
    ensures s.queue != []
    ensures TagsOk(s.call.Take(id), None, s.readId, s.queue[1..])
  {
    hide WireOk;
  }

  lemma TakeRead(s: State, id: nat)
    requires Core(s) && s.readId == Some(id) && id in s.call.pending
    ensures TagsOk(s.call.Take(id), s.sendId, None, s.queue)
  {
    hide WireOk;
  }

  lemma TakeOther(s: State, id: nat)
    requires Core(s) && s.sendId != Some(id) && s.readId != Some(id) && id in s.call.pending
    ensures Core(s.(call := s.call.Take(id)))
  {
    hide WireOk;
  }

  lemma OnSentCore(s: State, id: nat, success: bool)
    requires Core(s) && s.sendId == Some(id) && id in s.call.pending
    ensures s.queue != [] && (s.status.Ok() ==> !s.writing.closeSent)
    ensures var r := s.(call := s.call.Take(id)).OnSent(success);
            Core(r) && r.call.held == s.call.held + {id}
  {
    hide TagsOk, WireOk, State.SameBooks;
    TakeSend(s, id);
    var popped := s.(call := s.call.Take(id), queue := s.queue[1..], sendId := None);
    if s.status.Ok() {
      assert Open(popped);
      if !success {
        EndOnErrorDead(popped, InternalError(FailedToSendMessage));
      } else if popped.queue != [] {
        SendNextOpens(popped);
      } else if s.writing.closing {
        SendCloseOpens(popped);
      }
    }
  }

  lemma OnReadCore(s: State, id: nat, o: Outcome)
    requires Core(s) && s.readId == Some(id) && id in s.call.pending
    ensures s.reading.started
    ensures var r := s.(call := s.call.Take(id)).OnRead(o);
            Core(r) && r.call.held == s.call.held + {id}
  {
    hide TagsOk, WireOk, State.SameBooks;
    TakeRead(s, id);
    var taken := s.(call := s.call.Take(id), readId := None);
    if s.status.Ok() {
      assert Open(taken);
      if !o.success {
        EndOnErrorDead(taken, InternalError(ClientReaderReadCqTagFailed));
      } else if o.received.Garbled? {
        EndOnErrorDead(taken, ResultStatus(Garbled));
      } else if o.received.Message? {
        var shown := if s.msgCb.None? then taken else taken.(delivered := taken.delivered + [o.received.msg]);
        assert Open(shown);
        if s.msgCb.None? || o.verdict.Ok() { ReadNextOpens(shown); } else { EndOnErrorDead(shown, o.verdict); }
      }
    }
  }

  // ----- Runs -----

  datatype Event =
    | EvWrite(msg: string)
    | EvCloseWriting
    | EvReadEach(cb: Option<nat>)
    | EvSetErrorStatus(error: Status)
    | EvComplete(id: nat, outcome: Outcome)

  /** One completion: the queue gives the tag out, its effect runs, the loop deletes it. */
  function Deliver(s: State, id: nat, o: Outcome): State
    requires Inv(s) && id in s.call.pending
  {
    CompletionAsserts(s, id);
    var r := s.(call := s.call.Take(id)).DoComplete(s.call.pending[id], o);
    r.(call := r.call.Delete(id))
  }

  /** One atomic step.  SetErrorStatus demands an error; a completion needs an outstanding tag. */
  function Next(s: State, e: Event): State
    requires Inv(s)
  {
    match e
    case EvWrite(msg) => s.Write(msg)
    case EvCloseWriting => CloseWritingCore(s); s.CloseWriting()
    case EvReadEach(cb) => s.ReadEach(cb)
    case EvSetErrorStatus(error) => if error.Ok() then s else s.SetErrorStatus(error)
    case EvComplete(id, o) => if id in s.call.pending then Deliver(s, id, o) else s
  }

  /** What the source asserts when a completion comes in. */
  lemma CompletionAsserts(s: State, id: nat)
    requires Inv(s) && id in s.call.pending
    ensures s.call.Accounted()
    ensures s.call.pending[id].SendMsgTag? ==> s.queue != [] && (s.status.Ok() ==> !s.writing.closeSent)
    ensures s.call.pending[id].ReadTag? ==> s.reading.started
    ensures s.call.pending[id].SendMsgTag? <==> s.sendId == Some(id)
    ensures s.call.pending[id].ReadTag? <==> s.readId == Some(id)
    ensures !s.status.Ok() ==> s.statusCb.None?
  {
    hide WireOk;
  }

  lemma ReleaseInv(s: State, id: nat)
    requires Core(s) && s.call.held == {id}
    ensures Inv(s.(call := s.call.Delete(id)))
  {
    hide WireOk;
    assert {id} - {id} == {};
  }

  lemma DeliverInv(s: State, id: nat, o: Outcome)
    requires Inv(s) && id in s.call.pending
    ensures Inv(Deliver(s, id, o))
  {
    hide Core, Call.After, State.OnSent, State.OnRead;
    CompletionAsserts(s, id);
    var taken := s.(call := s.call.Take(id));
    if s.sendId == Some(id) {
      OnSentCore(s, id, o.success);
      ReleaseInv(taken.OnSent(o.success), id);
    } else if s.readId == Some(id) {
      OnReadCore(s, id, o);
      ReleaseInv(taken.OnRead(o), id);
    } else {
      TakeOther(s, id);
      ReleaseInv(taken, id);
    }
  }

  lemma NextInv(s: State, e: Event)
    requires Inv(s)
    ensures Inv(Next(s, e))
  {
    hide Core;
    match e
    case EvWrite(msg) => WriteCore(s, msg);
    case EvCloseWriting => CloseWritingCore(s);
    case EvReadEach(cb) => ReadEachCore(s, cb);
    case EvSetErrorStatus(error) => if !error.Ok() { SetErrorStatusCore(s, error); }
    case EvComplete(id, o) => if id in s.call.pending { DeliverInv(s, id, o); }
  }

  lemma InitInv(fate: nat -> bool, statusCb: Option<nat>)
    ensures Inv(Init(fate, statusCb))
  {
  }

  function Exec(s: State, es: seq<Event>): (r: State)
    requires Inv(s)
    ensures Inv(r)
    decreases |es|
  {
    if es == [] then s
    else
      NextInv(s, es[0]);
      Exec(Next(s, es[0]), es[1..])
  }

  // ----- What every run keeps -----

  ghost function SendTags(s: State): set<nat> { set id | id in s.call.pending && s.call.pending[id].SendMsgTag? }

  ghost function ReadTags(s: State): set<nat> { set id | id in s.call.pending && s.call.pending[id].ReadTag? }

  lemma OutstandingTags(s: State)
    requires Inv(s)
    ensures SendTags(s) == if s.sendId.Some? then {s.sendId.value} else {}
    ensures ReadTags(s) == if s.readId.Some? then {s.readId.value} else {}
  {
    hide WireOk;
  }

  /** While the status is OK, the queue is non-empty exactly when one send tag is outstanding, and
      it carries the front; reading is in progress exactly when one read tag is outstanding.  Once
      the status is bad both halves have ended and the terminal callback is gone. */
  lemma QueueMatchesTags(fate: nat -> bool, statusCb: Option<nat>, es: seq<Event>)
    ensures Inv(Init(fate, statusCb))
    ensures var s := Exec(Init(fate, statusCb), es);
            && |SendTags(s)| <= 1 && |ReadTags(s)| <= 1
            && (forall id :: id in SendTags(s) ==> s.queue != [] && s.call.pending[id] == SendMsgTag(s.queue[0]))
            && if s.status.Ok()
               then (s.queue != [] <==> |SendTags(s)| == 1) && (s.reading.started && !s.reading.ended <==> |ReadTags(s)| == 1)
               else s.reading.ended && s.writing.ended && s.statusCb.None?
  {
    InitInv(fate, statusCb);
    hide WireOk, Exec;
    OutstandingTags(Exec(Init(fate, statusCb), es));
  }

  /** In every run the batches on the wire follow the protocol, and the messages among them are a
      prefix, in order, of those that Write accepted. */
  lemma WireIsLegal(fate: nat -> bool, statusCb: Option<nat>, es: seq<Event>)
    ensures Inv(Init(fate, statusCb))
    ensures var s := Exec(Init(fate, statusCb), es);
            && Legal(s.call.wire)
            && MessagesOn(s.call.wire) <= s.pushed
            && ([SendClose] in s.call.wire && s.status.Ok() ==> MessagesOn(s.call.wire) == s.pushed)
  {
    InitInv(fate, statusCb);
    hide TagsOk, Exec, Legal, MessagesOn;
  }

  // ----- The half-close and the initial metadata -----

  /** Write or ReadEach was called before the first CloseWriting. */
  predicate UsedBeforeClose(es: seq<Event>) {
    es != [] && !es[0].EvCloseWriting? && (es[0].EvWrite? || es[0].EvReadEach? || UsedBeforeClose(es[1..]))
  }

  /** What a step does to the wire, seen from the half-close: direct says that the step is the first
      CloseWriting. */
  ghost predicate Follows(s: State, r: State, direct: bool) {
    && s.call.wire <= r.call.wire
    && (s.inited ==> r.inited)
    && (s.writing.closeSent ==> r.writing.closeSent)
    && (!s.status.Ok() ==> r.call.wire == s.call.wire && !r.status.Ok())
    && ([SendClose] in r.call.wire && [SendClose] !in s.call.wire ==>
          r.call.wire == s.call.wire + [[SendClose]] && s.status.Ok() && !s.writing.closeSent && (direct || s.inited))
  }

  /** What a step before the first Write, ReadEach and CloseWriting does to the two flags. */
  ghost predicate Flags(s: State, e: Event, r: State) {
    && (e.EvWrite? || (e.EvReadEach? && !s.reading.started) ==> r.inited)
    && (e.EvCloseWriting? && s.queue == [] && !s.writing.closing && s.status.Ok() ==> r.writing.closeSent)
    && (!e.EvWrite? && !e.EvReadEach? ==> r.inited == s.inited)
    && (!e.EvCloseWriting? ==> r.writing.closing == s.writing.closing)
  }

  lemma InitFollows(s: State)
    ensures Follows(s, s.InitIfNot(), false) && s.InitIfNot().writing.closing == s.writing.closing
    ensures s.InitIfNot().writing.closeSent == s.writing.closeSent
    ensures [SendClose] in s.InitIfNot().call.wire ==> [SendClose] in s.call.wire
  {
    hide State.SameBooks, Call.After;
  }

  lemma WriteFollows(s: State, msg: string)
    ensures Follows(s, s.Write(msg), false) && Flags(s, EvWrite(msg), s.Write(msg))
  {
    hide State.SameBooks, Call.After;
    InitFollows(s);
    hide State.InitIfNot;
  }

  lemma ReadEachFollows(s: State, cb: Option<nat>)
    ensures Follows(s, s.ReadEach(cb), false) && Flags(s, EvReadEach(cb), s.ReadEach(cb))
  {
    hide State.SameBooks, Call.After;
    InitFollows(s.(reading := s.reading.(started := true)));
    hide State.InitIfNot;
  }

  lemma CloseWritingFollows(s: State)
    requires s.writing.closeSent ==> s.writing.closing
    ensures Follows(s, s.CloseWriting(), !s.writing.closing) && Flags(s, EvCloseWriting, s.CloseWriting())
  {
    hide State.SameBooks, Call.After;
  }

  lemma OnSentFollows(s: State, success: bool)
    requires s.queue != [] && (s.status.Ok() ==> !s.writing.closeSent && s.inited)
    ensures Follows(s, s.OnSent(success), false)
    ensures s.OnSent(success).inited == s.inited && s.OnSent(success).writing.closing == s.writing.closing
  {
    hide State.SameBooks, Call.After;
  }

  lemma OnReadWire(s: State, o: Outcome)
    ensures var r := s.OnRead(o);
            && (r.call.wire == s.call.wire || (s.status.Ok() && r.call.wire == s.call.wire + [[RecvMsg]]))
            && r.inited == s.inited && r.writing.closing == s.writing.closing && r.writing.closeSent == s.writing.closeSent
            && (!s.status.Ok() ==> !r.status.Ok())
  {
    hide State.SameBooks, Call.After, State.Report;
  }

  lemma OnReadFollows(s: State, o: Outcome)
    ensures Follows(s, s.OnRead(o), false)
    ensures s.OnRead(o).inited == s.inited && s.OnRead(o).writing.closing == s.writing.closing
  {
    OnReadWire(s, o);
    hide State.OnRead;
  }

  lemma SendingIsInited(s: State)
    requires Inv(s)
    ensures s.sendId.Some? && s.status.Ok() ==> s.inited
  {
    hide TagsOk, WireOk;
  }

  /** Taking the tag before and deleting it afterwards leaves wire and flags alone. */
  lemma LoopFollows(s: State, id: nat, e: Event, mid: State)
    requires e.EvComplete? && id in s.call.pending && id in mid.call.held
    requires Follows(s.(call := s.call.Take(id)), mid, false)
    requires mid.inited == s.inited && mid.writing.closing == s.writing.closing
    ensures var r := mid.(call := mid.call.Delete(id)); Follows(s, r, false) && Flags(s, e, r)
  {
  }

  lemma DoCompleteFollows(s: State, tag: Tag, o: Outcome)
    requires tag.SendMsgTag? ==> s.queue != [] && (s.status.Ok() ==> !s.writing.closeSent && s.inited)
    ensures Follows(s, s.DoComplete(tag, o), false)
    ensures s.DoComplete(tag, o).inited == s.inited && s.DoComplete(tag, o).writing.closing == s.writing.closing
  {
    hide State.OnSent, State.OnRead, State.SameBooks, Call.After;
    assert Follows(s, s, false);
    hide Follows;
    if tag.SendMsgTag? { OnSentFollows(s, o.success); }
    if tag.ReadTag? { OnReadFollows(s, o); }
  }

  lemma DeliverFollows(s: State, id: nat, o: Outcome)
    requires Inv(s) && id in s.call.pending
    ensures Follows(s, Deliver(s, id, o), false) && Flags(s, EvComplete(id, o), Deliver(s, id, o))
  {
    CompletionAsserts(s, id);
    SendingIsInited(s);
    hide Inv, State.DoComplete, Follows, Flags, Call.After;
    var taken, tag := s.(call := s.call.Take(id)), s.call.pending[id];
    DoCompleteFollows(taken, tag, o);
    var mid := taken.DoComplete(tag, o);
    TakenIsHeld(taken, mid, id);
    LoopFollows(s, id, EvComplete(id, o), mid);
  }

  lemma TakenIsHeld(taken: State, mid: State, id: nat)
    requires id in taken.call.held && mid.call.After(taken.call)
    ensures id in mid.call.held
  {
  }

  lemma StepFollows(s: State, e: Event)
    requires Inv(s)
    ensures Follows(s, Next(s, e), e.EvCloseWriting? && !s.writing.closing) && Flags(s, e, Next(s, e))
  {
    hide Core, Call.After, State.SameBooks;
    match e
    case EvWrite(msg) => WriteFollows(s, msg); hide State.Write, Follows, Flags;
    case EvCloseWriting => CloseWritingCore(s); CloseWritingFollows(s); hide State.CloseWriting, Follows, Flags;
    case EvReadEach(cb) => ReadEachFollows(s, cb); hide State.ReadEach, Follows, Flags;
    case EvSetErrorStatus(error) =>
    case EvComplete(id, o) =>
      if id in s.call.pending { DeliverFollows(s, id, o); hide Deliver, Follows, Flags; }
  }

  /** No half-close is out and none can go out any more. */
  ghost predicate Frozen(s: State) {
    [SendClose] !in s.call.wire && (!s.status.Ok() || s.writing.closeSent)
  }

  lemma {:induction false} FollowsRun(s: State, es: seq<Event>)
    requires Inv(s)
    ensures s.call.wire <= Exec(s, es).call.wire
    ensures Frozen(s) ==> Frozen(Exec(s, es))
    decreases |es|
  {
    hide Inv, Next;
    if es != [] {
      NextInv(s, es[0]);
      StepFollows(s, es[0]);
      FollowsRun(Next(s, es[0]), es[1..]);
    }
  }

  ghost predicate Used(s: State, es: seq<Event>) {
    s.inited || (!s.writing.closing && UsedBeforeClose(es))
  }

  lemma UsedStep(s: State, es: seq<Event>)
    requires Inv(s) && es != []
    ensures Inv(Next(s, es[0]))
    ensures !Frozen(Next(s, es[0])) && [SendClose] !in Next(s, es[0]).call.wire ==> (Used(s, es) <==> Used(Next(s, es[0]), es[1..]))
  {
    NextInv(s, es[0]);
    StepFollows(s, es[0]);
    hide TagsOk, WireOk, Next;
  }

  /** Both metadata batches stand before the half-close exactly when used holds. */
  ghost predicate MetadataBeforeClose(wire: seq<Batch>, used: bool) {
    forall i :: 0 <= i < |wire| && wire[i] == [SendClose] ==>
      ([SendInitMd] in wire[..i] <==> used) && ([RecvInitMd] in wire[..i] <==> used)
  }

  lemma CloseStandsOnce(wire: seq<Batch>, later: seq<Batch>, used: bool)
    requires wire + [[SendClose]] <= later && OncePerBatch(later)
    requires ([SendInitMd] in wire <==> used) && ([RecvInitMd] in wire <==> used)
    ensures MetadataBeforeClose(later, used)
  {
    var n := |wire|;
    assert later[n] == (wire + [[SendClose]])[n] && later[..n] == wire;
    assert forall i :: 0 <= i < |later| && later[i] == [SendClose] ==> i == n;
  }

  lemma CloseGoesOut(s: State, e: Event, later: seq<Batch>)
    requires Inv(s) && Follows(s, Next(s, e), e.EvCloseWriting? && !s.writing.closing)
    requires [SendClose] !in s.call.wire && [SendClose] in Next(s, e).call.wire
    requires Next(s, e).call.wire <= later && Legal(later)
    ensures MetadataBeforeClose(later, s.inited)
    ensures s.inited || (e.EvCloseWriting? && !s.writing.closing)
  {
    assert ([SendInitMd] in s.call.wire <==> s.inited) && ([RecvInitMd] in s.call.wire <==> s.inited) by {
      hide TagsOk, Legal, MessagesOn, Next;
    }
    hide Inv, Next, MetadataBeforeClose, OncePerBatch;
    CloseStandsOnce(s.call.wire, later, s.inited);
  }

  lemma {:induction false} MetadataRun(s: State, es: seq<Event>)
    requires Inv(s) && [SendClose] !in s.call.wire
    ensures MetadataBeforeClose(Exec(s, es).call.wire, Used(s, es))
    decreases |es|
  {
    hide Inv, Next, Follows, Legal, UsedBeforeClose;
    if es != [] {
      NextInv(s, es[0]);
      var s' := Next(s, es[0]);
      FollowsRun(s', es[1..]);
      if [SendClose] in s'.call.wire {
        LegalInv(Exec(s', es[1..]));
        StepFollows(s, es[0]);
        CloseGoesOut(s, es[0], Exec(s', es[1..]).call.wire);
        if es[0].EvCloseWriting? { ClosingIsNoUse(es); }
      } else if !Frozen(s') {
        UsedStep(s, es);
        MetadataRun(s', es[1..]);
      }
    }
  }

  lemma ClosingIsNoUse(es: seq<Event>)
    requires es != [] && es[0].EvCloseWriting?
    ensures !UsedBeforeClose(es)
  {
  }

  lemma LegalInv(s: State)
    requires Inv(s)
    ensures Legal(s.call.wire)
  {
    hide TagsOk, Legal, MessagesOn;
  }

  /** In every run both kinds of initial metadata stand before the half-close if and only if Write or
      ReadEach was called before the first CloseWriting, whether CloseWriting starts the half-close
      itself or the last send completion does. */
  lemma MetadataPrecedesCloseIff(fate: nat -> bool, statusCb: Option<nat>, es: seq<Event>)
    ensures Inv(Init(fate, statusCb))
    ensures MetadataBeforeClose(Exec(Init(fate, statusCb), es).call.wire, UsedBeforeClose(es))
  {
    InitInv(fate, statusCb);
    MetadataRun(Init(fate, statusCb), es);
  }

  /** A stream that is closed before it was used: the half-close is all there is on the wire. */
  lemma HalfCloseGoesFirst(fate: nat -> bool, statusCb: Option<nat>)
    requires fate(0)
    ensures Inv(Init(fate, statusCb))
    ensures Exec(Init(fate, statusCb), [EvCloseWriting]).call.wire == [[SendClose]]
  {
    var s0 := Init(fate, statusCb);
    InitInv(fate, statusCb);
    NextInv(s0, EvCloseWriting);
    hide Core;
    assert Exec(s0, [EvCloseWriting]) == Exec(Next(s0, EvCloseWriting), []);
  }

  /** The messages that Write accepted, read off the run. */
  function Accepted(s: State, es: seq<Event>): seq<string>
    requires Inv(s)
    decreases |es|
  {
    if es == [] then []
    else
      NextInv(s, es[0]);
      (if es[0].EvWrite? && s.Accepts() then [es[0].msg] else []) + Accepted(Next(s, es[0]), es[1..])
  }

  predicate ShowsMessage(s: State, e: Event) {
    && e.EvComplete? && e.id in s.call.pending && s.call.pending[e.id].ReadTag? && s.status.Ok()
    && e.outcome.success && e.outcome.received.Message? && s.msgCb.Some?
  }

  /** The messages that arrived for the message callback, read off the run. */
  function Arrived(s: State, es: seq<Event>): seq<string>
    requires Inv(s)
    decreases |es|
  {
    if es == [] then []
    else
      NextInv(s, es[0]);
      (if ShowsMessage(s, es[0]) then [es[0].outcome.received.msg] else []) + Arrived(Next(s, es[0]), es[1..])
  }

  lemma StepBooks(s: State, e: Event)
    requires Inv(s)
    ensures Next(s, e).pushed == s.pushed + if e.EvWrite? && s.Accepts() then [e.msg] else []
    ensures Next(s, e).delivered == s.delivered + if ShowsMessage(s, e) then [e.outcome.received.msg] else []
  {
    hide Core, State.Write, State.ReadEach, State.CloseWriting, State.SetErrorStatus, State.OnSent, State.OnRead, State.Accepts;
    if e.EvCloseWriting? { CloseWritingCore(s); }
    if e.EvComplete? && e.id in s.call.pending { CompletionAsserts(s, e.id); }
  }

  /** What Write accepted is on its way in order, and the message callback saw exactly the decoded
      messages, in the order of their arrival. */
  lemma {:induction false} RunBooks(s: State, es: seq<Event>)
    requires Inv(s)
    ensures Exec(s, es).pushed == s.pushed + Accepted(s, es)
    ensures Exec(s, es).delivered == s.delivered + Arrived(s, es)
    decreases |es|
  {
    hide Inv, Next, ShowsMessage, State.Accepts;
    if es != [] {
      NextInv(s, es[0]);
      StepBooks(s, es[0]);
      RunBooks(Next(s, es[0]), es[1..]);
    }
  }

  // ----- The terminal callback -----

  /** Both halves ended normally and the terminal callback was not called. */
  predicate Stuck(s: State) {
    s.status.Ok() && s.reading.ended && s.writing.ended && s.statusCb.Some?
  }

  /** CloseWriting is about to start the half-close itself, after reading has ended. */
  predicate ClosesLate(s: State, e: Event) {
    && e.EvCloseWriting? && s.status.Ok() && !s.writing.closing && s.queue == []
    && s.reading.ended && s.call.WillStart()
  }

  function ClosedLate(s: State, es: seq<Event>): bool
    requires Inv(s)
    decreases |es|
  {
    es != [] && (ClosesLate(s, es[0]) || (NextInv(s, es[0]); ClosedLate(Next(s, es[0]), es[1..])))
  }

  /** The callbacks made so far are never revoked, and a bad status stays bad. */
  ghost predicate Advances(s: State, r: State) {
    r.given == s.given && s.fired <= r.fired && (!s.status.Ok() ==> !r.status.Ok())
  }

  ghost predicate StuckAs(s: State, r: State, late: bool) {
    Advances(s, r) && (r.status.Ok() ==> (Stuck(r) <==> Stuck(s) || late))
  }

  lemma StuckWrite(s: State, msg: string)
    requires Core(s)
    ensures StuckAs(s, s.Write(msg), false)
  {
    hide Call.After;
    hide TagsOk, WireOk, State.SameBooks;
    var r := s.InitIfNot();
    InitFrame(s);
    hide State.InitIfNot;
  }

  lemma InitFrame(s: State)
    requires Core(s)
    ensures var r := s.InitIfNot();
            StuckAs(s, r, false) && r.sendId == s.sendId &&
            (r.status.Ok() ==> s.status.Ok() && r.reading == s.reading && r.writing == s.writing && r.statusCb == s.statusCb)
  {
    hide TagsOk, WireOk, State.SameBooks;
  }

  lemma StuckReadEach(s: State, cb: Option<nat>)
    requires Core(s)
    ensures StuckAs(s, s.ReadEach(cb), false)
  {
    hide Call.After;
    hide TagsOk, WireOk, State.SameBooks;
    if !s.reading.started {
      var started := s.(reading := s.reading.(started := true));
      var r := started.InitIfNot();
      assert StuckAs(started, r, false);
    }
  }

  lemma StuckCloseWriting(s: State)
    requires Core(s) && s.given.Some?
    ensures s.writing.closeSent ==> s.writing.closing
    ensures StuckAs(s, s.CloseWriting(), ClosesLate(s, EvCloseWriting))
  {
    hide Call.After;
    hide TagsOk, WireOk, State.SameBooks;
    ClosingWire(s);
    if !s.writing.closing && s.status.Ok() && s.queue == [] {
      var r := s.(writing := s.writing.(closing := true)).SendCloseBatch();
      assert r.status.Ok() <==> s.call.WillStart();
      assert s.CloseWriting() == r;
      assert r.fired == if s.call.WillStart() then s.fired else s.(status := r.status).Report(r.status);
    }
  }

  lemma StuckOnSent(s: State, id: nat, success: bool)
    requires Core(s) && s.sendId == Some(id) && id in s.call.pending
    ensures s.queue != [] && (s.status.Ok() ==> !s.writing.closeSent)
    ensures StuckAs(s, s.(call := s.call.Take(id)).OnSent(success), false)
  {
    hide Call.After;
    hide TagsOk, WireOk, State.SameBooks;
    TakeSend(s, id);
    var popped := s.(call := s.call.Take(id), queue := s.queue[1..], sendId := None);
    if s.status.Ok() && success && popped.queue == [] && s.writing.closing {
      var closed := popped.SendCloseBatch();
      assert closed.status.Ok() ==> !Stuck(s) && (closed.reading.ended ==> closed.CallStatusCb().statusCb.None?);
    }
  }

  lemma StuckOnRead(s: State, id: nat, o: Outcome)
    requires Core(s) && s.readId == Some(id) && id in s.call.pending
    ensures StuckAs(s, s.(call := s.call.Take(id)).OnRead(o), false)
  {
    hide Call.After;
    hide TagsOk, WireOk, State.SameBooks;
  }

  lemma StuckStep(s: State, e: Event)
    requires Inv(s) && s.given.Some?
    ensures StuckAs(s, Next(s, e), ClosesLate(s, e))
  {
    hide Core;
    match e
    case EvWrite(msg) => StuckWrite(s, msg); hide State.Write;
    case EvCloseWriting => StuckCloseWriting(s); hide State.CloseWriting;
    case EvReadEach(cb) => StuckReadEach(s, cb); hide State.ReadEach;
    case EvSetErrorStatus(error) => StuckSetErrorStatus(s, error);
    case EvComplete(id, o) => if id in s.call.pending { StuckDeliver(s, id, o); }
  }

  lemma StuckSetErrorStatus(s: State, error: Status)
    requires Core(s)
    ensures !error.Ok() ==> StuckAs(s, s.SetErrorStatus(error), false)
  {
    hide TagsOk, WireOk, State.SameBooks;
  }

  lemma StuckDeliver(s: State, id: nat, o: Outcome)
    requires Inv(s) && id in s.call.pending
    ensures StuckAs(s, Deliver(s, id, o), false)
  {
    hide Core, State.OnSent, State.OnRead;
    CompletionAsserts(s, id);
    if s.sendId == Some(id) { StuckOnSent(s, id, o.success); }
    else if s.readId == Some(id) { StuckOnRead(s, id, o); }
  }

  lemma {:induction false} StuckRun(s: State, es: seq<Event>)
    requires Inv(s) && s.given.Some?
    ensures StuckAs(s, Exec(s, es), ClosedLate(s, es))
    decreases |es|
  {
    hide Inv, Next, Stuck, ClosesLate;
    if es != [] {
      NextInv(s, es[0]);
      StuckStep(s, es[0]);
      StuckRun(Next(s, es[0]), es[1..]);
    }
  }

  /** The terminal callback is called at most once.  Once reading was started, writing closed and no
      send or read is outstanding, it has been called exactly once, unless the status is still OK
      and CloseWriting started the half-close itself after reading had ended. */
  lemma TerminalCallbackOnce(fate: nat -> bool, cb: nat, es: seq<Event>)
    ensures Inv(Init(fate, Some(cb)))
    ensures var s0 := Init(fate, Some(cb)); var s := Exec(s0, es);
            && |s.fired| <= 1
            && (s.fired != [] ==> s.fired[0].cb == cb)
            && (s.reading.started && s.writing.closing && SendTags(s) == {} && ReadTags(s) == {} ==>
                  (|s.fired| == 1 <==> !(s.status.Ok() && ClosedLate(s0, es))))
  {
    InitInv(fate, Some(cb));
    StuckRun(Init(fate, Some(cb)), es);
    hide WireOk, Exec, ClosedLate;
    OutstandingTags(Exec(Init(fate, Some(cb)), es));
  }

  /** From s to r no callback was made, or the terminal one was, with the status that the stream then
      has; both halves have ended in r. */
  ghost predicate Tells(s: State, r: State) {
    r.fired == s.fired
    || (s.statusCb.Some? && r.fired == s.fired + [Fired(s.statusCb.value, r.status)] && r.reading.ended && r.writing.ended)
  }

  lemma CallbackTellsStatus(s: State, e: Event)
    requires Inv(s)
    ensures Tells(s, Next(s, e))
  {
    hide Core, Call.After, State.SameBooks;
    match e
    case EvWrite(msg) => WriteTells(s, msg); hide State.Write;
    case EvCloseWriting => CloseWritingCore(s); CloseWritingTells(s); hide State.CloseWriting;
    case EvReadEach(cb) => ReadEachTells(s, cb); hide State.ReadEach;
    case EvSetErrorStatus(error) =>
    case EvComplete(id, o) =>
      if id in s.call.pending {
        CompletionAsserts(s, id);
        if s.sendId == Some(id) { OnSentTells(s, id, o.success); } else if s.readId == Some(id) { OnReadTells(s, id, o); }
        hide State.OnSent, State.OnRead;
      }
  }

  lemma WriteTells(s: State, msg: string)
    requires Core(s)
    ensures Tells(s, s.Write(msg))
  {
    hide TagsOk, WireOk, State.SameBooks, Call.After;
    InitTells(s);
    hide State.InitIfNot;
  }

  lemma InitTells(s: State)
    ensures var r := s.InitIfNot(); Tells(s, r) && (r.status.Ok() ==> r.statusCb == s.statusCb && r.fired == s.fired)
  {
    hide State.SameBooks, Call.After;
  }

  lemma CloseWritingTells(s: State)
    requires s.writing.closeSent ==> s.writing.closing
    ensures Tells(s, s.CloseWriting())
  {
    hide State.SameBooks, Call.After;
  }

  lemma ReadEachTells(s: State, cb: Option<nat>)
    ensures Tells(s, s.ReadEach(cb))
  {
    hide State.SameBooks, Call.After;
    var started := s.(reading := s.reading.(started := true));
    InitTells(started);
    hide State.InitIfNot;
  }

  lemma OnSentTells(s: State, id: nat, success: bool)
    requires Core(s) && s.sendId == Some(id) && id in s.call.pending
    ensures s.queue != [] && (s.status.Ok() ==> !s.writing.closeSent)
    ensures Tells(s, s.(call := s.call.Take(id)).OnSent(success))
  {
    hide TagsOk, WireOk, State.SameBooks, Call.After;
    TakeSend(s, id);
  }

  lemma OnReadTells(s: State, id: nat, o: Outcome)
    requires id in s.call.pending
    ensures Tells(s, s.(call := s.call.Take(id)).OnRead(o))
  {
    hide State.SameBooks, Call.After;
  }

  lemma ReadFirst(fate: nat -> bool, cb: nat, read: Option<nat>)
    requires forall k :: 0 <= k <= 3 ==> fate(k)
    ensures Inv(Init(fate, Some(cb)))
    ensures var s := Next(Init(fate, Some(cb)), EvReadEach(read));
            && s.status == OK && s.readId == Some(2) && s.msgCb == read && s.queue == [] && s.statusCb == Some(cb) && s.fired == []
            && s.writing == Writing(false, false, false) && s.call.next == 3 && s.call.fate == fate
  {
    InitInv(fate, Some(cb));
    hide Core, MessagesOn, Legal;
  }

  lemma ServerEndsFirst(s: State, id: nat, end: Outcome)
    requires Inv(s) && s.status.Ok() && s.readId == Some(id) && !s.writing.ended
    requires end.success && end.received.EndOfStream?
    ensures id in s.call.pending
    ensures var r := Next(s, EvComplete(id, end));
            && r == s.(call := r.call, readId := None, reading := s.reading.(ended := true))
            && r.call.next == s.call.next && r.call.fate == s.call.fate
  {
    hide WireOk;
    CompletionAsserts(s, id);
  }

  lemma CloseLateIsSilent(s: State)
    requires Inv(s) && ClosesLate(s, EvCloseWriting)
    ensures var r := Next(s, EvCloseWriting);
            && r.reading.ended && r.writing.ended && SendTags(r) == {} && ReadTags(r) == {}
            && r.fired == s.fired && r.statusCb == s.statusCb && r.status.Ok()
  {
    NextInv(s, EvCloseWriting);
    OutstandingTags(Next(s, EvCloseWriting));
    ClosingWire(s);
    hide TagsOk, WireOk;
  }

  /** The stream ends without a callback: the server ends first, then the client closes. */
  lemma LateCloseIsSilent(fate: nat -> bool, cb: nat, read: Option<nat>)
    requires forall k :: 0 <= k <= 3 ==> fate(k)
    ensures Inv(Init(fate, Some(cb)))
    ensures var end := Outcome(true, EndOfStream, OK, OK);
            var s := Exec(Init(fate, Some(cb)), [EvReadEach(read), EvComplete(2, end), EvCloseWriting]);
            s.reading.ended && s.writing.ended && SendTags(s) == {} && ReadTags(s) == {} && s.fired == []
  {
    hide Inv, Next, SendTags, ReadTags;
    var end := Outcome(true, EndOfStream, OK, OK);
    InitInv(fate, Some(cb));
    var s0 := Init(fate, Some(cb));
    NextInv(s0, EvReadEach(read));
    ReadFirst(fate, cb, read);
    var s1 := Next(s0, EvReadEach(read));
    NextInv(s1, EvComplete(2, end));
    ServerEndsFirst(s1, 2, end);
    var s2 := Next(s1, EvComplete(2, end));
    NextInv(s2, EvCloseWriting);
    CloseLateIsSilent(s2);
    var es := [EvReadEach(read), EvComplete(2, end), EvCloseWriting];
    assert es[1..] == [EvComplete(2, end), EvCloseWriting] && es[1..][1..] == [EvCloseWriting] && [EvCloseWriting][1..] == [];
    assert Exec(s2, [EvCloseWriting]) == Exec(Next(s2, EvCloseWriting), []);
    assert Exec(s1, es[1..]) == Exec(s2, [EvCloseWriting]);
  }

  /** A callback once made is never made again or taken back. */
  lemma CallbackIsFinal(s: State, es: seq<Event>)
    requires Inv(s) && s.given.Some?
    ensures s.fired <= Exec(s, es).fired && |Exec(s, es).fired| <= 1
  {
    StuckRun(s, es);
    hide WireOk, TagsOk, Exec;
  }

  // ----- Destruction -----

  /** The object is destroyed when its wrapper has closed writing and no send or read tag shares it
      any more.  Then writing has ended, and reading has ended exactly when ReadEach was called or
      an error occurred: that is when the destructor's assertions hold. */
  lemma DestructorAssertsHoldIff(fate: nat -> bool, statusCb: Option<nat>, es: seq<Event>)
    ensures Inv(Init(fate, statusCb))
    ensures var s := Exec(Init(fate, statusCb), es);
            s.writing.closing && SendTags(s) == {} && ReadTags(s) == {} ==>
              s.writing.ended && (s.reading.ended <==> s.reading.started || !s.status.Ok())
  {
    InitInv(fate, statusCb);
    hide WireOk, Exec;
    OutstandingTags(Exec(Init(fate, statusCb), es));
  }

  /** A stream that is only closed, never read: the destructor's reading assertion fails. */
  lemma DestructorAssertCanFail()
    ensures Inv(Init(_ => true, None))
    ensures var s := Exec(Init(_ => true, None), [EvCloseWriting]);
            s.writing.closing && SendTags(s) == {} && ReadTags(s) == {} && s.writing.ended && !s.reading.ended
  {
    var s0 := Init(_ => true, None);
    InitInv(_ => true, None);
    NextInv(s0, EvCloseWriting);
    var s := Next(s0, EvCloseWriting);
    assert Exec(s0, [EvCloseWriting]) == Exec(s, []) == s;
    OutstandingTags(s);
  }
}
