/** How the bidirectional client stream ends and what it sends, read off the events of a run: which
    error a step meets, which batches it starts, and what the terminal callback is told
    (src/client/impl/client_async_reader_writer_impl.cc). */
module ReaderWriterEndings {
  import opened Grpc
  import opened ReaderWriterModel

  // ----- What a step meets on a healthy stream -----

  /** The refused start of the initial metadata. */
  function InitError(s: State): Option<Status> {
    var n := s.call.next;
    if s.inited then None
    else if !s.call.fate(n) then Some(InternalError(FailedToSendInitMdBidi))
    else if !s.call.fate(n + 1) then Some(InternalError(FailedToRecvInitMdBidi))
    else None
  }

  function InitSends(s: State): seq<Batch> {
    var n := s.call.next;
    if s.inited || !s.call.fate(n) then []
    else if !s.call.fate(n + 1) then [[SendInitMd]]
    else [[SendInitMd], [RecvInitMd]]
  }

  /** Whether the first start after initialisation is accepted. */
  predicate StartsAfterInit(s: State) { s.call.fate(if s.inited then s.call.next else s.call.next + 2) }

  /** The error that a step meets: a refused start, a failed send or read, a message that does not
      parse, the verdict of the message callback, or the argument of SetErrorStatus. */
  function StepError(s: State, e: Event): Option<Status> {
    match e
    case EvWrite(_) =>
      if InitError(s).Some? then InitError(s)
      else if s.writing.closing || s.queue != [] || StartsAfterInit(s) then None
      else Some(InternalError(FailedToWriteBidi))
    case EvCloseWriting =>
      if s.writing.closing || s.queue != [] || s.call.fate(s.call.next) then None
      else Some(InternalError(FailedToCloseWriting))
    case EvReadEach(_) =>
      if s.reading.started then None
      else if InitError(s).Some? then InitError(s)
      else if StartsAfterInit(s) then None
      else Some(InternalError(FailedToReadBidi))
    case EvSetErrorStatus(error) => if error.Ok() then None else Some(error)
    case EvComplete(id, o) =>
      if id !in s.call.pending then None
      else match s.call.pending[id]
           case SendMsgTag(_) => SentError(s, o.success)
           case ReadTag => ReadError(s, o)
           case _ => None
  }

  function SentError(s: State, success: bool): Option<Status> {
    if !success then Some(InternalError(FailedToSendMessage))
    else if s.call.fate(s.call.next) then None
    else if |s.queue| > 1 then Some(InternalError(FailedToWriteBidi))
    else if s.writing.closing then Some(InternalError(FailedToCloseWriting))
    else None
  }

  function ReadError(s: State, o: Outcome): Option<Status> {
    if !o.success then Some(InternalError(ClientReaderReadCqTagFailed))
    else match o.received
         case EndOfStream => None
         case Garbled => Some(InternalError(FailedToReadRecvBuffer))
         case Message(_) =>
           if s.msgCb.Some? && !o.verdict.Ok() then Some(o.verdict)
           else if s.call.fate(s.call.next) then None
           else Some(InternalError(FailedToReadBidi))
  }

  /** The batches that a step puts on the wire. */
  function StepSends(s: State, e: Event): seq<Batch> {
    match e
    case EvWrite(msg) =>
      InitSends(s) + if InitError(s).None? && !s.writing.closing && s.queue == [] && StartsAfterInit(s) then [[SendMsg(msg)]] else []
    case EvCloseWriting =>
      if !s.writing.closing && s.queue == [] && s.call.fate(s.call.next) then [[SendClose]] else []
    case EvReadEach(_) =>
      if s.reading.started then []
      else InitSends(s) + if InitError(s).None? && StartsAfterInit(s) then [[RecvMsg]] else []
    case EvSetErrorStatus(_) => []
    case EvComplete(id, o) =>
      if id !in s.call.pending then []
      else match s.call.pending[id]
           case SendMsgTag(_) => SentSends(s, o.success)
           case ReadTag => if ReadError(s, o).None? && o.received.Message? then [[RecvMsg]] else []
           case _ => []
  }

  function SentSends(s: State, success: bool): seq<Batch> {
    if !success || !s.call.fate(s.call.next) then []
    else if |s.queue| > 1 then [[SendMsg(s.queue[1])]]
    else if s.writing.closing then [[SendClose]]
    else []
  }

  /** A read completes with the end of the stream. */
  predicate EndsRead(s: State, e: Event) {
    && e.EvComplete? && e.id in s.call.pending && s.call.pending[e.id].ReadTag?
    && e.outcome.success && e.outcome.received.EndOfStream?
  }

  /** The last send's completion starts the half-close. */
  predicate EndsWrite(s: State, e: Event) {
    && e.EvComplete? && e.id in s.call.pending && s.call.pending[e.id].SendMsgTag?
    && e.outcome.success && |s.queue| == 1 && s.writing.closing && s.call.fate(s.call.next)
  }

  /** The second half ends normally in a completion. */
  predicate EndsBoth(s: State, e: Event) {
    (EndsRead(s, e) && [SendClose] in s.call.wire) || (EndsWrite(s, e) && s.reading.ended)
  }

  /** What a step tells the terminal callback, if that is still to be called. */
  function StepEnd(s: State, e: Event): Option<Status> {
    if StepError(s, e).Some? then StepError(s, e) else if EndsBoth(s, e) then Some(OK) else None
  }

  // ----- Every step does just that -----

  /** The step met this error, sent these batches, and told the callback this. */
  ghost predicate Does(s: State, r: State, error: Option<Status>, sends: seq<Batch>, end: Option<Status>) {
    && r.status == (if error.Some? then error.value else s.status)
    && r.call.wire == s.call.wire + sends && r.call.fate == s.call.fate
    && (if end.None? || s.statusCb.None? then r.fired == s.fired
        else r.fired == s.fired + [Fired(s.statusCb.value, end.value)])
    && r.statusCb == (if end.None? then s.statusCb else None)
  }

  lemma InitDoes(s: State)
    requires s.status.Ok()
    ensures var r := s.InitIfNot();
            && Does(s, r, InitError(s), InitSends(s), InitError(s))
            && (InitError(s).None? ==> r.call.WillStart() == StartsAfterInit(s) && r.msgCb == s.msgCb)
            && r.queue == s.queue && r.writing.closing == s.writing.closing && (InitError(s).None? ==> r.writing == s.writing)
  {
    hide State.SameBooks, Call.After, Call.Accounted;
  }

  lemma WriteDoes(s: State, msg: string)
    requires s.status.Ok() && (s.writing.ended ==> s.writing.closing)
    ensures var e := EvWrite(msg); Does(s, s.Write(msg), StepError(s, e), StepSends(s, e), StepError(s, e))
  {
    hide State.SameBooks, Call.After, Call.Accounted;
    InitDoes(s);
    hide State.InitIfNot, InitError, InitSends, StartsAfterInit;
  }

  lemma ReadEachDoes(s: State, cb: Option<nat>)
    requires s.status.Ok()
    ensures var e := EvReadEach(cb); Does(s, s.ReadEach(cb), StepError(s, e), StepSends(s, e), StepError(s, e))
    ensures s.ReadEach(cb).msgCb == if !s.reading.started && InitError(s).None? then cb else s.msgCb
  {
    hide State.SameBooks, Call.After, Call.Accounted;
    InitDoes(s.(reading := s.reading.(started := true)));
    hide State.InitIfNot, InitSends, StartsAfterInit;
  }

  lemma CloseWritingDoes(s: State)
    requires s.status.Ok() && (s.writing.closeSent ==> s.writing.closing)
    ensures var e := EvCloseWriting; Does(s, s.CloseWriting(), StepError(s, e), StepSends(s, e), StepError(s, e))
  {
    hide State.SameBooks, Call.After, Call.Accounted;
  }

  lemma OnSentDoes(s: State, success: bool)
    requires s.status == OK && s.queue != [] && !s.writing.closeSent
    ensures var ends := success && |s.queue| == 1 && s.writing.closing && s.call.WillStart() && s.reading.ended;
            var error := SentError(s, success);
            Does(s, s.OnSent(success), error, SentSends(s, success), if error.Some? then error else if ends then Some(OK) else None)
  {
    hide State.SameBooks, Call.After, Call.Accounted;
  }

  lemma OnReadDoes(s: State, o: Outcome)
    requires s.status == OK
    ensures var ends := o.success && o.received.EndOfStream? && s.writing.ended;
            var error := ReadError(s, o);
            Does(s, s.OnRead(o), error, if error.None? && o.received.Message? then [[RecvMsg]] else [],
                 if error.Some? then error else if ends then Some(OK) else None)
    ensures s.OnRead(o).call.After(s.call)
  {
    hide State.SameBooks, Call.After, Call.Accounted;
  }

  /** The half-close that a healthy stream has sent is on the wire. */
  ghost predicate CloseOut(s: State) {
    s.status.Ok() ==> (s.writing.ended <==> [SendClose] in s.call.wire)
  }

  lemma HealthyFacts(s: State)
    requires Inv(s)
    ensures s.writing.closeSent ==> s.writing.closing
    ensures s.status.Ok() ==> s.status == OK && s.writing.ended == s.writing.closeSent
    ensures s.status.Ok() && s.writing.closeSent ==> s.queue == []
  {
    ClosingWire(s);
    hide TagsOk, WireOk;
  }

  lemma TakeDoes(s: State, taken: State, mid: State, r: State, error: Option<Status>, sends: seq<Batch>, end: Option<Status>)
    requires Does(taken, mid, error, sends, end)
    requires taken == s.(call := taken.call) && taken.call.wire == s.call.wire && taken.call.fate == s.call.fate
    requires r == mid.(call := r.call) && r.call.wire == mid.call.wire && r.call.fate == mid.call.fate
    ensures Does(s, r, error, sends, end)
  {
  }

  /** A completion, up to the deletion of its tag. */
  lemma DeliversUpTo(s: State, id: nat, o: Outcome)
    requires Inv(s) && id in s.call.pending
    ensures var taken, tag := s.(call := s.call.Take(id)), s.call.pending[id];
            && (tag.SendMsgTag? ==> s.queue != [] && (s.status.Ok() ==> !s.writing.closeSent))
            && var mid := if tag.SendMsgTag? then taken.OnSent(o.success) else if tag.ReadTag? then taken.OnRead(o) else taken;
            && id in mid.call.held && Deliver(s, id, o) == mid.(call := mid.call.Delete(id))
  {
    hide Inv, State.OnSent, State.OnRead, State.SameBooks;
    CompletionAsserts(s, id);
  }

  lemma SentDelivers(s: State, id: nat, o: Outcome)
    requires Inv(s) && s.status.Ok() && CloseOut(s) && id in s.call.pending && s.call.pending[id].SendMsgTag?
    ensures var e := EvComplete(id, o); Does(s, Deliver(s, id, o), StepError(s, e), StepSends(s, e), StepEnd(s, e))
  {
    hide Inv, State.OnSent, Call.After, Call.Accounted, Does, SentError, SentSends, Deliver;
    HealthyFacts(s);
    DeliversUpTo(s, id, o);
    var taken, e := s.(call := s.call.Take(id)), EvComplete(id, o);
    SameBefore(s, taken, o);
    OnSentDoes(taken, o.success);
    TakeDoes(s, taken, taken.OnSent(o.success), Deliver(s, id, o), StepError(s, e), StepSends(s, e), StepEnd(s, e));
  }

  lemma ReadDelivers(s: State, id: nat, o: Outcome)
    requires Inv(s) && s.status.Ok() && CloseOut(s) && id in s.call.pending && s.call.pending[id].ReadTag?
    ensures var e := EvComplete(id, o); Does(s, Deliver(s, id, o), StepError(s, e), StepSends(s, e), StepEnd(s, e))
  {
    hide Inv, State.OnRead, Call.After, Call.Accounted, Does, Deliver;
    HealthyFacts(s);
    DeliversUpTo(s, id, o);
    var taken, e := s.(call := s.call.Take(id)), EvComplete(id, o);
    SameBefore(s, taken, o);
    OnReadDoes(taken, o);
    TakeDoes(s, taken, taken.OnRead(o), Deliver(s, id, o), StepError(s, e), StepSends(s, e), StepEnd(s, e));
  }

  lemma DeliverDoes(s: State, id: nat, o: Outcome)
    requires Inv(s) && s.status.Ok() && CloseOut(s) && id in s.call.pending
    ensures var e := EvComplete(id, o); Does(s, Deliver(s, id, o), StepError(s, e), StepSends(s, e), StepEnd(s, e))
  {
    hide Inv, Call.After, Call.Accounted, Does, Deliver;
    var tag := s.call.pending[id];
    if tag.SendMsgTag? {
      SentDelivers(s, id, o);
    } else if tag.ReadTag? {
      ReadDelivers(s, id, o);
    } else {
      DeliversUpTo(s, id, o);
      NothingDone(s);
      TakeDoes(s, s, s, Deliver(s, id, o), None, [], None);
    }
  }

  lemma NothingDone(s: State)
    ensures Does(s, s, None, [], None)
  {
  }

  lemma SameBefore(s: State, t: State, o: Outcome)
    requires t == s.(call := t.call) && t.call.fate == s.call.fate && t.call.next == s.call.next
    ensures SentError(t, o.success) == SentError(s, o.success) && SentSends(t, o.success) == SentSends(s, o.success)
    ensures ReadError(t, o) == ReadError(s, o)
  {
  }

  /** On a healthy stream every step meets its error, sends its batches and tells the callback its end,
      and does nothing else of the kind. */
  lemma StepDoes(s: State, e: Event)
    requires Inv(s) && s.status.Ok() && CloseOut(s)
    ensures Does(s, Next(s, e), StepError(s, e), StepSends(s, e), StepEnd(s, e))
  {
    HealthyFacts(s);
    hide Inv, Does, State.Write, State.CloseWriting, State.ReadEach, Call.After;
    match e
    case EvWrite(msg) => WriteDoes(s, msg);
    case EvCloseWriting => CloseWritingDoes(s);
    case EvReadEach(cb) => ReadEachDoes(s, cb);
    case EvSetErrorStatus(error) => SetErrorDoes(s, error);
    case EvComplete(id, o) =>
      if id in s.call.pending { DeliverDoes(s, id, o); hide Deliver; } else { NothingDone(s); }
  }

  lemma SetErrorDoes(s: State, error: Status)
    requires s.status.Ok()
    ensures var e := EvSetErrorStatus(error);
            Does(s, if error.Ok() then s else s.SetErrorStatus(error), StepError(s, e), [], StepError(s, e))
  {
  }

  // ----- The flags, and the failed stream -----

  /** The flags and the message callback after a step; the ended flags are told for healthy streams. */
  ghost predicate Flags(s: State, e: Event, r: State) {
    && r.reading.started == (s.reading.started || e.EvReadEach?)
    && r.writing.closing == (s.writing.closing || e.EvCloseWriting?)
    && r.msgCb == (if e.EvReadEach? && !s.reading.started && s.status.Ok() && InitError(s).None? then e.cb else s.msgCb)
    && (r.status.Ok() ==>
          && (r.reading.ended <==> s.reading.ended || EndsRead(s, e))
          && (r.writing.ended <==> s.writing.ended || [SendClose] in StepSends(s, e)))
  }

  /** Nothing that anybody else sees. */
  ghost predicate Silent(s: State, r: State) {
    r.call.wire == s.call.wire && r.call.fate == s.call.fate && r.fired == s.fired && r.statusCb == s.statusCb
  }

  lemma InitKeeps(s: State)
    ensures var r := s.InitIfNot();
            && r.reading.started == s.reading.started && r.writing.closing == s.writing.closing && r.msgCb == s.msgCb
            && (r.status.Ok() <==> s.status.Ok() && InitError(s).None?)
            && (r.status.Ok() ==> r.reading == s.reading && r.writing == s.writing)
            && (!s.status.Ok() ==> Silent(s, r) && r.status == s.status)
            && [SendClose] !in InitSends(s)
  {
    hide State.SameBooks, Call.After, Call.Accounted;
  }

  lemma WriteKeeps(s: State, msg: string)
    ensures Flags(s, EvWrite(msg), s.Write(msg))
    ensures !s.status.Ok() ==> Silent(s, s.Write(msg)) && s.Write(msg).status == s.status
  {
    hide State.SameBooks, Call.After, Call.Accounted;
    InitKeeps(s);
    hide State.InitIfNot, InitSends, InitError;
  }

  lemma ReadEachKeeps(s: State, cb: Option<nat>)
    ensures Flags(s, EvReadEach(cb), s.ReadEach(cb))
    ensures !s.status.Ok() ==> Silent(s, s.ReadEach(cb)) && s.ReadEach(cb).status == s.status
  {
    hide State.SameBooks, Call.After, Call.Accounted;
    var started := s.(reading := s.reading.(started := true));
    InitKeeps(started);
    assert InitError(started) == InitError(s) && InitSends(started) == InitSends(s);
    hide State.InitIfNot, InitSends, InitError;
  }

  lemma CloseWritingKeeps(s: State)
    requires s.writing.closeSent ==> s.writing.closing
    ensures Flags(s, EvCloseWriting, s.CloseWriting())
    ensures !s.status.Ok() ==> Silent(s, s.CloseWriting()) && s.CloseWriting().status == s.status
  {
    hide State.SameBooks, Call.After, Call.Accounted;
  }

  lemma OnSentKeeps(s: State, success: bool)
    requires s.queue != [] && (s.status.Ok() ==> !s.writing.closeSent)
    ensures var r := s.OnSent(success);
            && r.reading.started == s.reading.started && r.writing.closing == s.writing.closing && r.msgCb == s.msgCb
            && (r.status.Ok() ==> r.reading.ended == s.reading.ended
                                  && (r.writing.ended <==> s.writing.ended || [SendClose] in SentSends(s, success)))
            && (!s.status.Ok() ==> Silent(s, r) && r.status == s.status)
  {
    hide State.SameBooks, Call.After, Call.Accounted;
  }

  lemma OnReadKeeps(s: State, o: Outcome)
    ensures var r := s.OnRead(o);
            && r.reading.started == s.reading.started && r.writing.closing == s.writing.closing && r.msgCb == s.msgCb
            && (r.status.Ok() ==> (r.reading.ended <==> s.reading.ended || (o.success && o.received.EndOfStream?))
                                  && r.writing.ended == s.writing.ended)
            && (!s.status.Ok() ==> Silent(s, r) && r.status == s.status)
  {
    hide State.SameBooks, Call.After, Call.Accounted;
  }

  lemma DeliverKeeps(s: State, id: nat, o: Outcome)
    requires Inv(s) && id in s.call.pending
    ensures Flags(s, EvComplete(id, o), Deliver(s, id, o))
    ensures !s.status.Ok() ==> Silent(s, Deliver(s, id, o)) && Deliver(s, id, o).status == s.status
  {
    hide Inv, State.OnSent, State.OnRead, Call.After, Call.Accounted, Deliver, ReadError;
    DeliversUpTo(s, id, o);
    var taken := s.(call := s.call.Take(id));
    SameBefore(s, taken, o);
    if s.call.pending[id].SendMsgTag? { OnSentKeeps(taken, o.success); hide SentSends; }
    if s.call.pending[id].ReadTag? { OnReadKeeps(taken, o); }
  }

  /** In every step the flags follow the events; a failed stream stays silent, and only SetErrorStatus
      changes its status. */
  lemma StepKeeps(s: State, e: Event)
    requires Inv(s)
    ensures Flags(s, e, Next(s, e))
    ensures !s.status.Ok() ==>
              && Silent(s, Next(s, e))
              && Next(s, e).status == if e.EvSetErrorStatus? && !e.error.Ok() then e.error else s.status
  {
    HealthyFacts(s);
    hide Inv, Flags, State.Write, State.CloseWriting, State.ReadEach, Call.After;
    match e
    case EvWrite(msg) => WriteKeeps(s, msg);
    case EvCloseWriting => CloseWritingKeeps(s);
    case EvReadEach(cb) => ReadEachKeeps(s, cb);
    case EvSetErrorStatus(error) => SetErrorKeeps(s, error);
    case EvComplete(id, o) =>
      if id in s.call.pending { DeliverKeeps(s, id, o); hide Deliver; } else { NoEvent(s, e); }
  }

  lemma SetErrorKeeps(s: State, error: Status)
    ensures Flags(s, EvSetErrorStatus(error), if error.Ok() then s else s.SetErrorStatus(error))
  {
  }

  lemma NoEvent(s: State, e: Event)
    requires e.EvComplete? && e.id !in s.call.pending
    ensures Flags(s, e, s)
  {
  }

  lemma CloseOutStays(s: State, e: Event)
    requires Inv(s) && CloseOut(s)
    ensures CloseOut(Next(s, e))
  {
    StepKeeps(s, e);
    if s.status.Ok() { StepDoes(s, e); }
    hide Inv, Next, StepSends, StepError, EndsRead, EndsBoth, InitError;
  }

  // ----- Whole runs -----

  /** The first end in the run: of several errors the first one, and OK if both halves ended normally
      in a completion before any of them. */
  function RunEnd(s: State, es: seq<Event>): Option<Status>
    requires Inv(s)
    decreases |es|
  {
    if es == [] then None
    else if StepEnd(s, es[0]).Some? then StepEnd(s, es[0])
    else
      NextInv(s, es[0]);
      RunEnd(Next(s, es[0]), es[1..])
  }

  /** The error that a SetErrorStatus of the run sets last. */
  function LastSet(status: Status, es: seq<Event>): Status
    decreases |es|
  {
    if es == [] then status
    else LastSet(if es[0].EvSetErrorStatus? && !es[0].error.Ok() then es[0].error else status, es[1..])
  }

  /** The status after the run: OK until the first error, and then that or what SetErrorStatus set last. */
  function RunStatus(s: State, es: seq<Event>): Status
    requires Inv(s)
    decreases |es|
  {
    if es == [] then OK
    else if StepError(s, es[0]).Some? then LastSet(StepError(s, es[0]).value, es[1..])
    else
      NextInv(s, es[0]);
      RunStatus(Next(s, es[0]), es[1..])
  }

  /** A read of the run completes with the end of the stream. */
  predicate ReadEnds(s: State, es: seq<Event>)
    requires Inv(s)
    decreases |es|
  {
    es != [] && (EndsRead(s, es[0]) || (NextInv(s, es[0]); ReadEnds(Next(s, es[0]), es[1..])))
  }

  /** The message callback of the first ReadEach, if that finds the stream healthy and can send the
      initial metadata. */
  function FirstRead(s: State, es: seq<Event>): Option<nat>
    requires Inv(s)
    decreases |es|
  {
    if es == [] then None
    else if es[0].EvReadEach? then (if s.status.Ok() && InitError(s).None? then es[0].cb else None)
    else
      NextInv(s, es[0]);
      FirstRead(Next(s, es[0]), es[1..])
  }

  /** Everything that the run puts on the wire. */
  function RunSends(s: State, es: seq<Event>): seq<Batch>
    requires Inv(s)
    decreases |es|
  {
    if es == [] then []
    else
      NextInv(s, es[0]);
      (if s.status.Ok() then StepSends(s, es[0]) else []) + RunSends(Next(s, es[0]), es[1..])
  }

  /** A callback that was made is not made again, and a failed stream tells nothing. */
  lemma {:induction false} ToldForGood(s: State, es: seq<Event>)
    requires Inv(s) && CloseOut(s) && s.statusCb.None?
    ensures Exec(s, es).fired == s.fired
    decreases |es|
  {
    hide Inv, Next, StepError, StepSends, StepEnd, Flags, CloseOut;
    if es != [] {
      NextInv(s, es[0]);
      StepKeeps(s, es[0]);
      if s.status.Ok() { StepDoes(s, es[0]); }
      CloseOutStays(s, es[0]);
      ToldForGood(Next(s, es[0]), es[1..]);
    }
  }

  lemma {:induction false} RunTells(s: State, es: seq<Event>)
    requires Inv(s) && CloseOut(s) && s.status.Ok() && s.statusCb.Some?
    ensures Exec(s, es).fired == s.fired + match RunEnd(s, es) case None => [] case Some(st) => [Fired(s.statusCb.value, st)]
    decreases |es|
  {
    hide Inv, Next, StepError, StepSends, Flags, CloseOut, EndsBoth;
    if es != [] {
      NextInv(s, es[0]);
      StepDoes(s, es[0]);
      CloseOutStays(s, es[0]);
      if StepEnd(s, es[0]).Some? {
        ToldForGood(Next(s, es[0]), es[1..]);
      } else {
        RunTells(Next(s, es[0]), es[1..]);
      }
    }
  }

  lemma {:induction false} RunSendsAll(s: State, es: seq<Event>)
    requires Inv(s) && CloseOut(s)
    ensures Exec(s, es).call.wire == s.call.wire + RunSends(s, es)
    ensures CloseOut(Exec(s, es))
    decreases |es|
  {
    hide Inv, Next, StepError, StepSends, StepEnd, Flags, CloseOut;
    if es != [] {
      NextInv(s, es[0]);
      StepKeeps(s, es[0]);
      if s.status.Ok() { StepDoes(s, es[0]); }
      CloseOutStays(s, es[0]);
      RunSendsAll(Next(s, es[0]), es[1..]);
    } else {
      assert s.call.wire + [] == s.call.wire;
    }
  }

  lemma {:induction false} FailedRunStatus(s: State, es: seq<Event>)
    requires Inv(s) && !s.status.Ok()
    ensures Exec(s, es).status == LastSet(s.status, es) && !Exec(s, es).status.Ok()
    decreases |es|
  {
    hide Inv, Next, Flags, Silent;
    if es != [] {
      NextInv(s, es[0]);
      StepKeeps(s, es[0]);
      FailedRunStatus(Next(s, es[0]), es[1..]);
    }
  }

  lemma ErrorIsBad(s: State, e: Event)
    ensures StepError(s, e).Some? ==> !StepError(s, e).value.Ok()
  {
  }

  lemma {:induction false} HealthyRunStatus(s: State, es: seq<Event>)
    requires Inv(s) && CloseOut(s) && s.status == OK
    ensures Exec(s, es).status == RunStatus(s, es)
    decreases |es|
  {
    hide Inv, Next, StepError, StepSends, StepEnd, CloseOut;
    if es != [] {
      NextInv(s, es[0]);
      StepDoes(s, es[0]);
      ErrorIsBad(s, es[0]);
      CloseOutStays(s, es[0]);
      if StepError(s, es[0]).Some? {
        FailedRunStatus(Next(s, es[0]), es[1..]);
      } else {
        HealthyRunStatus(Next(s, es[0]), es[1..]);
      }
    }
  }

  lemma {:induction false} RunHalves(s: State, es: seq<Event>)
    requires Inv(s)
    ensures Exec(s, es).status.Ok() ==> s.status.Ok() && (Exec(s, es).reading.ended <==> s.reading.ended || ReadEnds(s, es))
    decreases |es|
  {
    hide Inv, Next, EndsRead, StepSends, Silent, InitError;
    if es != [] {
      NextInv(s, es[0]);
      StepKeeps(s, es[0]);
      RunHalves(Next(s, es[0]), es[1..]);
    }
  }

  lemma {:induction false} RunMsgCb(s: State, es: seq<Event>)
    requires Inv(s)
    ensures s.reading.started ==> Exec(s, es).msgCb == s.msgCb
    ensures !s.reading.started && s.msgCb.None? ==> Exec(s, es).msgCb == FirstRead(s, es)
    decreases |es|
  {
    hide Inv, Next, EndsRead, StepSends, Silent, InitError;
    if es != [] {
      NextInv(s, es[0]);
      StepKeeps(s, es[0]);
      RunMsgCb(Next(s, es[0]), es[1..]);
    }
  }

  /** Write accepts a message exactly when the stream is healthy, can send the initial metadata if that is
      still to be sent, and CloseWriting was not called; the answer is true unless its own start is
      refused. */
  lemma AcceptsIff(s: State)
    requires Inv(s)
    ensures s.Accepts() <==> s.status.Ok() && InitError(s).None? && !s.writing.closing
    ensures s.WriteResult() <==> s.Accepts() && (s.queue != [] || StartsAfterInit(s))
  {
    HealthyFacts(s);
    InitKeeps(s);
    if s.status.Ok() { InitDoes(s); }
    hide Inv, State.InitIfNot, InitError, InitSends;
  }

  lemma StartsOut(fate: nat -> bool, statusCb: Option<nat>)
    ensures var s := Init(fate, statusCb);
            && Inv(s) && CloseOut(s) && s.status == OK && s.statusCb == statusCb && s.fired == [] && s.call.wire == []
            && s.reading == Reading(false, false) && s.msgCb.None?
  {
    InitInv(fate, statusCb);
  }

  /** In every run the terminal callback is told the run's end and nothing else: OK if both halves ended
      normally in a completion before any error, and otherwise the first error.  The stream's status
      is OK until that error, and from then on the error, or what SetErrorStatus set last. */
  lemma CallbackTellsRunEnd(fate: nat -> bool, cb: nat, es: seq<Event>)
    ensures Inv(Init(fate, Some(cb)))
    ensures var s0 := Init(fate, Some(cb)); var s := Exec(s0, es);
            && s.fired == (match RunEnd(s0, es) case None => [] case Some(st) => [Fired(cb, st)])
            && s.status == RunStatus(s0, es)
  {
    hide Inv, Exec, RunEnd, RunStatus, CloseOut, Init;
    StartsOut(fate, Some(cb));
    RunTells(Init(fate, Some(cb)), es);
    HealthyRunStatus(Init(fate, Some(cb)), es);
  }

  /** The wire of every run, batch by batch, and what the ended flags of a healthy stream stand for: a
      read that completed with the end of the stream, and a half-close on the wire. */
  lemma WireOfRun(fate: nat -> bool, statusCb: Option<nat>, es: seq<Event>)
    ensures Inv(Init(fate, statusCb))
    ensures var s0 := Init(fate, statusCb); var s := Exec(s0, es);
            && s.call.wire == RunSends(s0, es)
            && (s.status.Ok() ==> (s.reading.ended <==> ReadEnds(s0, es)) && (s.writing.ended <==> [SendClose] in s.call.wire))
  {
    hide Inv, Exec, RunSends, ReadEnds, Init;
    StartsOut(fate, statusCb);
    RunSendsAll(Init(fate, statusCb), es);
    RunHalves(Init(fate, statusCb), es);
  }

  /** In every run the messages that arrive are shown to the message callback of the first ReadEach. */
  lemma MessageCallbackIsFirst(fate: nat -> bool, statusCb: Option<nat>, es: seq<Event>)
    ensures Inv(Init(fate, statusCb))
    ensures var s0 := Init(fate, statusCb); Exec(s0, es).msgCb == FirstRead(s0, es)
  {
    hide Inv, Exec, FirstRead, Init;
    StartsOut(fate, statusCb);
    RunMsgCb(Init(fate, statusCb), es);
  }
}
