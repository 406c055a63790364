/** The server's read chains as a state machine: ServerReader::Start begins a chain, which goes on one
    tag after another (src/server/server_reader.cc, src/server/impl/cqtag/server_reader_cqtag.h).
    Nothing keeps a reader from being started again, so any number of chains may be under way. */
module ServerReaderModel {
  import opened Grpc

  /** The reader's virtual functions, as they are called. */
  datatype Note = OnMsgStr(msg: string) | OnError(status: Status) | OnEnd

  /** History only: the reader has no fields of its own. */
  datatype State = State(call: Call, starts: nat, trace: seq<Note>)
  {
    function EndOnError(st: Status): (r: State)
      ensures r.call == call
    {
      this.(trace := trace + [OnError(st), OnEnd])
    }

    /** Allocate the next tag and start it; cause is reported when it is refused. */
    function ReadNext(cause: Cause): (r: State)
      ensures r.call.After(call)
    {
      var s := this.(call := call.Launch(ServerReadTag, [RecvMsg]));
      if call.WillStart() then s else s.EndOnError(InternalError(cause))
    }

    function Start(): (r: State)
      ensures r.call.After(call)
    {
      this.(starts := starts + 1).ReadNext(FailedToStartServerReader)
    }

    function DoComplete(o: Outcome): (r: State)
      ensures r.call.After(call)
    {
      if !o.success then EndOnError(InternalError(ServerReaderCqTagFailed))
      else match o.received
           case EndOfStream => this.(trace := trace + [OnEnd])
           case Garbled => EndOnError(ResultStatus(Garbled))
           case Message(msg) =>
             var shown := this.(trace := trace + [OnMsgStr(msg)]);
             if o.verdict.Ok() then shown.ReadNext(FailedToReadClientStreaming) else shown.EndOnError(o.verdict)
    }
  }

  function Init(fate: nat -> bool): State {
    State(NewCall(fate), 0, [])
  }

  // ----- What the reader has seen -----

  function Notes(msgs: seq<string>): seq<Note> {
    seq(|msgs|, i requires 0 <= i < |msgs| => OnMsgStr(msgs[i]))
  }

  function Shown(trace: seq<Note>): seq<string> {
    if trace == [] then []
    else
      var note := trace[|trace| - 1];
      Shown(trace[..|trace| - 1]) + if note.OnMsgStr? then [note.msg] else []
  }

  function Told(trace: seq<Note>): seq<Status> {
    if trace == [] then []
    else
      var note := trace[|trace| - 1];
      Told(trace[..|trace| - 1]) + if note.OnError? then [note.status] else []
  }

  function Ends(trace: seq<Note>): nat {
    if trace == [] then 0 else Ends(trace[..|trace| - 1]) + if trace[|trace| - 1].OnEnd? then 1 else 0
  }

  lemma Snoc(trace: seq<Note>, note: Note)
    ensures Shown(trace + [note]) == Shown(trace) + if note.OnMsgStr? then [note.msg] else []
    ensures Told(trace + [note]) == Told(trace) + if note.OnError? then [note.status] else []
    ensures Ends(trace + [note]) == Ends(trace) + if note.OnEnd? then 1 else 0
  {
    assert (trace + [note])[..|trace|] == trace;
  }

  lemma SnocError(trace: seq<Note>, st: Status)
    ensures Shown(trace + [OnError(st), OnEnd]) == Shown(trace)
    ensures Told(trace + [OnError(st), OnEnd]) == Told(trace) + [st]
    ensures Ends(trace + [OnError(st), OnEnd]) == Ends(trace) + 1
  {
    Snoc(trace, OnError(st));
    Snoc(trace + [OnError(st)], OnEnd);
    assert trace + [OnError(st)] + [OnEnd] == trace + [OnError(st), OnEnd];
  }

  /** OnError is told an error, and OnEnd follows it at once. */
  ghost predicate Paired(trace: seq<Note>) {
    forall i :: 0 <= i < |trace| && trace[i].OnError? ==> !trace[i].status.Ok() && i + 1 < |trace| && trace[i + 1] == OnEnd
  }

  ghost predicate EndsLast(trace: seq<Note>) { trace != [] && trace[|trace| - 1] == OnEnd }

  // ----- The invariant -----

  ghost predicate TagsOk(c: Call) {
    c.Accounted() && forall id :: id in c.pending ==> c.pending[id] == ServerReadTag
  }

  /** Every chain has one tag outstanding, or has ended with one OnEnd. */
  ghost predicate TraceOk(trace: seq<Note>, outstanding: nat, starts: nat) {
    && Paired(trace)
    && outstanding + Ends(trace) == starts
    && (starts == 0 ==> trace == [])
    && (starts > 0 && outstanding == 0 ==> EndsLast(trace))
  }

  ghost predicate Core(s: State) {
    TagsOk(s.call) && TraceOk(s.trace, |s.call.pending.Keys|, s.starts)
  }

  ghost predicate Inv(s: State) { Core(s) && s.call.held == {} }

  /** One of the chains is at work and has no tag outstanding. */
  ghost predicate Armed(s: State) {
    TagsOk(s.call) && Paired(s.trace) && |s.call.pending.Keys| + Ends(s.trace) + 1 == s.starts
  }

  lemma EndOnErrorCore(s: State, st: Status)
    requires Armed(s) && !st.Ok()
    ensures Core(s.EndOnError(st))
  {
    SnocError(s.trace, st);
    hide Ends;
  }

  lemma ReadNextCore(s: State, cause: Cause)
    requires Armed(s)
    ensures Core(s.ReadNext(cause))
  {
    if s.call.WillStart() {
      assert s.ReadNext(cause).call.pending.Keys == s.call.pending.Keys + {s.call.next};
      assert s.call.Owners(s.call.next) == 0;
    } else {
      EndOnErrorCore(s.(call := s.call.Launch(ServerReadTag, [RecvMsg])), InternalError(cause));
    }
  }

  lemma TakeArms(s: State, id: nat)
    requires Core(s) && id in s.call.pending
    ensures Armed(s.(call := s.call.Take(id)))
  {
    assert s.call.Take(id).pending.Keys == s.call.pending.Keys - {id};
  }

  lemma EndCore(s: State)
    requires Armed(s)
    ensures Core(s.(trace := s.trace + [OnEnd]))
  {
    Snoc(s.trace, OnEnd);
    hide Ends;
  }

  lemma ShownArms(s: State, msg: string)
    requires Armed(s)
    ensures Armed(s.(trace := s.trace + [OnMsgStr(msg)]))
  {
    Snoc(s.trace, OnMsgStr(msg));
    hide Ends;
  }

  lemma DoCompleteCore(s: State, id: nat, o: Outcome)
    requires Core(s) && id in s.call.pending
    ensures var r := s.(call := s.call.Take(id)).DoComplete(o);
            Core(r) && r.call.held == s.call.held + {id}
  {
    TakeArms(s, id);
    var taken := s.(call := s.call.Take(id));
    hide TagsOk, TraceOk, Armed;
    if !o.success {
      EndOnErrorCore(taken, InternalError(ServerReaderCqTagFailed));
    } else if o.received.EndOfStream? {
      EndCore(taken);
    } else if o.received.Garbled? {
      EndOnErrorCore(taken, ResultStatus(Garbled));
    } else {
      ShownArms(taken, o.received.msg);
      var shown := taken.(trace := s.trace + [OnMsgStr(o.received.msg)]);
      if o.verdict.Ok() { ReadNextCore(shown, FailedToReadClientStreaming); } else { EndOnErrorCore(shown, o.verdict); }
    }
  }

  // ----- Runs -----

  datatype Event = EvStart | EvComplete(id: nat, outcome: Outcome)

  function Deliver(s: State, id: nat, o: Outcome): State
    requires Inv(s) && id in s.call.pending
  {
    var r := s.(call := s.call.Take(id)).DoComplete(o);
    r.(call := r.call.Delete(id))
  }

  function Next(s: State, e: Event): State
    requires Inv(s)
  {
    match e
    case EvStart => s.Start()
    case EvComplete(id, o) => if id in s.call.pending then Deliver(s, id, o) else s
  }

  lemma StartInv(s: State)
    requires Inv(s)
    ensures Inv(s.Start())
  {
    ReadNextCore(s.(starts := s.starts + 1), FailedToStartServerReader);
  }

  lemma DeliverInv(s: State, id: nat, o: Outcome)
    requires Inv(s) && id in s.call.pending
    ensures Inv(Deliver(s, id, o))
  {
    DoCompleteCore(s, id, o);
    hide TraceOk;
    assert {id} - {id} == {};
  }

  lemma NextInv(s: State, e: Event)
    requires Inv(s)
    ensures Inv(Next(s, e))
  {
    hide Core;
    match e
    case EvStart => StartInv(s);
    case EvComplete(id, o) => if id in s.call.pending { DeliverInv(s, id, o); }
  }

  lemma InitInv(fate: nat -> bool)
    ensures Inv(Init(fate))
  {
  }

  function Exec(s: State, es: seq<Event>): (r: State)
    requires Inv(s)
    ensures Inv(r)
    decreases |es|
  {
    if es == [] then s
    else
      NextInv(s, es[0]);
      Exec(Next(s, es[0]), es[1..])
  }

  // ----- The history as functions of the events -----

  predicate Reads(s: State, e: Event) { e.EvComplete? && e.id in s.call.pending && e.outcome.success }

  /** The messages decoded, read off the run. */
  function Decoded(s: State, es: seq<Event>): seq<string>
    requires Inv(s)
    decreases |es|
  {
    if es == [] then []
    else
      NextInv(s, es[0]);
      (if Reads(s, es[0]) && es[0].outcome.received.Message? then [es[0].outcome.received.msg] else [])
        + Decoded(Next(s, es[0]), es[1..])
  }

  /** What this step gives OnError: the start that was refused, the read that failed, the message that
      does not parse, or the verdict of the reader itself on the message. */
  function StepErrors(s: State, e: Event): seq<Status> {
    match e
    case EvStart => if s.call.WillStart() then [] else [InternalError(FailedToStartServerReader)]
    case EvComplete(id, o) =>
      if id !in s.call.pending then []
      else if !o.success then [InternalError(ServerReaderCqTagFailed)]
      else if o.received.Garbled? then [InternalError(FailedToReadRecvBuffer)]
      else if o.received.EndOfStream? then []
      else if !o.verdict.Ok() then [o.verdict]
      else if s.call.WillStart() then []
      else [InternalError(FailedToReadClientStreaming)]
  }

  function Errors(s: State, es: seq<Event>): seq<Status>
    requires Inv(s)
    decreases |es|
  {
    if es == [] then []
    else
      NextInv(s, es[0]);
      StepErrors(s, es[0]) + Errors(Next(s, es[0]), es[1..])
  }

  /** How many reads completed with the end of the stream. */
  function StreamEnds(s: State, es: seq<Event>): nat
    requires Inv(s)
    decreases |es|
  {
    if es == [] then 0
    else
      NextInv(s, es[0]);
      (if Reads(s, es[0]) && es[0].outcome.received.EndOfStream? then 1 else 0) + StreamEnds(Next(s, es[0]), es[1..])
  }

  function Starts(es: seq<Event>): nat {
    if es == [] then 0 else (if es[0].EvStart? then 1 else 0) + Starts(es[1..])
  }

  lemma StepBooks(s: State, e: Event)
    requires Inv(s)
    ensures var r := Next(s, e);
            && Shown(r.trace) == Shown(s.trace) + (if Reads(s, e) && e.outcome.received.Message? then [e.outcome.received.msg] else [])
            && Told(r.trace) == Told(s.trace) + StepErrors(s, e)
            && Ends(r.trace) == Ends(s.trace) + |StepErrors(s, e)| + (if Reads(s, e) && e.outcome.received.EndOfStream? then 1 else 0)
            && r.starts == s.starts + if e.EvStart? then 1 else 0
  {
    hide Core, Shown, Told, Ends;
    var shown := if Reads(s, e) && e.outcome.received.Message? then s.trace + [OnMsgStr(e.outcome.received.msg)] else s.trace;
    if Reads(s, e) && e.outcome.received.Message? { Snoc(s.trace, OnMsgStr(e.outcome.received.msg)); }
    if Reads(s, e) && e.outcome.received.EndOfStream? { Snoc(s.trace, OnEnd); }
    if StepErrors(s, e) != [] {
      SnocError(shown, StepErrors(s, e)[0]);
      assert Next(s, e).trace == shown + [OnError(StepErrors(s, e)[0]), OnEnd];
    }
  }

  lemma {:induction false} RunBooks(s: State, es: seq<Event>)
    requires Inv(s)
    ensures var r := Exec(s, es);
            && Shown(r.trace) == Shown(s.trace) + Decoded(s, es)
            && Told(r.trace) == Told(s.trace) + Errors(s, es)
            && Ends(r.trace) == Ends(s.trace) + |Errors(s, es)| + StreamEnds(s, es)
            && r.starts == s.starts + Starts(es)
    decreases |es|
  {
    hide Inv, Next, Reads, StepErrors, Shown, Told, Ends;
    if es != [] {
      NextInv(s, es[0]);
      StepBooks(s, es[0]);
      RunBooks(Next(s, es[0]), es[1..]);
    }
  }

  /** Every run with any number of Starts: the reader sees exactly the decoded messages in arrival order
      and exactly the errors in the order of the steps that caused them, OnEnd right after each; a
      started chain has one read tag outstanding, or it has ended with one OnEnd, which was an error's
      or that of a read that completed with the end of the stream; when all have ended, OnEnd comes
      last. */
  lemma EveryChainEndsOnce(fate: nat -> bool, es: seq<Event>)
    ensures Inv(Init(fate))
    ensures var s0 := Init(fate); var s := Exec(s0, es);
            && (forall id :: id in s.call.pending ==> s.call.pending[id] == ServerReadTag)
            && Shown(s.trace) == Decoded(s0, es) && Told(s.trace) == Errors(s0, es) && Paired(s.trace)
            && |s.call.pending.Keys| + Ends(s.trace) == Starts(es)
            && Ends(s.trace) == |Errors(s0, es)| + StreamEnds(s0, es)
            && (Starts(es) > 0 && s.call.pending == map[] ==> EndsLast(s.trace))
  {
    InitInv(fate);
    assert Shown([]) == [] && Told([]) == [] && Ends([]) == 0;
    hide Inv, Exec, Decoded, Errors, StreamEnds, Starts, Shown, Told, Ends, Paired, EndsLast;
    RunBooks(Init(fate), es);
    ChainsOf(Exec(Init(fate), es));
  }

  lemma ChainsOf(s: State)
    requires Inv(s)
    ensures forall id :: id in s.call.pending ==> s.call.pending[id] == ServerReadTag
    ensures |s.call.pending.Keys| + Ends(s.trace) == s.starts && Paired(s.trace)
    ensures s.starts > 0 && s.call.pending == map[] ==> EndsLast(s.trace)
  {
    hide Paired, Ends, EndsLast;
    if s.call.pending == map[] { assert s.call.pending.Keys == {}; }
  }

  // ----- The wire -----

  function Reading(n: nat): seq<Batch> {
    if n == 0 then [] else Reading(n - 1) + [[RecvMsg]]
  }

  /** The reads that completed. */
  function ReadsDone(s: State, es: seq<Event>): nat
    requires Inv(s)
    decreases |es|
  {
    if es == [] then 0
    else
      NextInv(s, es[0]);
      (if es[0].EvComplete? && es[0].id in s.call.pending then 1 else 0) + ReadsDone(Next(s, es[0]), es[1..])
  }

  ghost predicate WireIs(s: State, done: nat) { s.call.wire == Reading(done + |s.call.pending.Keys|) }

  lemma ReadNextWire(s: State, cause: Cause, done: nat)
    requires s.call.Accounted() && WireIs(s, done)
    ensures WireIs(s.ReadNext(cause), done)
  {
    LaunchAdds(s.call);
    hide Call.Accounted, Call.Launch, Call.After;
  }

  lemma LaunchAdds(c: Call)
    requires c.Accounted()
    ensures var r := c.Launch(ServerReadTag, [RecvMsg]); var n := if c.WillStart() then 1 else 0;
            |r.pending.Keys| == |c.pending.Keys| + n && r.wire == c.wire + if n == 1 then [[RecvMsg]] else []
  {
    assert c.Owners(c.next) == 0;
    assert c.WillStart() ==> c.Launch(ServerReadTag, [RecvMsg]).pending.Keys == c.pending.Keys + {c.next};
    assert c.wire + [] == c.wire;
  }

  lemma DeliverWire(s: State, id: nat, o: Outcome, done: nat)
    requires Inv(s) && id in s.call.pending && WireIs(s, done)
    ensures WireIs(Deliver(s, id, o), done + 1)
  {
    assert s.call.Accounted();
    hide Inv, State.ReadNext, Call.Accounted, Call.After;
    var taken := s.(call := s.call.Take(id));
    assert taken.call.pending.Keys == s.call.pending.Keys - {id};
    assert WireIs(taken, done + 1);
    CompleteWire(taken, o, done + 1);
    hide WireIs, Reading, State.DoComplete;
    DeletedWire(taken.DoComplete(o), id, done + 1);
  }

  lemma CompleteWire(s: State, o: Outcome, done: nat)
    requires s.call.Accounted() && WireIs(s, done)
    ensures WireIs(s.DoComplete(o), done)
  {
    hide Reading, State.ReadNext, Call.Accounted, Call.After;
    if o.success && o.received.Message? && o.verdict.Ok() {
      ReadNextWire(s.(trace := s.trace + [OnMsgStr(o.received.msg)]), FailedToReadClientStreaming, done);
    }
  }

  lemma DeletedWire(s: State, id: nat, done: nat)
    requires WireIs(s, done) && id in s.call.held
    ensures WireIs(s.(call := s.call.Delete(id)), done)
  {
  }

  lemma WireStep(s: State, e: Event, done: nat)
    requires Inv(s) && WireIs(s, done)
    ensures WireIs(Next(s, e), done + if e.EvComplete? && e.id in s.call.pending then 1 else 0)
  {
    match e
    case EvStart => ReadNextWire(s.(starts := s.starts + 1), FailedToStartServerReader, done);
    case EvComplete(id, o) =>
      hide Deliver, Inv;
      if id in s.call.pending { DeliverWire(s, id, o, done); }
  }

  lemma {:induction false} WireRun(s: State, es: seq<Event>, done: nat)
    requires Inv(s) && WireIs(s, done)
    ensures WireIs(Exec(s, es), done + ReadsDone(s, es))
    decreases |es|
  {
    hide Inv, Next, WireIs;
    if es != [] {
      NextInv(s, es[0]);
      WireStep(s, es[0], done);
      WireRun(Next(s, es[0]), es[1..], done + if es[0].EvComplete? && es[0].id in s.call.pending then 1 else 0);
    }
  }

  /** In every run the reader starts nothing but single reads, as many as have completed and are
      outstanding. */
  lemma OnlyReads(fate: nat -> bool, es: seq<Event>)
    ensures Inv(Init(fate))
    ensures var s := Exec(Init(fate), es); s.call.wire == Reading(ReadsDone(Init(fate), es) + |s.call.pending.Keys|)
  {
    hide Inv, Exec, ReadsDone, Reading, Init;
    WireStarts(fate);
    WireRun(Init(fate), es, 0);
  }

  lemma WireStarts(fate: nat -> bool)
    ensures Inv(Init(fate)) && WireIs(Init(fate), 0)
  {
    InitInv(fate);
  }

  lemma {:induction false} NoEnds(trace: seq<Note>)
    requires Ends(trace) == 0
    ensures forall i :: 0 <= i < |trace| ==> trace[i] != OnEnd
  {
    if trace != [] {
      NoEnds(trace[..|trace| - 1]);
    }
  }

  lemma {:induction false} OnlyMessages(trace: seq<Note>)
    requires forall i :: 0 <= i < |trace| ==> trace[i].OnMsgStr?
    ensures trace == Notes(Shown(trace)) && Told(trace) == []
  {
    if trace != [] {
      OnlyMessages(trace[..|trace| - 1]);
      assert trace == trace[..|trace| - 1] + [trace[|trace| - 1]];
    }
  }

  function Ending(errors: seq<Status>): seq<Note> {
    if errors == [] then [OnEnd] else [OnError(errors[0]), OnEnd]
  }

  /** A chain that is over, on its own. */
  lemma OneChain(trace: seq<Note>)
    requires Paired(trace) && Ends(trace) == 1 && EndsLast(trace)
    ensures trace == Notes(Shown(trace)) + Ending(Told(trace))
  {
    var k := |trace| - 1;
    assert trace == trace[..k] + [OnEnd];
    Snoc(trace[..k], OnEnd);
    NoEnds(trace[..k]);
    assert forall i :: 0 <= i < k ==> trace[i] == trace[..k][i];
    if k > 0 { BeforeTheLast(trace, k - 1); }
    if k > 0 && trace[k - 1].OnError? {
      assert trace[..k] == trace[..k - 1] + [trace[k - 1]];
      Snoc(trace[..k - 1], trace[k - 1]);
      OnlyMessages(trace[..k - 1]);
    } else {
      OnlyMessages(trace[..k]);
    }
  }

  /** Before an OnEnd there is no OnError, except right before it. */
  lemma BeforeTheLast(trace: seq<Note>, k: nat)
    requires Paired(trace) && k < |trace| && forall i :: 0 <= i <= k ==> trace[i] != OnEnd
    ensures forall i :: 0 <= i < k ==> trace[i].OnMsgStr?
  {
    forall i | 0 <= i < k
      ensures trace[i].OnMsgStr?
    {
      assert trace[i + 1] != OnEnd;
    }
  }

  lemma NoChain(trace: seq<Note>)
    requires Paired(trace) && Ends(trace) == 0
    ensures trace == Notes(Shown(trace)) && Told(trace) == []
  {
    NoEnds(trace);
    OnlyMessages(trace);
  }

  lemma AtMostOneChain(s: State)
    requires Inv(s) && s.starts <= 1
    ensures |s.call.pending.Keys| + Ends(s.trace) == s.starts
    ensures s.starts > 0 ==> (s.call.pending == map[] <==> Ends(s.trace) == 1)
    ensures s.trace == Notes(Shown(s.trace)) + if Ends(s.trace) == 0 then [] else Ending(Told(s.trace))
    ensures Ends(s.trace) == 0 ==> Told(s.trace) == []
  {
    hide TagsOk, Shown, Told, Ends, Notes, Paired;
    assert |s.call.pending.Keys| == 0 <==> s.call.pending == map[] by {
      if |s.call.pending.Keys| == 0 { assert s.call.pending.Keys == {}; }
    }
    if Ends(s.trace) == 1 { OneChain(s.trace); } else { NoChain(s.trace); }
  }

  lemma RunStarts(fate: nat -> bool, es: seq<Event>)
    ensures Inv(Init(fate)) && Exec(Init(fate), es).starts == Starts(es)
  {
    hide Inv, Exec, Shown, Told, Ends;
    InitInv(fate);
    RunBooks(Init(fate), es);
  }

  /** In every run with one Start at most one read tag is outstanding; the reader sees OnMsgStr for
      exactly the decoded messages in order, and as soon as no tag is outstanding, OnError with the
      run's error if there was one, and then OnEnd exactly once and last.  Without OnError it ends
      exactly when a read completed with the end of the stream. */
  lemma ServerReaderTrace(fate: nat -> bool, es: seq<Event>)
    requires Starts(es) <= 1
    ensures Inv(Init(fate))
    ensures var s0 := Init(fate); var s := Exec(s0, es); var errors := Errors(s0, es);
            && |s.call.pending.Keys| <= 1 && |errors| <= 1
            && s.trace == Notes(Decoded(s0, es)) +
                 (if Starts(es) == 0 || s.call.pending != map[] then []
                  else if errors == [] then [OnEnd] else [OnError(errors[0]), OnEnd])
            && (Starts(es) == 1 && s.call.pending == map[] ==> (errors == [] <==> StreamEnds(s0, es) == 1))
  {
    hide Inv, Exec, Decoded, Errors, StreamEnds, Starts, Shown, Told, Ends, Notes, Paired;
    EveryChainEndsOnce(fate, es);
    RunStarts(fate, es);
    AtMostOneChain(Exec(Init(fate), es));
  }
}
