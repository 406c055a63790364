/** One stream among any number of others, driven by one completion loop: it makes its own run, so that
    what holds in all runs of its kind holds of it in every program. */
module StreamRuns {
  import opened Grpc
  import opened CompletionLoop
  import CW = ClientWriterModel
  import RW = ReaderWriterModel
  import CR = ClientReaderModel
  import SW = ServerWriterModel
  import SR = ServerReaderModel

  /** The events of the stream numbered i, of each kind, among the steps of the program. */
  function ClientWriterEvents(i: nat, steps: seq<Step>): seq<CW.Event> {
    if steps == [] then []
    else
      (match steps[0]
       case Call(j, UseClientWriter(e)) => if j == i && !e.EvComplete? then [e] else []
       case Complete(j, id, o) => if j == i then [CW.EvComplete(id, o)] else []
       case _ => []) + ClientWriterEvents(i, steps[1..])
  }

  function ReaderWriterEvents(i: nat, steps: seq<Step>): seq<RW.Event> {
    if steps == [] then []
    else
      (match steps[0]
       case Call(j, UseReaderWriter(e)) => if j == i && !e.EvComplete? then [e] else []
       case Complete(j, id, o) => if j == i then [RW.EvComplete(id, o)] else []
       case _ => []) + ReaderWriterEvents(i, steps[1..])
  }

  function ClientReaderEvents(i: nat, steps: seq<Step>): seq<CR.Event> {
    if steps == [] then []
    else
      (match steps[0]
       case Call(j, UseClientReader(e)) => if j == i && !e.EvComplete? then [e] else []
       case Complete(j, id, o) => if j == i then [CR.EvComplete(id, o)] else []
       case _ => []) + ClientReaderEvents(i, steps[1..])
  }

  function ServerWriterEvents(i: nat, steps: seq<Step>): seq<SW.Event> {
    if steps == [] then []
    else
      (match steps[0]
       case Call(j, UseServerWriter(e)) => if j == i && !e.EvComplete? then [e] else []
       case Complete(j, id, o) => if j == i then [SW.EvComplete(id, o.success)] else []
       case _ => []) + ServerWriterEvents(i, steps[1..])
  }

  function ServerReaderEvents(i: nat, steps: seq<Step>): seq<SR.Event> {
    if steps == [] then []
    else
      (match steps[0]
       case Call(j, UseServerReader) => if j == i then [SR.EvStart] else []
       case Complete(j, id, o) => if j == i then [SR.EvComplete(id, o)] else []
       case _ => []) + ServerReaderEvents(i, steps[1..])
  }

  /** The stream alone, after its own share of the steps. */
  function OwnRun(s: Stream, i: nat, steps: seq<Step>): Stream
    requires s.Valid()
  {
    match s
    case ClientWriter(t) => ClientWriter(CW.Exec(t, ClientWriterEvents(i, steps)))
    case ReaderWriter(t) => ReaderWriter(RW.Exec(t, ReaderWriterEvents(i, steps)))
    case ClientReader(t) => ClientReader(CR.Exec(t, ClientReaderEvents(i, steps)))
    case ServerWriter(t) => ServerWriter(SW.Exec(t, ServerWriterEvents(i, steps)))
    case ServerReader(t) => ServerReader(SR.Exec(t, ServerReaderEvents(i, steps)))
  }

  /** What one step of the program is to the stream numbered i. */
  function OwnStep(s: Stream, i: nat, step: Step): Stream
    requires s.Valid()
  {
    match (s, step)
    case (ClientWriter(t), Call(j, UseClientWriter(e))) => if j == i && !e.EvComplete? then ClientWriter(CW.Next(t, e)) else s
    case (ReaderWriter(t), Call(j, UseReaderWriter(e))) => if j == i && !e.EvComplete? then ReaderWriter(RW.Next(t, e)) else s
    case (ClientReader(t), Call(j, UseClientReader(e))) => if j == i && !e.EvComplete? then ClientReader(CR.Next(t, e)) else s
    case (ServerWriter(t), Call(j, UseServerWriter(e))) => if j == i && !e.EvComplete? then ServerWriter(SW.Next(t, e)) else s
    case (ServerReader(t), Call(j, UseServerReader)) => if j == i then ServerReader(SR.Next(t, SR.EvStart)) else s
    case (ClientWriter(t), Complete(j, id, o)) => if j == i then ClientWriter(CW.Next(t, CW.EvComplete(id, o))) else s
    case (ReaderWriter(t), Complete(j, id, o)) => if j == i then ReaderWriter(RW.Next(t, RW.EvComplete(id, o))) else s
    case (ClientReader(t), Complete(j, id, o)) => if j == i then ClientReader(CR.Next(t, CR.EvComplete(id, o))) else s
    case (ServerWriter(t), Complete(j, id, o)) => if j == i then ServerWriter(SW.Next(t, SW.EvComplete(id, o.success))) else s
    case (ServerReader(t), Complete(j, id, o)) => if j == i then ServerReader(SR.Next(t, SR.EvComplete(id, o))) else s
    case _ => s
  }

  /** Only a client writer's half-close has completions that are impossible. */
  lemma AlwaysPossible(s: Stream, id: nat, o: Outcome)
    requires s.Valid() && !s.ClientWriter? && id in s.CallOf().pending
    ensures CanComplete(s, id, o)
  {
    hide CW.Inv, RW.WireOk, CR.TraceOk, SW.WireOk, SR.TraceOk;
  }

  lemma ClientWriterCompletes(t: CW.State, id: nat, o: Outcome)
    requires CW.Inv(t)
    ensures CW.Next(t, CW.EvComplete(id, o)) == if id in t.call.pending && CW.Possible(t.call.pending[id], o) then CW.Deliver(t, id, o) else t
  {
    hide CW.Inv, CW.Deliver, CW.State.Write, CW.State.Close;
  }

  lemma ReaderWriterCompletes(t: RW.State, id: nat, o: Outcome)
    requires RW.Inv(t)
    ensures RW.Next(t, RW.EvComplete(id, o)) == if id in t.call.pending then RW.Deliver(t, id, o) else t
  {
    hide RW.Inv, RW.Deliver, RW.State.Write, RW.State.CloseWriting, RW.State.ReadEach, RW.State.SetErrorStatus;
  }

  lemma ClientReaderCompletes(t: CR.State, id: nat, o: Outcome)
    requires CR.Inv(t)
    ensures CR.Next(t, CR.EvComplete(id, o)) == if id in t.call.pending then CR.Deliver(t, id, o) else t
  {
    hide CR.Inv, CR.Deliver, CR.State.Start;
  }

  lemma ServerWriterCompletes(t: SW.State, id: nat, o: Outcome)
    requires SW.Inv(t)
    ensures SW.Next(t, SW.EvComplete(id, o.success)) == if id in t.call.pending then SW.Deliver(t, id) else t
  {
    hide SW.Inv, SW.Deliver, SW.State.AsyncWrite, SW.State.AsyncClose;
  }

  lemma ServerReaderCompletes(t: SR.State, id: nat, o: Outcome)
    requires SR.Inv(t)
    ensures SR.Next(t, SR.EvComplete(id, o)) == if id in t.call.pending then SR.Deliver(t, id, o) else t
  {
    hide SR.Inv, SR.Deliver, SR.State.Start;
  }

  lemma CompletesAlone(s: Stream, i: nat, id: nat, o: Outcome)
    requires s.Valid()
    ensures OwnStep(s, i, Complete(i, id, o)) == if CanComplete(s, id, o) then Completed(s, id, o) else s
  {
    if id in s.CallOf().pending {
      CompletedIsDelivered(s, id, o);
      if !s.ClientWriter? { AlwaysPossible(s, id, o); }
    }
    hide CW.Inv, RW.Inv, CR.Inv, SW.Inv, SR.Inv, CW.Deliver, RW.Deliver, CR.Deliver, SW.Deliver, SR.Deliver, Completed,
      CW.Next, RW.Next, CR.Next, SW.Next, SR.Next;
    match s
    case ClientWriter(t) => ClientWriterCompletes(t, id, o);
    case ReaderWriter(t) => ReaderWriterCompletes(t, id, o);
    case ClientReader(t) => ClientReaderCompletes(t, id, o);
    case ServerWriter(t) => ServerWriterCompletes(t, id, o);
    case ServerReader(t) => ServerReaderCompletes(t, id, o);
  }

  lemma MoveIsOwnStep(streams: map<nat, Stream>, step: Step, i: nat)
    requires AllValid(streams) && i in streams
    ensures streams[i].Valid() && i in Move(streams, step)
    ensures Move(streams, step)[i] == OwnStep(streams[i], i, step)
  {
    hide Stream.Valid, Completed, CanComplete, Create, CW.Next, RW.Next, CR.Next, SW.Next, SR.Next;
    if step.Complete? && step.stream == i {
      CompletesAlone(streams[i], i, step.id, step.outcome);
      hide OwnStep;
    }
  }

  lemma OwnStepValid(s: Stream, i: nat, step: Step)
    requires s.Valid()
    ensures OwnStep(s, i, step).Valid()
  {
    hide Stream.Valid;
    MoveIsOwnStep(map[i := s], step, i);
    MoveValid(map[i := s], step);
  }

  lemma OwnRunUnfolds(s: Stream, i: nat, steps: seq<Step>)
    requires s.Valid() && steps != []
    ensures OwnStep(s, i, steps[0]).Valid()
    ensures OwnRun(s, i, steps) == OwnRun(OwnStep(s, i, steps[0]), i, steps[1..])
  {
    OwnStepValid(s, i, steps[0]);
    hide CW.Inv, RW.Inv, CR.Inv, SW.Inv, SR.Inv, CW.Next, RW.Next, CR.Next, SW.Next, SR.Next;
    match s
    case ClientWriter(t) => ClientWriterUnfolds(t, i, steps); hide ClientWriterEvents, CW.Exec;
    case ReaderWriter(t) => ReaderWriterUnfolds(t, i, steps); hide ReaderWriterEvents, RW.Exec;
    case ClientReader(t) => ClientReaderUnfolds(t, i, steps); hide ClientReaderEvents, CR.Exec;
    case ServerWriter(t) => ServerWriterUnfolds(t, i, steps); hide ServerWriterEvents, SW.Exec;
    case ServerReader(t) => ServerReaderUnfolds(t, i, steps); hide ServerReaderEvents, SR.Exec;
  }

  lemma ClientWriterUnfolds(t: CW.State, i: nat, steps: seq<Step>)
    requires CW.Inv(t) && steps != []
    ensures var r := OwnStep(ClientWriter(t), i, steps[0]);
            && r.ClientWriter? && CW.Inv(r.cw)
            && CW.Exec(t, ClientWriterEvents(i, steps)) == CW.Exec(r.cw, ClientWriterEvents(i, steps[1..]))
  {
    hide CW.Inv, RW.Inv, CR.Inv, SW.Inv, SR.Inv, CW.Next, RW.Next, CR.Next, SW.Next, SR.Next;
    OwnStepValid(ClientWriter(t), i, steps[0]);
    var rest := ClientWriterEvents(i, steps[1..]);
    if ClientWriterEvents(i, steps) != rest {
      assert ClientWriterEvents(i, steps)[1..] == rest;
    }
  }

  lemma ReaderWriterUnfolds(t: RW.State, i: nat, steps: seq<Step>)
    requires RW.Inv(t) && steps != []
    ensures var r := OwnStep(ReaderWriter(t), i, steps[0]);
            && r.ReaderWriter? && RW.Inv(r.rw)
            && RW.Exec(t, ReaderWriterEvents(i, steps)) == RW.Exec(r.rw, ReaderWriterEvents(i, steps[1..]))
  {
    hide CW.Inv, RW.Inv, CR.Inv, SW.Inv, SR.Inv, CW.Next, RW.Next, CR.Next, SW.Next, SR.Next;
    OwnStepValid(ReaderWriter(t), i, steps[0]);
    var rest := ReaderWriterEvents(i, steps[1..]);
    if ReaderWriterEvents(i, steps) != rest {
      assert ReaderWriterEvents(i, steps)[1..] == rest;
    }
  }

  lemma ClientReaderUnfolds(t: CR.State, i: nat, steps: seq<Step>)
    requires CR.Inv(t) && steps != []
    ensures var r := OwnStep(ClientReader(t), i, steps[0]);
            && r.ClientReader? && CR.Inv(r.cr)
            && CR.Exec(t, ClientReaderEvents(i, steps)) == CR.Exec(r.cr, ClientReaderEvents(i, steps[1..]))
  {
    hide CW.Inv, RW.Inv, CR.Inv, SW.Inv, SR.Inv, CW.Next, RW.Next, CR.Next, SW.Next, SR.Next;
    OwnStepValid(ClientReader(t), i, steps[0]);
    var rest := ClientReaderEvents(i, steps[1..]);
    if ClientReaderEvents(i, steps) != rest {
      assert ClientReaderEvents(i, steps)[1..] == rest;
    }
  }

  lemma ServerWriterUnfolds(t: SW.State, i: nat, steps: seq<Step>)
    requires SW.Inv(t) && steps != []
    ensures var r := OwnStep(ServerWriter(t), i, steps[0]);
            && r.ServerWriter? && SW.Inv(r.sw)
            && SW.Exec(t, ServerWriterEvents(i, steps)) == SW.Exec(r.sw, ServerWriterEvents(i, steps[1..]))
  {
    hide CW.Inv, RW.Inv, CR.Inv, SW.Inv, SR.Inv, CW.Next, RW.Next, CR.Next, SW.Next, SR.Next;
    OwnStepValid(ServerWriter(t), i, steps[0]);
    var rest := ServerWriterEvents(i, steps[1..]);
    if ServerWriterEvents(i, steps) != rest {
      assert ServerWriterEvents(i, steps)[1..] == rest;
    }
  }

  lemma ServerReaderUnfolds(t: SR.State, i: nat, steps: seq<Step>)
    requires SR.Inv(t) && steps != []
    ensures var r := OwnStep(ServerReader(t), i, steps[0]);
            && r.ServerReader? && SR.Inv(r.sr)
            && SR.Exec(t, ServerReaderEvents(i, steps)) == SR.Exec(r.sr, ServerReaderEvents(i, steps[1..]))
  {
    hide CW.Inv, RW.Inv, CR.Inv, SW.Inv, SR.Inv, CW.Next, RW.Next, CR.Next, SW.Next, SR.Next;
    OwnStepValid(ServerReader(t), i, steps[0]);
    var rest := ServerReaderEvents(i, steps[1..]);
    if ServerReaderEvents(i, steps) != rest {
      assert ServerReaderEvents(i, steps)[1..] == rest;
    }
  }

  /** In every program each stream makes its own run, of its own calls and completions, whatever the
      others do: so what is proved of the runs of each kind of stream holds of it among the others. */
  lemma {:induction false} StreamsRunAlone(streams: map<nat, Stream>, steps: seq<Step>, i: nat)
    requires AllValid(streams) && i in streams
    ensures streams[i].Valid() && i in RunAll(streams, steps)
    ensures RunAll(streams, steps)[i] == OwnRun(streams[i], i, steps)
    decreases |steps|
  {
    hide Stream.Valid, Move, OwnStep, OwnRun;
    assert streams[i].Valid();
    if steps == [] {
      NoSteps(streams[i], i);
    } else {
      MoveValid(streams, steps[0]);
      MoveIsOwnStep(streams, steps[0], i);
      OwnRunUnfolds(streams[i], i, steps);
      StreamsRunAlone(Move(streams, steps[0]), steps[1..], i);
    }
  }

  lemma NoSteps(s: Stream, i: nat)
    requires s.Valid()
    ensures OwnRun(s, i, []) == s
  {
  }

  lemma {:induction false} RunsJoin(streams: map<nat, Stream>, first: seq<Step>, rest: seq<Step>)
    requires AllValid(streams)
    ensures RunAll(streams, first + rest) == RunAll(RunAll(streams, first), rest)
    decreases |first|
  {
    hide Stream.Valid, Move;
    if first == [] {
      assert first + rest == rest;
    } else {
      MoveValid(streams, first[0]);
      RunsJoin(Move(streams, first[0]), first[1..], rest);
      assert (first + rest)[0] == first[0] && (first + rest)[1..] == first[1..] + rest;
    }
  }

  lemma Opened(kind: Kind)
    ensures CW.Inv(CW.Init(kind.fate)) && SR.Inv(SR.Init(kind.fate))
    ensures match kind
            case NewClientWriter(fate) => Create(kind) == ClientWriter(CW.Init(fate))
            case NewReaderWriter(fate, cb) => RW.Inv(RW.Init(fate, cb)) && Create(kind) == ReaderWriter(RW.Init(fate, cb))
            case NewClientReader(fate, request) => CR.Inv(CR.Init(fate, request)) && Create(kind) == ClientReader(CR.Init(fate, request))
            case NewServerWriter(fate, size) => SW.Inv(SW.Init(fate, size)) && Create(kind) == ServerWriter(SW.Init(fate, size))
            case NewServerReader(fate) => Create(kind) == ServerReader(SR.Init(fate))
  {
    CW.InitInv(kind.fate);
    SR.InitInv(kind.fate);
    match kind
    case NewReaderWriter(fate, cb) => RW.InitInv(fate, cb);
    case NewClientReader(fate, request) => CR.InitInv(fate, request);
    case NewServerWriter(fate, size) => SW.InitInv(fate, size);
    case _ =>
    hide CW.Inv, RW.Inv, CR.Inv, SW.Inv, SR.Inv, CW.Init, RW.Init, CR.Init, SW.Init, SR.Init;
  }

  /** A whole program: whatever was opened and done before, a stream that is opened makes the run of its
      kind from the beginning, of the calls made on it and of its completions. */
  lemma ProgramRuns(before: seq<Step>, i: nat, kind: Kind, steps: seq<Step>)
    requires AllValid(map[]) && i !in RunAll(map[], before)
    ensures CW.Inv(CW.Init(kind.fate)) && SR.Inv(SR.Init(kind.fate))
    ensures kind.NewReaderWriter? ==> RW.Inv(RW.Init(kind.fate, kind.statusCb))
    ensures kind.NewClientReader? ==> CR.Inv(CR.Init(kind.fate, kind.request))
    ensures kind.NewServerWriter? ==> SW.Inv(SW.Init(kind.fate, kind.maxSize))
    ensures var streams := RunAll(map[], before + [Open(i, kind)] + steps);
            i in streams &&
            match kind
            case NewClientWriter(fate) => streams[i] == ClientWriter(CW.Exec(CW.Init(fate), ClientWriterEvents(i, steps)))
            case NewReaderWriter(fate, cb) => streams[i] == ReaderWriter(RW.Exec(RW.Init(fate, cb), ReaderWriterEvents(i, steps)))
            case NewClientReader(fate, request) => streams[i] == ClientReader(CR.Exec(CR.Init(fate, request), ClientReaderEvents(i, steps)))
            case NewServerWriter(fate, size) => streams[i] == ServerWriter(SW.Exec(SW.Init(fate, size), ServerWriterEvents(i, steps)))
            case NewServerReader(fate) => streams[i] == ServerReader(SR.Exec(SR.Init(fate), ServerReaderEvents(i, steps)))
  {
    Opened(kind);
    var streams := RunAll(map[], before);
    hide Stream.Valid, CW.Inv, RW.Inv, CR.Inv, SW.Inv, SR.Inv, CW.Init, RW.Init, CR.Init, SW.Init, SR.Init,
      CW.Exec, RW.Exec, CR.Exec, SW.Exec, SR.Exec, ClientWriterEvents, ReaderWriterEvents, ClientReaderEvents,
      ServerWriterEvents, ServerReaderEvents, Create;
    MoveValid(streams, Open(i, kind));
    var now := Move(streams, Open(i, kind));
    RunsJoin(map[], before, [Open(i, kind)]);
    assert RunAll(streams, [Open(i, kind)]) == now by { assert [Open(i, kind)][1..] == []; }
    RunsJoin(map[], before + [Open(i, kind)], steps);
    hide RunAll;
    StreamsRunAlone(now, steps, i);
  }
}
