/** The completion loop over any number of streams of all kinds, and who owns a tag when
    (src/common/impl/do_next_completion.cc).  A tag belongs to the code that allocated it until
    StartBatch accepts it, then to gRPC, and from its completion on to the loop, which deletes it. */
module CompletionLoop {
  import opened Grpc
  import CW = ClientWriterModel
  import RW = ReaderWriterModel
  import CR = ClientReaderModel
  import SW = ServerWriterModel
  import SR = ServerReaderModel

  datatype Stream =
    | ClientWriter(cw: CW.State)
    | ReaderWriter(rw: RW.State)
    | ClientReader(cr: CR.State)
    | ServerWriter(sw: SW.State)
    | ServerReader(sr: SR.State)
  {
    function CallOf(): Call {
      match this
      case ClientWriter(s) => s.call
      case ReaderWriter(s) => s.call
      case ClientReader(s) => s.call
      case ServerWriter(s) => s.call
      case ServerReader(s) => s.call
    }

    function WithCall(c: Call): (r: Stream)
      ensures r.CallOf() == c
    {
      match this
      case ClientWriter(s) => ClientWriter(s.(call := c))
      case ReaderWriter(s) => ReaderWriter(s.(call := c))
      case ClientReader(s) => ClientReader(s.(call := c))
      case ServerWriter(s) => ServerWriter(s.(call := c))
      case ServerReader(s) => ServerReader(s.(call := c))
    }

    ghost predicate Valid() {
      match this
      case ClientWriter(s) => CW.Inv(s)
      case ReaderWriter(s) => RW.Inv(s)
      case ClientReader(s) => CR.Inv(s)
      case ServerWriter(s) => SW.Inv(s)
      case ServerReader(s) => SR.Inv(s)
    }

    /** What the source asserts about the stream when this tag completes. */
    predicate Expects(tag: Tag) {
      match this
      case ClientWriter(s) => tag.SendMsgTag? ==> s.queue != [] && (s.gate.closeSent ==> !s.status.Ok())
      case ReaderWriter(s) => tag.SendMsgTag? ==> s.queue != [] && (s.status.Ok() ==> !s.writing.closeSent)
      case ClientReader(s) => tag.ReadTag? ==> s.status.Ok()
      case ServerWriter(_) => true
      case ServerReader(_) => true
    }

    /** The virtual call tag->DoComplete(success). */
    function DoComplete(tag: Tag, o: Outcome): (r: Stream)
      requires Expects(tag)
      ensures r.CallOf().After(CallOf())
    {
      match this
      case ClientWriter(s) => ClientWriter(s.DoComplete(tag, o))
      case ReaderWriter(s) => ReaderWriter(s.DoComplete(tag, o))
      case ClientReader(s) => ClientReader(s.DoComplete(tag, o))
      case ServerWriter(s) => ServerWriter(s.DoComplete(tag))
      case ServerReader(s) => ServerReader(s.DoComplete(o))
    }
  }

  /** A call of the user on one stream; completions are not calls. */
  datatype Use =
    | UseClientWriter(cwe: CW.Event)
    | UseReaderWriter(rwe: RW.Event)
    | UseClientReader(cre: CR.Event)
    | UseServerWriter(swe: SW.Event)
    | UseServerReader

  function Used(s: Stream, u: Use): Stream
    requires s.Valid()
  {
    match (s, u)
    case (ClientWriter(t), UseClientWriter(e)) => if e.EvComplete? then s else ClientWriter(CW.Next(t, e))
    case (ReaderWriter(t), UseReaderWriter(e)) => if e.EvComplete? then s else ReaderWriter(RW.Next(t, e))
    case (ClientReader(t), UseClientReader(e)) => if e.EvComplete? then s else ClientReader(CR.Next(t, e))
    case (ServerWriter(t), UseServerWriter(e)) => if e.EvComplete? then s else ServerWriter(SW.Next(t, e))
    case (ServerReader(t), UseServerReader) => ServerReader(SR.Next(t, SR.EvStart))
    case _ => s
  }

  /** gRPC completes an outstanding tag, with an outcome that is possible for it. */
  predicate CanComplete(s: Stream, id: nat, o: Outcome) {
    id in s.CallOf().pending && CW.Possible(s.CallOf().pending[id], o)
  }

  lemma ExpectedTag(s: Stream, id: nat)
    requires s.Valid() && id in s.CallOf().pending
    ensures s.Expects(s.CallOf().pending[id])
    ensures s.CallOf().Settled()
  {
    match s
    case ClientWriter(t) => CW.CompletionAsserts(t, id);
    case ReaderWriter(t) => RW.CompletionAsserts(t, id);
    case ClientReader(t) => CR.CompletionAsserts(t, id);
    case ServerWriter(t) => SW.CompletionFindsOpenStream(t, id);
    case ServerReader(t) => hide SR.TraceOk;
  }

  /** The loop's part: take the tag, run its effect, delete it. */
  function Completed(s: Stream, id: nat, o: Outcome): Stream
    requires s.Valid() && id in s.CallOf().pending
  {
    ExpectedTag(s, id);
    var tag := s.CallOf().pending[id];
    var done := s.WithCall(s.CallOf().Take(id)).DoComplete(tag, o);
    done.WithCall(done.CallOf().Delete(id))
  }

  /** The same for each kind of stream in that stream's own terms. */
  function Delivered(s: Stream, id: nat, o: Outcome): Stream
    requires s.Valid() && id in s.CallOf().pending
  {
    match s
    case ClientWriter(t) => ClientWriter(CW.Deliver(t, id, o))
    case ReaderWriter(t) => ReaderWriter(RW.Deliver(t, id, o))
    case ClientReader(t) => ClientReader(CR.Deliver(t, id, o))
    case ServerWriter(t) => ServerWriter(SW.Deliver(t, id))
    case ServerReader(t) => ServerReader(SR.Deliver(t, id, o))
  }

  lemma CompletedIsDelivered(s: Stream, id: nat, o: Outcome)
    requires s.Valid() && id in s.CallOf().pending
    ensures Completed(s, id, o) == Delivered(s, id, o)
  {
    hide CW.Core, RW.Core, CR.Core, SW.Core, SR.Core, Call.After, CW.State.DoComplete, RW.State.DoComplete,
      CR.State.DoComplete, SW.State.DoComplete, SR.State.DoComplete;
    ExpectedTag(s, id);
  }

  lemma CompletedValid(s: Stream, id: nat, o: Outcome)
    requires s.Valid() && CanComplete(s, id, o)
    ensures Completed(s, id, o).Valid()
  {
    CompletedIsDelivered(s, id, o);
    hide CW.Inv, RW.Inv, CR.Inv, SW.Inv, SR.Inv, CW.Deliver, RW.Deliver, CR.Deliver, SW.Deliver, SR.Deliver, Completed;
    match s
    case ClientWriter(t) => CW.DeliverInv(t, id, o);
    case ReaderWriter(t) => RW.DeliverInv(t, id, o);
    case ClientReader(t) => CR.DeliverInv(t, id, o);
    case ServerWriter(t) => SW.DeliverInv(t, id);
    case ServerReader(t) => SR.DeliverInv(t, id, o);
  }

  lemma UsedValid(s: Stream, u: Use)
    requires s.Valid()
    ensures Used(s, u).Valid()
  {
    hide CW.Inv, RW.Inv, CR.Inv, SW.Inv, SR.Inv, CW.Next, RW.Next, CR.Next, SW.Next, SR.Next;
    match (s, u)
    case (ClientWriter(t), UseClientWriter(e)) => CW.NextInv(t, e);
    case (ReaderWriter(t), UseReaderWriter(e)) => RW.NextInv(t, e);
    case (ClientReader(t), UseClientReader(e)) => CR.NextInv(t, e);
    case (ServerWriter(t), UseServerWriter(e)) => SW.NextInv(t, e);
    case (ServerReader(t), UseServerReader) => SR.NextInv(t, SR.EvStart);
    case _ =>
  }

  /** No step revives a deleted tag. */
  ghost predicate FreedGrows(c: Call, r: Call) { c.freed <= r.freed && c.next <= r.next }

  lemma CompletedFrees(s: Stream, id: nat, o: Outcome)
    requires s.Valid() && id in s.CallOf().pending
    ensures FreedGrows(s.CallOf(), Completed(s, id, o).CallOf())
    ensures s.CallOf().freed[id] == 0 && Completed(s, id, o).CallOf().freed[id] >= 1
  {
    ExpectedTag(s, id);
    hide CW.Core, RW.Core, CR.Core, SW.Core, SR.Core, Stream.DoComplete, Stream.WithCall;
    assert s.CallOf().Owners(id) == 1;
  }

  lemma UsedFrees(s: Stream, u: Use)
    requires s.Valid()
    ensures FreedGrows(s.CallOf(), Used(s, u).CallOf())
  {
    hide CW.Core, RW.Core, CR.Core, SW.Core, SR.Core, CW.State.Write, CW.State.Close, RW.State.Write, RW.State.CloseWriting,
      RW.State.ReadEach, RW.State.SetErrorStatus, CR.State.Start, SW.State.AsyncWrite, SW.State.AsyncClose, SR.State.Start;
  }

  // ----- A whole program: streams come into being, are used, and complete -----

  datatype Kind =
    | NewClientWriter(fate: nat -> bool)
    | NewReaderWriter(fate: nat -> bool, statusCb: Option<nat>)
    | NewClientReader(fate: nat -> bool, request: string)
    | NewServerWriter(fate: nat -> bool, maxSize: nat)
    | NewServerReader(fate: nat -> bool)

  function Create(k: Kind): (s: Stream)
    ensures s.Valid()
  {
    match k
    case NewClientWriter(fate) => CW.InitInv(fate); ClientWriter(CW.Init(fate))
    case NewReaderWriter(fate, cb) => RW.InitInv(fate, cb); ReaderWriter(RW.Init(fate, cb))
    case NewClientReader(fate, request) => CR.InitInv(fate, request); ClientReader(CR.Init(fate, request))
    case NewServerWriter(fate, maxSize) => SW.InitInv(fate, maxSize); ServerWriter(SW.Init(fate, maxSize))
    case NewServerReader(fate) => SR.InitInv(fate); ServerReader(SR.Init(fate))
  }

  datatype Step =
    | Open(stream: nat, kind: Kind)
    | Call(stream: nat, use: Use)
    | Complete(stream: nat, id: nat, outcome: Outcome)

  ghost predicate AllValid(streams: map<nat, Stream>) {
    forall i :: i in streams ==> streams[i].Valid()
  }

  function Move(streams: map<nat, Stream>, step: Step): (r: map<nat, Stream>)
    requires AllValid(streams)
  {
    match step
    case Open(i, kind) => if i in streams then streams else streams[i := Create(kind)]
    case Call(i, use) => if i in streams then streams[i := Used(streams[i], use)] else streams
    case Complete(i, id, o) =>
      if i in streams && CanComplete(streams[i], id, o) then streams[i := Completed(streams[i], id, o)] else streams
  }

  lemma MoveValid(streams: map<nat, Stream>, step: Step)
    requires AllValid(streams)
    ensures AllValid(Move(streams, step))
  {
    hide Stream.Valid, Used, Completed, Create, CanComplete;
    match step
    case Open(_, _) =>
    case Call(i, use) => if i in streams { UsedValid(streams[i], use); }
    case Complete(i, id, o) =>
      if i in streams && CanComplete(streams[i], id, o) { CompletedValid(streams[i], id, o); }
  }

  function RunAll(streams: map<nat, Stream>, steps: seq<Step>): (r: map<nat, Stream>)
    requires AllValid(streams)
    ensures AllValid(r)
    decreases |steps|
  {
    if steps == [] then streams
    else
      MoveValid(streams, steps[0]);
      RunAll(Move(streams, steps[0]), steps[1..])
  }

  lemma ValidSettled(s: Stream)
    requires s.Valid()
    ensures s.CallOf().Settled()
  {
    hide CW.WireOk, RW.WireOk, CR.TraceOk, SW.WireOk, SR.TraceOk;
  }

  /** In every run of any number of streams of all kinds, between two steps the live tags are exactly
      those accepted by StartBatch and not yet completed, and every other tag ever allocated has been
      deleted exactly once. */
  lemma EveryTagHasOneFate(steps: seq<Step>)
    ensures AllValid(map[])
    ensures var streams := RunAll(map[], steps);
            forall i :: i in streams ==>
              var c := streams[i].CallOf();
              && c.held == {}
              && (forall id: nat :: (if id in c.pending then 1 else 0) + c.freed[id] == if id < c.next then 1 else 0)
  {
    var streams := RunAll(map[], steps);
    forall i | i in streams
      ensures var c := streams[i].CallOf();
              && c.held == {}
              && (forall id: nat :: (if id in c.pending then 1 else 0) + c.freed[id] == if id < c.next then 1 else 0)
    {
      ValidSettled(streams[i]);
      var c := streams[i].CallOf();
      forall id: nat
        ensures (if id in c.pending then 1 else 0) + c.freed[id] == if id < c.next then 1 else 0
      {
        assert c.Owners(id) == if id < c.next then 1 else 0;
      }
    }
  }

  /** A tag of a call, named by the stream that created it and its number there. */
  ghost function LiveOps(stream: nat, c: Grpc.Call): set<(nat, nat)> {
    Named(stream, c.pending.Keys)
  }

  ghost function Named(stream: nat, ids: set<nat>): set<(nat, nat)> {
    set id | id in ids :: (stream, id)
  }

  ghost function TagOf(streams: map<nat, Stream>, t: (nat, nat)): Tag {
    if t.0 in streams && t.1 in streams[t.0].CallOf().pending then streams[t.0].CallOf().pending[t.1] else SendInitMdTag
  }

  lemma AtMostOne<T>(s: set<T>, x: T)
    requires forall y :: y in s ==> y == x
    ensures |s| <= 1
  {
    if s != {} { assert s == {x}; }
  }

  lemma ReaderOps(s: SR.State)
    requires SR.Inv(s)
    ensures |s.call.pending.Keys| <= s.starts && forall id :: id in s.call.pending ==> s.call.pending[id] == ServerReadTag
  {
  }

  lemma WriterOps(s: SW.State)
    requires SW.Inv(s)
    ensures forall id :: id in s.call.pending ==>
              if s.writeId == Some(id) then s.call.pending[id].ServerWriteTag? else s.call.pending[id] == ServerStatusTag
  {
    hide SW.WireOk;
  }

  lemma ReaderShare(streams: map<nat, Stream>, r: nat, t: (nat, nat))
    requires AllValid(streams) && r in streams && streams[r].ServerReader?
    requires t in LiveOps(r, streams[r].sr.call)
    ensures t.0 == r && TagOf(streams, t) == ServerReadTag
  {
    assert streams[r].Valid();
    ReaderOps(streams[r].sr);
    hide AllValid, Stream.Valid, SR.Inv;
  }

  lemma WriterShare(streams: map<nat, Stream>, w: nat, t: (nat, nat))
    requires AllValid(streams) && w in streams && streams[w].ServerWriter?
    requires t in LiveOps(w, streams[w].sw.call)
    ensures t.0 == w && (TagOf(streams, t).ServerWriteTag? || TagOf(streams, t) == ServerStatusTag)
    ensures TagOf(streams, t).ServerWriteTag? ==> streams[w].sw.writeId == Some(t.1)
  {
    assert streams[w].Valid();
    WriterOps(streams[w].sw);
    hide AllValid, Stream.Valid, SW.Inv;
  }

  lemma ReadersBound(streams: map<nat, Stream>, r: nat)
    requires AllValid(streams) && r in streams && streams[r].ServerReader?
    ensures |LiveOps(r, streams[r].sr.call)| <= streams[r].sr.starts
  {
    assert streams[r].Valid();
    ReaderOps(streams[r].sr);
    NamedSize(r, streams[r].sr.call.pending.Keys);
  }

  lemma {:induction false} NamedSize(stream: nat, ids: set<nat>)
    ensures |Named(stream, ids)| == |ids|
    decreases |ids|
  {
    if ids == {} {
      assert Named(stream, ids) == {};
    } else {
      var id :| id in ids;
      NamedSize(stream, ids - {id});
      assert Named(stream, ids) == Named(stream, ids - {id}) + {(stream, id)};
    }
  }

  lemma SharesKeepTheRule(streams: map<nat, Stream>, r: nat, w: nat)
    requires AllValid(streams) && r in streams && w in streams && streams[r].ServerReader? && streams[w].ServerWriter?
    ensures var inbound, outbound := LiveOps(r, streams[r].sr.call), LiveOps(w, streams[w].sw.call);
            && inbound !! outbound
            && |set t | t in inbound + outbound && TagOf(streams, t) == ServerReadTag| <= streams[r].sr.starts
            && |set t | t in inbound + outbound && TagOf(streams, t).ServerWriteTag?| <= 1
            && (forall t :: t in inbound ==> TagOf(streams, t) == ServerReadTag)
            && (forall t :: t in outbound ==> TagOf(streams, t).ServerWriteTag? || TagOf(streams, t) == ServerStatusTag)
  {
    hide AllValid, LiveOps, TagOf;
    var inbound, outbound := LiveOps(r, streams[r].sr.call), LiveOps(w, streams[w].sw.call);
    var writeId := streams[w].sw.writeId;
    forall t | t in inbound
      ensures t.0 == r && TagOf(streams, t) == ServerReadTag
    {
      ReaderShare(streams, r, t);
    }
    forall t | t in outbound
      ensures t.0 == w && (TagOf(streams, t).ServerWriteTag? || TagOf(streams, t) == ServerStatusTag)
      ensures TagOf(streams, t).ServerWriteTag? ==> writeId == Some(t.1)
    {
      WriterShare(streams, w, t);
    }
    assert (set t | t in inbound + outbound && TagOf(streams, t) == ServerReadTag) == inbound;
    ReadersBound(streams, r);
    AtMostOne(set t | t in inbound + outbound && TagOf(streams, t).ServerWriteTag?,
              (w, if writeId.Some? then writeId.value else 0));
  }

  /** A server's bidirectional method gives one call to a reader and a writer, which are two streams
      here, each with its own share of the call.  A corollary of their invariants: their shares
      together keep gRPC's rule of one send operation at a time in every run, and of one receive
      operation if the reader was started once. */
  lemma ReaderAndWriterOnOneCall(steps: seq<Step>, r: nat, w: nat)
    ensures AllValid(map[])
    ensures var streams := RunAll(map[], steps);
            r in streams && w in streams && streams[r].ServerReader? && streams[w].ServerWriter? ==>
              var inbound, outbound := LiveOps(r, streams[r].sr.call), LiveOps(w, streams[w].sw.call);
              && inbound !! outbound
              && |set t | t in inbound + outbound && TagOf(streams, t) == ServerReadTag| <= streams[r].sr.starts
              && |set t | t in inbound + outbound && TagOf(streams, t).ServerWriteTag?| <= 1
              && (forall t :: t in inbound ==> TagOf(streams, t) == ServerReadTag)
              && (forall t :: t in outbound ==> TagOf(streams, t).ServerWriteTag? || TagOf(streams, t) == ServerStatusTag)
  {
    var streams := RunAll(map[], steps);
    hide RunAll;
    if r in streams && w in streams && streams[r].ServerReader? && streams[w].ServerWriter? {
      SharesKeepTheRule(streams, r, w);
    }
  }

  /** A deleted tag stays deleted in every continuation of a run: it is neither deleted again nor ever
      in the queue again. */
  lemma DeletedForGood(streams: map<nat, Stream>, steps: seq<Step>, i: nat)
    requires AllValid(streams) && i in streams
    ensures i in RunAll(streams, steps)
    ensures var c, r := streams[i].CallOf(), RunAll(streams, steps)[i].CallOf();
            forall id: nat :: c.freed[id] == 1 ==> r.freed[id] == 1 && id !in r.pending
  {
    RunFrees(streams, steps, i);
    var c, r := streams[i].CallOf(), RunAll(streams, steps)[i].CallOf();
    ValidSettled(RunAll(streams, steps)[i]);
    hide Stream.Valid, RunAll;
    forall id: nat | c.freed[id] == 1
      ensures r.freed[id] == 1 && id !in r.pending
    {
      assert r.freed[id] >= 1 && r.Owners(id) <= 1;
    }
  }

  lemma {:induction false} RunFrees(streams: map<nat, Stream>, steps: seq<Step>, i: nat)
    requires AllValid(streams) && i in streams
    ensures i in RunAll(streams, steps)
    ensures FreedGrows(streams[i].CallOf(), RunAll(streams, steps)[i].CallOf())
    decreases |steps|
  {
    hide Stream.Valid, Used, Completed, Create, CanComplete;
    if steps != [] {
      MoveValid(streams, steps[0]);
      MoveFrees(streams, steps[0], i);
      RunFrees(Move(streams, steps[0]), steps[1..], i);
    }
  }

  lemma MoveFrees(streams: map<nat, Stream>, step: Step, i: nat)
    requires AllValid(streams) && i in streams
    ensures i in Move(streams, step)
    ensures FreedGrows(streams[i].CallOf(), Move(streams, step)[i].CallOf())
  {
    hide Stream.Valid, Used, Completed, Create;
    match step
    case Open(_, _) =>
    case Call(j, use) => if j == i { UsedFrees(streams[i], use); }
    case Complete(j, id, o) => if j == i && CanComplete(streams[i], id, o) { CompletedFrees(streams[i], id, o); }
  }

  /** A completion deletes its tag, which was live, exactly once. */
  lemma CompletedOnce(s: Stream, id: nat, o: Outcome)
    requires s.Valid() && CanComplete(s, id, o)
    ensures id in s.CallOf().pending && s.CallOf().freed[id] == 0
    ensures id !in Completed(s, id, o).CallOf().pending && Completed(s, id, o).CallOf().freed[id] == 1
  {
    hide Stream.Valid, Completed;
    CompletedValid(s, id, o);
    CompletedFrees(s, id, o);
    ValidSettled(Completed(s, id, o));
    assert Completed(s, id, o).CallOf().Owners(id) <= 1;
  }
}
