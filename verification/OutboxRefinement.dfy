/** The two queue disciplines of the source refine one outbox.  The client streams keep the message
    in flight at the front of their queue; the server's writer pops it when it is started and keeps a
    flag.  They differ in one thing only: a client stream breaks on a failed send completion, the
    server's writer does not look at the flag. */
module OutboxRefinement {
  import opened Grpc
  import opened Outbox
  import CW = ClientWriterModel
  import RW = ReaderWriterModel
  import SW = ServerWriterModel

  function Behind(queue: seq<string>): seq<string> {
    if queue == [] then [] else queue[1..]
  }

  // ----- The client-streaming writer -----

  function ClientBox(s: CW.State): Box {
    if s.status.Ok() then Live(s.handed, Behind(s.queue), s.queue != [], s.gate.closing, s.gate.halfClosed)
    else Dead(s.handed)
  }

  function ClientAction(s: CW.State, e: CW.Event): Action {
    match e
    case EvWrite(msg) => Offer(msg, s.call.WillStart())
    case EvClose(_) => Ask(s.call.WillStart())
    case EvComplete(id, o) =>
      if !CW.Delivers(s, e) then Skip
      else match s.call.pending[id]
           case SendMsgTag(_) => if o.success then Advance(s.call.WillStart()) else Break
           case WriterCloseTag => if o.status.Ok() && o.received.Message? then Skip else Break
           case _ => Skip
  }

  lemma ClientSentRefines(s: CW.State, id: nat, o: Outcome)
    requires CW.Inv(s) && id in s.call.pending && s.call.pending[id].SendMsgTag?
    ensures ClientBox(CW.Deliver(s, id, o)) == Do(ClientBox(s), ClientAction(s, CW.EvComplete(id, o)))
  {
    hide CW.TagsOk, CW.WireOk, CW.Books, CW.Callback, CW.State.SameBooks, Call.After;
    CW.CompletionAsserts(s, id);
  }

  lemma ClientStepRefines(s: CW.State, e: CW.Event)
    requires CW.Inv(s)
    ensures ClientBox(CW.Next(s, e)) == Do(ClientBox(s), ClientAction(s, e))
  {
    hide CW.TagsOk, CW.WireOk, CW.Books, CW.Callback, CW.State.SameBooks, CW.State.OnSent;
    if e.EvComplete? && e.id in s.call.pending {
      CW.CompletionAsserts(s, e.id);
      if s.call.pending[e.id].SendMsgTag? { ClientSentRefines(s, e.id, e.outcome); }
    }
  }

  // ----- The writing half of the bidirectional stream -----

  function BidiBox(s: RW.State): Box {
    if s.status.Ok() then Live(s.handed, Behind(s.queue), s.queue != [], s.writing.closing, s.writing.closeSent)
    else Dead(s.handed)
  }

  function BidiAction(s: RW.State, e: RW.Event): Action
    requires RW.Inv(s)
  {
    if e.EvWrite? && s.InitIfNot().status.Ok() then Offer(e.msg, s.InitIfNot().call.WillStart())
    else if e.EvCloseWriting? then Ask(s.call.WillStart())
    else if e.EvComplete? && e.id in s.call.pending && s.call.pending[e.id].SendMsgTag? && e.outcome.success
    then Advance(s.call.WillStart())
    else if RW.Next(s, e).status.Ok() then Skip
    else Break
  }

  lemma BidiInit(s: RW.State)
    requires RW.Inv(s)
    ensures BidiBox(s.InitIfNot()) == if s.InitIfNot().status.Ok() then BidiBox(s) else Do(BidiBox(s), Break)
    ensures s.InitIfNot().status.Ok() ==> s.status.Ok() && s.InitIfNot().writing == s.writing && RW.Live(s)
  {
    hide RW.TagsOk, RW.WireOk, RW.State.SameBooks, Call.After;
  }

  lemma BidiWriteRefines(s: RW.State, msg: string)
    requires RW.Inv(s)
    ensures BidiBox(s.Write(msg)) == Do(BidiBox(s), BidiAction(s, RW.EvWrite(msg)))
  {
    hide RW.TagsOk, RW.WireOk, RW.State.SameBooks, Call.After;
    BidiInit(s);
    RW.ClosingWire(s);
    var r := s.InitIfNot();
    if r.status.Ok() {
      hide RW.State.InitIfNot;
      assert r.queue == [] ==> r.queue + [msg] == [msg] && Behind([msg]) == [];
      assert r.queue != [] ==> (r.queue + [msg])[1..] == r.queue[1..] + [msg];
    } else {
      assert RW.Next(s, RW.EvWrite(msg)) == r;
    }
  }

  lemma BidiCloseRefines(s: RW.State)
    requires RW.Inv(s)
    ensures s.writing.closeSent ==> s.writing.closing
    ensures BidiBox(s.CloseWriting()) == Do(BidiBox(s), Ask(s.call.WillStart()))
  {
    hide RW.TagsOk, RW.WireOk, RW.State.SameBooks, Call.After;
    RW.ClosingWire(s);
    if s.status.Ok() && !s.writing.closing && s.queue == [] {
      var closing := s.(writing := s.writing.(closing := true));
      assert s.CloseWriting() == closing.SendCloseBatch();
      assert BidiBox(closing.SendCloseBatch()) ==
             if s.call.WillStart() then Live(s.handed, [], false, true, true) else Dead(s.handed);
      hide RW.State.SendCloseBatch;
    }
  }

  lemma BidiSentRefines(s: RW.State, id: nat, o: Outcome)
    requires RW.Inv(s) && id in s.call.pending && s.call.pending[id].SendMsgTag?
    ensures BidiBox(RW.Deliver(s, id, o)) == Do(BidiBox(s), if o.success then Advance(s.call.WillStart()) else Break)
  {
    hide RW.TagsOk, RW.WireOk, RW.State.SameBooks, Call.After;
    RW.CompletionAsserts(s, id);
  }

  lemma BidiReadEachRefines(s: RW.State, cb: Option<nat>)
    requires RW.Inv(s)
    ensures BidiBox(s.ReadEach(cb)) == Do(BidiBox(s), if s.ReadEach(cb).status.Ok() then Skip else Break)
  {
    hide RW.TagsOk, RW.WireOk, RW.State.SameBooks, Call.After;
    if !s.reading.started {
      var started := s.(reading := s.reading.(started := true));
      assert BidiBox(started.InitIfNot()) == if started.InitIfNot().status.Ok() then BidiBox(s) else Do(BidiBox(s), Break);
      hide RW.State.InitIfNot;
    }
  }

  lemma BidiOnReadRefines(s: RW.State, id: nat, o: Outcome)
    requires RW.Inv(s) && id in s.call.pending && s.call.pending[id].ReadTag?
    ensures BidiBox(RW.Deliver(s, id, o)) == Do(BidiBox(s), if RW.Deliver(s, id, o).status.Ok() then Skip else Break)
  {
    hide RW.Core, RW.State.SameBooks, Call.After;
    RW.CompletionAsserts(s, id);
  }

  lemma BidiOtherRefines(s: RW.State, id: nat, o: Outcome)
    requires RW.Inv(s) && id in s.call.pending && !s.call.pending[id].ReadTag? && !s.call.pending[id].SendMsgTag?
    ensures BidiBox(RW.Deliver(s, id, o)) == Do(BidiBox(s), if RW.Deliver(s, id, o).status.Ok() then Skip else Break)
  {
    hide RW.Core, RW.State.SameBooks, Call.After;
  }

  lemma BidiSetErrorRefines(s: RW.State, error: Status)
    requires RW.Inv(s) && !error.Ok()
    ensures BidiBox(s.SetErrorStatus(error)) == Do(BidiBox(s), Break) && !s.SetErrorStatus(error).status.Ok()
  {
    hide RW.Core, RW.State.SameBooks, Call.After;
  }

  lemma BidiIdle(s: RW.State)
    ensures Do(BidiBox(s), if s.status.Ok() then Skip else Break) == BidiBox(s)
  {
  }

  lemma BidiStepRefines(s: RW.State, e: RW.Event)
    requires RW.Inv(s)
    ensures BidiBox(RW.Next(s, e)) == Do(BidiBox(s), BidiAction(s, e))
  {
    hide RW.Inv, RW.State.Write, RW.State.CloseWriting, RW.State.ReadEach, RW.State.SetErrorStatus, RW.Deliver, Do, BidiBox;
    BidiIdle(s);
    match e
    case EvWrite(msg) => BidiWriteRefines(s, msg);
    case EvCloseWriting => BidiCloseRefines(s);
    case EvReadEach(cb) => BidiReadEachRefines(s, cb);
    case EvSetErrorStatus(error) => if !error.Ok() { BidiSetErrorRefines(s, error); }
    case EvComplete(id, o) =>
      if id in s.call.pending {
        if s.call.pending[id].SendMsgTag? { BidiSentRefines(s, id, o); if !o.success { BidiFailedSend(s, id, o); } }
        else if s.call.pending[id].ReadTag? { BidiOnReadRefines(s, id, o); }
        else { BidiOtherRefines(s, id, o); }
      }
  }

  /** A failed send completion leaves a bad status. */
  lemma BidiFailedSend(s: RW.State, id: nat, o: Outcome)
    requires RW.Inv(s) && id in s.call.pending && s.call.pending[id].SendMsgTag? && !o.success
    ensures !RW.Deliver(s, id, o).status.Ok()
  {
    hide RW.Core, RW.State.SameBooks, Call.After;
    RW.CompletionAsserts(s, id);
  }

  // ----- The server's writer -----

  function ServerBox(s: SW.State): Box {
    if !s.mode.closed then Live(s.handed, s.queue, s.mode.isSending, s.closeStatus.Some?, false)
    else if s.final.Some? then Live(s.handed, [], false, true, true)
    else Dead(s.handed)
  }

  function ServerAction(s: SW.State, e: SW.Event): Action {
    match e
    case EvAsyncWrite(msg) => Offer(msg, s.call.WillStart())
    case EvAsyncClose(_) => Ask(s.call.WillStart())
    case EvSetHighQueueSize(_) => Skip
    case EvComplete(_, _) => if SW.WriteCompletion(s, e) then Advance(s.call.WillStart()) else Skip
  }

  lemma ServerStepRefines(s: SW.State, e: SW.Event)
    requires SW.Inv(s)
    ensures ServerBox(SW.Next(s, e)) == Do(ServerBox(s), ServerAction(s, e))
  {
    hide SW.TagsOk, SW.WireOk, Call.After;
    if e.EvComplete? && e.id in s.call.pending { SW.CompletionFindsOpenStream(s, e.id); }
  }

  // ----- Runs -----

  function ClientActions(s: CW.State, es: seq<CW.Event>): seq<Action>
    requires CW.Inv(s)
    decreases |es|
  {
    if es == [] then []
    else
      CW.NextInv(s, es[0]);
      [ClientAction(s, es[0])] + ClientActions(CW.Next(s, es[0]), es[1..])
  }

  function BidiActions(s: RW.State, es: seq<RW.Event>): seq<Action>
    requires RW.Inv(s)
    decreases |es|
  {
    if es == [] then []
    else
      RW.NextInv(s, es[0]);
      [BidiAction(s, es[0])] + BidiActions(RW.Next(s, es[0]), es[1..])
  }

  function ServerActions(s: SW.State, es: seq<SW.Event>): seq<Action>
    requires SW.Inv(s)
    decreases |es|
  {
    if es == [] then []
    else
      SW.NextInv(s, es[0]);
      [ServerAction(s, es[0])] + ServerActions(SW.Next(s, es[0]), es[1..])
  }

  lemma {:induction false} ClientRunRefines(s: CW.State, es: seq<CW.Event>)
    requires CW.Inv(s)
    ensures ClientBox(CW.Exec(s, es)) == DoAll(ClientBox(s), ClientActions(s, es))
    decreases |es|
  {
    hide CW.Inv, CW.Next, Do, ClientBox, ClientAction;
    if es != [] {
      CW.NextInv(s, es[0]);
      ClientStepRefines(s, es[0]);
      ClientRunRefines(CW.Next(s, es[0]), es[1..]);
      assert ClientActions(s, es)[1..] == ClientActions(CW.Next(s, es[0]), es[1..]);
    }
  }

  lemma {:induction false} BidiRunRefines(s: RW.State, es: seq<RW.Event>)
    requires RW.Inv(s)
    ensures BidiBox(RW.Exec(s, es)) == DoAll(BidiBox(s), BidiActions(s, es))
    decreases |es|
  {
    hide RW.Inv, RW.Next, Do, BidiBox, BidiAction;
    if es != [] {
      RW.NextInv(s, es[0]);
      BidiStepRefines(s, es[0]);
      BidiRunRefines(RW.Next(s, es[0]), es[1..]);
      assert BidiActions(s, es)[1..] == BidiActions(RW.Next(s, es[0]), es[1..]);
    }
  }

  lemma {:induction false} ServerRunRefines(s: SW.State, es: seq<SW.Event>)
    requires SW.Inv(s)
    ensures ServerBox(SW.Exec(s, es)) == DoAll(ServerBox(s), ServerActions(s, es))
    decreases |es|
  {
    hide SW.Inv, SW.Next, Do, ServerBox, ServerAction;
    if es != [] {
      SW.NextInv(s, es[0]);
      ServerStepRefines(s, es[0]);
      ServerRunRefines(SW.Next(s, es[0]), es[1..]);
      assert ServerActions(s, es)[1..] == ServerActions(SW.Next(s, es[0]), es[1..]);
    }
  }

  // ----- What the streams confirmed is what the outbox accepted -----

  /** The messages for which Write returned true, read off the run. */
  function ClientConfirmed(s: CW.State, es: seq<CW.Event>): seq<string>
    requires CW.Inv(s)
    decreases |es|
  {
    if es == [] then []
    else
      CW.NextInv(s, es[0]);
      (if es[0].EvWrite? && s.WriteResult() then [es[0].msg] else []) + ClientConfirmed(CW.Next(s, es[0]), es[1..])
  }

  function BidiConfirmed(s: RW.State, es: seq<RW.Event>): seq<string>
    requires RW.Inv(s)
    decreases |es|
  {
    if es == [] then []
    else
      RW.NextInv(s, es[0]);
      (if es[0].EvWrite? && s.WriteResult() then [es[0].msg] else []) + BidiConfirmed(RW.Next(s, es[0]), es[1..])
  }

  lemma ClientTakes(s: CW.State, e: CW.Event)
    requires CW.Inv(s)
    ensures Takes(ClientBox(s), ClientAction(s, e)) <==> e.EvWrite? && s.WriteResult()
    ensures e.EvWrite? ==> ClientAction(s, e) == Offer(e.msg, s.call.WillStart())
  {
    hide CW.TagsOk, CW.WireOk, CW.Books, CW.Callback;
  }

  lemma BidiTakes(s: RW.State, e: RW.Event)
    requires RW.Inv(s)
    ensures Takes(BidiBox(s), BidiAction(s, e)) <==> e.EvWrite? && s.WriteResult()
    ensures Takes(BidiBox(s), BidiAction(s, e)) ==> BidiAction(s, e).msg == e.msg
  {
    BidiInit(s);
    hide RW.TagsOk, RW.WireOk, RW.State.InitIfNot, RW.Next;
  }

  lemma ServerTakes(s: SW.State, e: SW.Event)
    requires SW.Inv(s)
    ensures Takes(ServerBox(s), ServerAction(s, e)) <==> e.EvAsyncWrite? && s.Accepts()
    ensures e.EvAsyncWrite? ==> ServerAction(s, e) == Offer(e.msg, s.call.WillStart())
  {
    hide SW.TagsOk, SW.WireOk;
  }

  lemma {:induction false} ClientConfirms(s: CW.State, es: seq<CW.Event>)
    requires CW.Inv(s)
    ensures Accepted(ClientBox(s), ClientActions(s, es)) == ClientConfirmed(s, es)
    decreases |es|
  {
    hide CW.Inv, CW.Next, CW.State.WriteResult, Do, Takes, ClientBox, ClientAction;
    if es != [] {
      CW.NextInv(s, es[0]);
      ClientStepRefines(s, es[0]);
      ClientTakes(s, es[0]);
      ClientConfirms(CW.Next(s, es[0]), es[1..]);
      assert ClientActions(s, es)[1..] == ClientActions(CW.Next(s, es[0]), es[1..]);
    }
  }

  lemma {:induction false} BidiConfirms(s: RW.State, es: seq<RW.Event>)
    requires RW.Inv(s)
    ensures Accepted(BidiBox(s), BidiActions(s, es)) == BidiConfirmed(s, es)
    decreases |es|
  {
    hide RW.Inv, RW.Next, RW.State.WriteResult, Do, Takes, BidiBox, BidiAction;
    if es != [] {
      RW.NextInv(s, es[0]);
      BidiStepRefines(s, es[0]);
      BidiTakes(s, es[0]);
      BidiConfirms(RW.Next(s, es[0]), es[1..]);
      assert BidiActions(s, es)[1..] == BidiActions(RW.Next(s, es[0]), es[1..]);
    }
  }

  lemma {:induction false} ServerConfirms(s: SW.State, es: seq<SW.Event>)
    requires SW.Inv(s)
    ensures Accepted(ServerBox(s), ServerActions(s, es)) == SW.Accepted(s, es)
    decreases |es|
  {
    hide SW.Inv, SW.Next, SW.State.Accepts, Do, Takes, ServerBox, ServerAction;
    if es != [] {
      SW.NextInv(s, es[0]);
      ServerStepRefines(s, es[0]);
      ServerTakes(s, es[0]);
      ServerConfirms(SW.Next(s, es[0]), es[1..]);
      assert ServerActions(s, es)[1..] == ServerActions(SW.Next(s, es[0]), es[1..]);
    }
  }

  /** A client's Write that queued its message and returned false met a refused start: it is the last
      one, and the stream has failed. */
  lemma {:induction false} ClientPushedButRefused(s: CW.State, es: seq<CW.Event>)
    requires CW.Inv(s)
    ensures !s.status.Ok() ==> CW.Pushed(s, es) == ClientConfirmed(s, es) == [] && !CW.Exec(s, es).status.Ok()
    ensures ClientConfirmed(s, es) <= CW.Pushed(s, es)
    ensures |CW.Pushed(s, es)| <= |ClientConfirmed(s, es)| + if s.status.Ok() && !CW.Exec(s, es).status.Ok() then 1 else 0
    decreases |es|
  {
    hide CW.Inv, CW.Next, CW.State.WriteResult;
    if es != [] {
      CW.NextInv(s, es[0]);
      ClientPushStep(s, es[0]);
      ClientPushedButRefused(CW.Next(s, es[0]), es[1..]);
    }
  }

  lemma ClientPushStep(s: CW.State, e: CW.Event)
    requires CW.Inv(s)
    ensures var r := CW.Next(s, e);
            && (s.WriteResult() ==> s.status.Ok() && !s.gate.closing)
            && (!s.status.Ok() ==> !r.status.Ok())
            && (e.EvWrite? && s.status.Ok() && !s.gate.closing && !s.WriteResult() ==> !r.status.Ok())
  {
    hide CW.TagsOk, CW.WireOk, CW.Books, CW.Callback, CW.State.SameBooks, Call.After;
    if e.EvComplete? && e.id in s.call.pending { CW.CompletionAsserts(s, e.id); }
  }

  lemma WiresCarryHanded(c: CW.State, b: RW.State, s: SW.State)
    requires CW.Inv(c) && RW.Inv(b) && SW.Inv(s)
    ensures MessagesOn(c.call.wire) == c.handed
    ensures MessagesOn(b.call.wire) == b.handed
    ensures MessagesOn(s.call.wire) == s.handed
  {
    CW.TraceShape(c.begun, c.handed, c.gate.halfClosed);
    hide CW.TagsOk, RW.TagsOk, SW.Core, CW.Trace;
    SW.WireCarriesHanded(s);
  }

  /** Every run of each of the three writing streams puts on the wire what the one outbox sends under
      the same actions, and the messages for which the user's write returned true are those that the
      outbox accepts: so two streams of different kinds that saw the same actions confirmed and sent
      the same messages. */
  lemma AllStreamsAreOneOutbox(
    cf: nat -> bool, ces: seq<CW.Event>, bf: nat -> bool, cb: Option<nat>, bes: seq<RW.Event>,
    sf: nat -> bool, maxSize: nat, ses: seq<SW.Event>)
    ensures CW.Inv(CW.Init(cf)) && RW.Inv(RW.Init(bf, cb)) && SW.Inv(SW.Init(sf, maxSize))
    ensures var b, acts := if cf(0) then EMPTY else Dead([]), ClientActions(CW.Init(cf), ces);
            && MessagesOn(CW.Exec(CW.Init(cf), ces).call.wire) == DoAll(b, acts).sent
            && ClientConfirmed(CW.Init(cf), ces) == Accepted(b, acts)
    ensures var acts := BidiActions(RW.Init(bf, cb), bes);
            && MessagesOn(RW.Exec(RW.Init(bf, cb), bes).call.wire) == DoAll(EMPTY, acts).sent
            && BidiConfirmed(RW.Init(bf, cb), bes) == Accepted(EMPTY, acts)
    ensures var acts := ServerActions(SW.Init(sf, maxSize), ses);
            && MessagesOn(SW.Exec(SW.Init(sf, maxSize), ses).call.wire) == DoAll(EMPTY, acts).sent
            && SW.Accepted(SW.Init(sf, maxSize), ses) == Accepted(EMPTY, acts)
  {
    CW.InitInv(cf);
    RW.InitInv(bf, cb);
    SW.InitInv(sf, maxSize);
    ClientRunRefines(CW.Init(cf), ces);
    BidiRunRefines(RW.Init(bf, cb), bes);
    ServerRunRefines(SW.Init(sf, maxSize), ses);
    ClientConfirms(CW.Init(cf), ces);
    BidiConfirms(RW.Init(bf, cb), bes);
    ServerConfirms(SW.Init(sf, maxSize), ses);
    WiresCarryHanded(CW.Exec(CW.Init(cf), ces), RW.Exec(RW.Init(bf, cb), bes), SW.Exec(SW.Init(sf, maxSize), ses));
    hide CW.Exec, RW.Exec, SW.Exec, DoAll, CW.Core, RW.Core, SW.Core, MessagesOn, Accepted, SW.Accepted, ClientConfirmed,
      BidiConfirmed, ClientActions, BidiActions, ServerActions;
  }

  /** First in, first out for all three streams, by the outbox alone: the messages on the wire are a
      prefix, in order, of those for which the user's write returned true, and all of them once the
      close is out on a healthy stream. */
  lemma AllStreamsAreFirstInFirstOut(
    cf: nat -> bool, ces: seq<CW.Event>, bf: nat -> bool, cb: Option<nat>, bes: seq<RW.Event>,
    sf: nat -> bool, maxSize: nat, ses: seq<SW.Event>)
    ensures CW.Inv(CW.Init(cf)) && RW.Inv(RW.Init(bf, cb)) && SW.Inv(SW.Init(sf, maxSize))
    ensures var s := CW.Exec(CW.Init(cf), ces); var confirmed := ClientConfirmed(CW.Init(cf), ces);
            && MessagesOn(s.call.wire) <= confirmed
            && (s.status.Ok() && s.gate.halfClosed ==> MessagesOn(s.call.wire) == confirmed)
    ensures var s := RW.Exec(RW.Init(bf, cb), bes); var confirmed := BidiConfirmed(RW.Init(bf, cb), bes);
            && MessagesOn(s.call.wire) <= confirmed
            && (s.status.Ok() && s.writing.closeSent ==> MessagesOn(s.call.wire) == confirmed)
    ensures var s := SW.Exec(SW.Init(sf, maxSize), ses); var confirmed := SW.Accepted(SW.Init(sf, maxSize), ses);
            && MessagesOn(s.call.wire) <= confirmed
            && (s.mode.closed && s.final.Some? ==> MessagesOn(s.call.wire) == confirmed)
  {
    AllStreamsAreOneOutbox(cf, ces, bf, cb, bes, sf, maxSize, ses);
    ClientRunRefines(CW.Init(cf), ces);
    BidiRunRefines(RW.Init(bf, cb), bes);
    ServerRunRefines(SW.Init(sf, maxSize), ses);
    InOrderFrom(if cf(0) then EMPTY else Dead([]), ClientActions(CW.Init(cf), ces));
    FirstInFirstOut(BidiActions(RW.Init(bf, cb), bes));
    FirstInFirstOut(ServerActions(SW.Init(sf, maxSize), ses));
    hide CW.Exec, RW.Exec, SW.Exec, DoAll, CW.Inv, RW.Inv, SW.Inv, MessagesOn, Accepted, SW.Accepted, ClientConfirmed,
      BidiConfirmed, ClientActions, BidiActions, ServerActions;
  }

  lemma InOrderFrom(b: Box, acts: seq<Action>)
    requires b == EMPTY || b == Dead([])
    ensures DoAll(b, acts).sent <= Accepted(b, acts)
    ensures DoAll(b, acts).Live? && DoAll(b, acts).shut ==> DoAll(b, acts).sent == Accepted(b, acts)
  {
    RunInOrder(b, acts, []);
    assert [] + Accepted(b, acts) == Accepted(b, acts);
  }
}
