/** Any number of threads using one ServerWriterImpl.  Write, SyncWrite and SyncClose take the lock
    several times, so a thread has a program counter that says which locked section comes next;
    between two sections every other thread and every completion may run. */
module ServerWriterThreads {
  import opened Grpc
  import opened ServerWriterModel

  datatype Request =
    | Write(msg: string)
    | SyncWrite(msg: string)
    | AsyncWrite(msg: string)
    | SyncClose(status: Status)
    | AsyncClose(status: Status)
    | SetHighQueueSize(high: nat)

  /** serial numbers the calls; ticket is the place of the call's message among the accepted ones. */
  datatype Pc =
    | Idle
    | AtCheck(serial: nat, msg: string)
    | AtPush(serial: nat, msg: string, blocking: bool)
    | Spinning(serial: nat, msg: string, ticket: nat)
    | AtResult(serial: nat, msg: string, ticket: nat)
    | AtClose(status: Status, blocking: bool)
    | CloseSpinning
    | AtSetHigh(high: nat)

  /** A SyncWrite that returned after its spin. */
  datatype Return = Return(serial: nat, msg: string, ticket: nat, ok: bool)

  datatype Sys = Sys(sw: State, pcs: seq<Pc>, calls: nat, owners: seq<nat>, results: seq<Return>)

  datatype Step =
    | Begin(thread: nat, request: Request)
    | Go(thread: nat)
    | Finish(id: nat, success: bool)

  function Entry(serial: nat, r: Request): Pc {
    match r
    case Write(msg) => AtCheck(serial, msg)
    case SyncWrite(msg) => AtPush(serial, msg, true)
    case AsyncWrite(msg) => AtPush(serial, msg, false)
    case SyncClose(status) => AtClose(status, true)
    case AsyncClose(status) => AtClose(status, false)
    case SetHighQueueSize(h) => AtSetHigh(h)
  }

  /** The atomic step of the shared object that a step of the system makes, if any. */
  function EventOf(y: Sys, step: Step): Option<Event> {
    match step
    case Begin(_, _) => None
    case Finish(id, success) => Some(EvComplete(id, success))
    case Go(t) =>
      if t >= |y.pcs| then None
      else match y.pcs[t]
           case AtPush(_, msg, _) => Some(EvAsyncWrite(msg))
           case AtClose(status, _) => Some(EvAsyncClose(status))
           case AtSetHigh(h) => Some(EvSetHighQueueSize(h))
           case _ => None
  }

  function Shared(s: State, e: Option<Event>): State
    requires Inv(s)
  {
    if e.None? then s else Next(s, e.value)
  }

  /** Where the locked section leaves the thread. */
  function AfterSection(s: State, pc: Pc): Pc {
    match pc
    case Idle => Idle
    case AtCheck(serial, msg) => AtPush(serial, msg, |s.queue| >= s.high)
    case AtPush(serial, msg, blocking) => if s.Accepts() && blocking then Spinning(serial, msg, |s.accepted|) else Idle
    case Spinning(serial, msg, ticket) => if s.queue == [] then AtResult(serial, msg, ticket) else pc
    case AtResult(_, _, _) => Idle
    case AtClose(_, blocking) => if blocking then CloseSpinning else Idle
    case CloseSpinning => if s.queue == [] then Idle else pc
    case AtSetHigh(_) => Idle
  }

  function Move(y: Sys, step: Step): Sys
    requires Inv(y.sw)
  {
    var sw := Shared(y.sw, EventOf(y, step));
    match step
    case Finish(_, _) => y.(sw := sw)
    case Begin(t, r) =>
      if t < |y.pcs| && y.pcs[t].Idle? then y.(pcs := y.pcs[t := Entry(y.calls, r)], calls := y.calls + 1) else y
    case Go(t) =>
      if t >= |y.pcs| then y
      else
        var pc := y.pcs[t];
        Sys(sw, y.pcs[t := AfterSection(y.sw, pc)], y.calls,
            y.owners + (if pc.AtPush? && y.sw.Accepts() then [pc.serial] else []),
            y.results + (if pc.AtResult? then [Return(pc.serial, pc.msg, pc.ticket, !y.sw.mode.closed)] else []))
  }

  function Start(fate: nat -> bool, maxSize: nat, n: nat): Sys {
    Sys(Init(fate, maxSize), seq(n, _ => Idle), 0, [], [])
  }

  // ----- What a SyncWrite that returns true has achieved -----

  predicate HasSerial(pc: Pc) { pc.AtCheck? || pc.AtPush? || pc.Spinning? || pc.AtResult? }

  ghost predicate PcOk(y: Sys, pc: Pc) {
    && (HasSerial(pc) ==> pc.serial < y.calls)
    && (pc.CloseSpinning? ==> Closing(y.sw))
    && (pc.AtCheck? || pc.AtPush? ==> pc.serial !in y.owners)
    && (pc.Spinning? || pc.AtResult? ==>
          pc.ticket < |y.owners| == |y.sw.accepted| && y.owners[pc.ticket] == pc.serial && y.sw.accepted[pc.ticket] == pc.msg)
    && (pc.AtResult? ==> y.sw.mode.closed || pc.ticket < |y.sw.handed|)
  }

  ghost predicate ReturnOk(y: Sys, r: Return) {
    && r.ticket < |y.owners| == |y.sw.accepted| && y.owners[r.ticket] == r.serial && y.sw.accepted[r.ticket] == r.msg
    && (r.ok ==> r.ticket < |y.sw.handed|)
    && (!r.ok ==> y.sw.mode.closed)
  }

  ghost predicate Owned(y: Sys) {
    && |y.owners| == |y.sw.accepted|
    && (forall i :: 0 <= i < |y.owners| ==> y.owners[i] < y.calls)
    && (forall i, j :: 0 <= i < j < |y.owners| ==> y.owners[i] != y.owners[j])
  }

  ghost predicate Distinct(pcs: seq<Pc>) {
    forall t, u :: 0 <= t < u < |pcs| && HasSerial(pcs[t]) && HasSerial(pcs[u]) ==> pcs[t].serial != pcs[u].serial
  }

  ghost predicate SysInv(y: Sys) {
    && Inv(y.sw)
    && Owned(y)
    && Distinct(y.pcs)
    && (forall t :: 0 <= t < |y.pcs| ==> PcOk(y, y.pcs[t]))
    && (forall i :: 0 <= i < |y.results| ==> ReturnOk(y, y.results[i]))
  }

  /** The logs of the shared object only grow, and neither closed_ nor a recorded close is reset. */
  ghost predicate Grows(s: State, r: State) {
    && s.accepted <= r.accepted && s.handed <= r.handed && (s.mode.closed ==> r.mode.closed)
    && (Closing(s) ==> Closing(r))
  }

  lemma HandedGrows(s: State, e: Event)
    requires Inv(s)
    ensures Grows(s, Next(s, e))
  {
    StepHands(s, e);
    if Closing(s) { ClosingStep(s, e); }
    hide Inv, Next;
  }

  lemma EmptyQueueIsHanded(s: State)
    requires Inv(s)
    ensures s.handed <= s.accepted
    ensures s.queue == [] && !s.mode.closed ==> s.handed == s.accepted
  {
    hide TagsOk, WireOk;
  }

  /** What the other threads see of a step. */
  ghost predicate Extends(y: Sys, y': Sys) {
    && |y.owners| == |y.sw.accepted| && |y'.owners| == |y'.sw.accepted|
    && Grows(y.sw, y'.sw) && y.calls <= y'.calls && y.owners <= y'.owners
  }

  lemma PcSurvives(y: Sys, y': Sys, pc: Pc)
    requires PcOk(y, pc) && Extends(y, y')
    requires (pc.AtCheck? || pc.AtPush?) ==> pc.serial !in y'.owners[|y.owners|..]
    ensures PcOk(y', pc)
  {
    assert y'.owners == y.owners + y'.owners[|y.owners|..];
  }

  lemma ReturnsSurvive(y: Sys, y': Sys)
    requires Extends(y, y') && forall i :: 0 <= i < |y.results| ==> ReturnOk(y, y.results[i])
    ensures forall i :: 0 <= i < |y.results| ==> ReturnOk(y', y.results[i])
  {
  }

  lemma SharedStep(y: Sys, step: Step)
    requires SysInv(y)
    ensures var sw := Shared(y.sw, EventOf(y, step));
            && Inv(sw) && Grows(y.sw, sw)
            && sw.accepted == y.sw.accepted +
                 if step.Go? && step.thread < |y.pcs| && y.pcs[step.thread].AtPush? && y.sw.Accepts()
                 then [y.pcs[step.thread].msg] else []
  {
    hide Inv, Next, State.Accepts, Grows;
    var e := EventOf(y, step);
    if e.Some? {
      NextInv(y.sw, e.value);
      StepBooks(y.sw, e.value);
      HandedGrows(y.sw, e.value);
    } else {
      GrowsRefl(y.sw);
    }
  }

  lemma GrowsRefl(s: State)
    ensures Grows(s, s)
  {
  }

  lemma BeginInv(y: Sys, t: nat, r: Request)
    requires SysInv(y)
    ensures SysInv(Move(y, Begin(t, r)))
  {
    hide Inv;
    var y' := Move(y, Begin(t, r));
    forall u | 0 <= u < |y'.pcs|
      ensures PcOk(y', y'.pcs[u])
    {
      if u != t { PcSurvives(y, y', y.pcs[u]); }
    }
    ReturnsSurvive(y, y');
  }

  lemma FinishInv(y: Sys, id: nat, success: bool)
    requires SysInv(y)
    ensures SysInv(Move(y, Finish(id, success)))
  {
    hide Inv, Next, State.Accepts;
    SharedStep(y, Finish(id, success));
    var y' := Move(y, Finish(id, success));
    forall u | 0 <= u < |y'.pcs|
      ensures PcOk(y', y'.pcs[u])
    {
      PcSurvives(y, y', y.pcs[u]);
    }
    ReturnsSurvive(y, y');
  }

  lemma GoInv(y: Sys, t: nat)
    requires SysInv(y) && t < |y.pcs|
    ensures SysInv(Move(y, Go(t)))
  {
    hide Inv, Next, State.Accepts, Closing;
    SharedStep(y, Go(t));
    EmptyQueueIsHanded(y.sw);
    if y.pcs[t].AtClose? { CloseIsRecorded(y.sw, y.pcs[t].status); }
    var y' := Move(y, Go(t));
    var pc := y.pcs[t];
    assert PcOk(y, pc);
    assert Extends(y, y');
    forall u | 0 <= u < |y'.pcs|
      ensures PcOk(y', y'.pcs[u])
    {
      assert PcOk(y, y.pcs[u]);
      if u != t { PcSurvives(y, y', y.pcs[u]); }
    }
    ReturnsSurvive(y, y');
  }

  lemma CloseIsRecorded(s: State, status: Status)
    requires Inv(s)
    ensures Closing(Next(s, EvAsyncClose(status)))
  {
    AsyncCloseCore(s, status);
    hide Inv;
  }

  lemma MoveInv(y: Sys, step: Step)
    requires SysInv(y)
    ensures SysInv(Move(y, step))
  {
    match step
    case Begin(t, r) => BeginInv(y, t, r); hide SysInv;
    case Finish(id, success) => FinishInv(y, id, success); hide SysInv;
    case Go(t) => if t < |y.pcs| { GoInv(y, t); hide SysInv; }
  }

  function Run(y: Sys, steps: seq<Step>): (r: Sys)
    requires SysInv(y)
    ensures SysInv(r)
    decreases |steps|
  {
    if steps == [] then y
    else
      MoveInv(y, steps[0]);
      Run(Move(y, steps[0]), steps[1..])
  }

  lemma StartInv(fate: nat -> bool, maxSize: nat, n: nat)
    ensures SysInv(Start(fate, maxSize, n))
  {
    InitInv(fate, maxSize);
  }

  /** Whatever the threads and the completion queue do, a SyncWrite that returned true has had its
      own message, accepted once and for this call, handed to gRPC at its place in the order of
      acceptance. */
  lemma SyncWriteTrueMeansHanded(fate: nat -> bool, maxSize: nat, n: nat, steps: seq<Step>)
    ensures SysInv(Start(fate, maxSize, n))
    ensures var y := Run(Start(fate, maxSize, n), steps);
            forall i :: 0 <= i < |y.results| && y.results[i].ok ==>
              var r := y.results[i];
              && r.ticket < |MessagesOn(y.sw.call.wire)| && MessagesOn(y.sw.call.wire)[r.ticket] == r.msg
              && r.ticket < |y.owners| && y.owners[r.ticket] == r.serial
              && (forall k :: 0 <= k < |y.owners| && k != r.ticket ==> y.owners[k] != r.serial)
  {
    StartInv(fate, maxSize, n);
    hide Inv, Run, Start;
    var y := Run(Start(fate, maxSize, n), steps);
    EmptyQueueIsHanded(y.sw);
    WireCarriesHanded(y.sw);
    assert forall i :: 0 <= i < |y.results| ==> ReturnOk(y, y.results[i]);
  }

  // ----- The threads' system is the object's state machine -----

  function EventsOf(y: Sys, steps: seq<Step>): seq<Event>
    requires SysInv(y)
    decreases |steps|
  {
    if steps == [] then []
    else
      MoveInv(y, steps[0]);
      (if EventOf(y, steps[0]).Some? then [EventOf(y, steps[0]).value] else []) + EventsOf(Move(y, steps[0]), steps[1..])
  }

  lemma MoveIsNext(y: Sys, step: Step)
    requires SysInv(y)
    ensures Move(y, step).sw == Shared(y.sw, EventOf(y, step))
  {
    hide Inv, Next, State.Accepts;
  }

  /** Every interleaving is a run of the object, so what holds in all its runs holds here. */
  lemma {:induction false} InterleavingIsRun(y: Sys, steps: seq<Step>)
    requires SysInv(y)
    ensures Run(y, steps).sw == Exec(y.sw, EventsOf(y, steps))
    decreases |steps|
  {
    hide SysInv, Move, EventOf;
    assert Inv(y.sw) by { InvOf(y); }
    if steps != [] {
      MoveInv(y, steps[0]);
      MoveIsNext(y, steps[0]);
      var y', rest := Move(y, steps[0]), EventsOf(Move(y, steps[0]), steps[1..]);
      InterleavingIsRun(y', steps[1..]);
      if EventOf(y, steps[0]).Some? {
        var es := [EventOf(y, steps[0]).value] + rest;
        assert es[1..] == rest;
      } else {
        assert EventsOf(y, steps) == rest;
      }
    }
  }

  lemma InvOf(y: Sys)
    requires SysInv(y)
    ensures Inv(y.sw)
  {
    hide Inv;
  }

  // ----- The object's events are the threads' requests -----

  function RequestEvent(r: Request): Event {
    match r
    case Write(msg) => EvAsyncWrite(msg)
    case SyncWrite(msg) => EvAsyncWrite(msg)
    case AsyncWrite(msg) => EvAsyncWrite(msg)
    case SyncClose(status) => EvAsyncClose(status)
    case AsyncClose(status) => EvAsyncClose(status)
    case SetHighQueueSize(h) => EvSetHighQueueSize(h)
  }

  /** What a call that has begun has still to do to the object. */
  function ToCome(pc: Pc): Option<Event> {
    match pc
    case AtCheck(_, msg) => Some(EvAsyncWrite(msg))
    case AtPush(_, msg, _) => Some(EvAsyncWrite(msg))
    case AtClose(status, _) => Some(EvAsyncClose(status))
    case AtSetHigh(h) => Some(EvSetHighQueueSize(h))
    case _ => None
  }

  function One(e: Option<Event>, x: Event): nat { if e == Some(x) then 1 else 0 }

  /** How many calls have x still to do. */
  function AllToCome(pcs: seq<Pc>, x: Event): nat {
    if pcs == [] then 0 else One(ToCome(pcs[0]), x) + AllToCome(pcs[1..], x)
  }

  /** What a call that begins in this step asks of the object. */
  function Asked(y: Sys, step: Step): Option<Event> {
    if step.Begin? && step.thread < |y.pcs| && y.pcs[step.thread].Idle? then Some(RequestEvent(step.request)) else None
  }

  /** How many calls that begin in this run ask for x. */
  function AllAsked(y: Sys, steps: seq<Step>, x: Event): nat
    requires SysInv(y)
    decreases |steps|
  {
    if steps == [] then 0
    else
      MoveInv(y, steps[0]);
      One(Asked(y, steps[0]), x) + AllAsked(Move(y, steps[0]), steps[1..], x)
  }

  function Count(es: seq<Event>, x: Event): nat {
    if es == [] then 0 else One(Some(es[0]), x) + Count(es[1..], x)
  }

  lemma {:induction false} OneChanges(pcs: seq<Pc>, t: nat, pc: Pc, x: Event)
    requires t < |pcs|
    ensures AllToCome(pcs[t := pc], x) + One(ToCome(pcs[t]), x) == AllToCome(pcs, x) + One(ToCome(pc), x)
    decreases t
  {
    hide ToCome, One;
    if t == 0 {
      assert pcs[0 := pc][1..] == pcs[1..];
    } else {
      OneChanges(pcs[1..], t - 1, pc, x);
      assert pcs[t := pc][1..] == pcs[1..][t - 1 := pc] && pcs[t := pc][0] == pcs[0];
    }
  }

  lemma SectionConserves(y: Sys, t: nat, x: Event)
    requires t < |y.pcs| && !x.EvComplete?
    ensures One(ToCome(AfterSection(y.sw, y.pcs[t])), x) + One(EventOf(y, Go(t)), x) == One(ToCome(y.pcs[t]), x)
  {
    hide State.Accepts;
  }

  lemma StepConserves(y: Sys, step: Step, x: Event)
    requires SysInv(y) && !x.EvComplete?
    ensures Inv(y.sw)
    ensures AllToCome(y.pcs, x) + One(Asked(y, step), x) == AllToCome(Move(y, step).pcs, x) + One(EventOf(y, step), x)
  {
    InvOf(y);
    hide SysInv, Inv, Next, State.Accepts, AllToCome, AfterSection, Shared;
    match step
    case Begin(t, r) =>
      if t < |y.pcs| && y.pcs[t].Idle? { OneChanges(y.pcs, t, Entry(y.calls, r), x); }
    case Go(t) =>
      if t < |y.pcs| {
        OneChanges(y.pcs, t, AfterSection(y.sw, y.pcs[t]), x);
        SectionConserves(y, t, x);
        hide ToCome, EventOf;
      }
    case Finish(_, _) =>
  }

  /** In every interleaving each call that has begun does to the object exactly what was requested, once,
      or has it still to do; and nothing else is done to the object, except by completions. */
  lemma {:induction false} RequestsAreConserved(y: Sys, steps: seq<Step>, x: Event)
    requires SysInv(y) && !x.EvComplete?
    ensures AllToCome(y.pcs, x) + AllAsked(y, steps, x) == AllToCome(Run(y, steps).pcs, x) + Count(EventsOf(y, steps), x)
    decreases |steps|
  {
    hide SysInv, Move, EventOf, AllToCome, Asked;
    if steps != [] {
      MoveInv(y, steps[0]);
      StepConserves(y, steps[0], x);
      RequestsAreConserved(Move(y, steps[0]), steps[1..], x);
      var rest := EventsOf(Move(y, steps[0]), steps[1..]);
      if EventOf(y, steps[0]).Some? {
        assert EventsOf(y, steps)[0] == EventOf(y, steps[0]).value && EventsOf(y, steps)[1..] == rest;
      } else {
        assert EventsOf(y, steps) == rest;
      }
    }
  }

  /** The first locked section of each call: which calls block, and on what. */
  lemma FirstSection(y: Sys, t: nat, request: Request)
    requires SysInv(y) && t < |y.pcs| && y.pcs[t].Idle?
    ensures var r := Run(y, [Begin(t, request), Go(t)]);
            t < |r.pcs| && var pc := r.pcs[t];
            match request
            case Write(msg) => pc == AtPush(y.calls, msg, |y.sw.queue| >= y.sw.high)
            case SyncWrite(msg) => pc == if y.sw.Accepts() then Spinning(y.calls, msg, |y.sw.accepted|) else Idle
            case AsyncWrite(_) => pc == Idle
            case SyncClose(_) => pc == CloseSpinning
            case AsyncClose(_) => pc == Idle
            case SetHighQueueSize(_) => pc == Idle
  {
    hide Inv, Next, SysInv;
    InvOf(y);
    var begin := Begin(t, request);
    MoveInv(y, begin);
    InvOf(Move(y, begin));
    MoveInv(Move(y, begin), Go(t));
    assert [begin, Go(t)][1..] == [Go(t)];
    assert Run(Move(y, begin), [Go(t)]) == Run(Move(Move(y, begin), Go(t)), []);
  }

  // ----- When the answer of a SyncWrite is right -----

  /** None of the first starts up to place t was refused. */
  predicate NoneRefused(fate: nat -> bool, t: nat) {
    forall k: nat :: k <= t ==> fate(k)
  }

  /** Every interleaving: the message of a returned SyncWrite is on the wire if and only if no start up
      to its own place was refused, whatever the call answered.  True is therefore always right, and
      false is wrong exactly when no such start was refused. */
  lemma ReturnedIsHandedIff(fate: nat -> bool, maxSize: nat, n: nat, steps: seq<Step>)
    ensures SysInv(Start(fate, maxSize, n))
    ensures var y := Run(Start(fate, maxSize, n), steps);
            forall i :: 0 <= i < |y.results| ==>
              var r := y.results[i];
              && (r.ticket < |MessagesOn(y.sw.call.wire)| <==> NoneRefused(fate, r.ticket))
              && (r.ok ==> NoneRefused(fate, r.ticket))
              && (r.ok == (r.ticket < |MessagesOn(y.sw.call.wire)|) <==> r.ok || !NoneRefused(fate, r.ticket))
  {
    StartInv(fate, maxSize, n);
    var y0, y := Start(fate, maxSize, n), Run(Start(fate, maxSize, n), steps);
    InterleavingIsRun(y0, steps);
    StartsAreNumbered(y0.sw, EventsOf(y0, steps));
    WireCarriesHanded(y.sw);
    hide Run, EventsOf, TagsOk, WireOk, Exec, MessagesOn;
    forall i | 0 <= i < |y.results|
      ensures y.results[i].ticket < |y.sw.handed| <==> NoneRefused(fate, y.results[i].ticket)
    {
      var r := y.results[i];
      assert ReturnOk(y, r);
      if r.ticket >= |y.sw.handed| { assert !fate(|y.sw.handed|); }
    }
    assert forall i :: 0 <= i < |y.results| ==> ReturnOk(y, y.results[i]);
  }

  // ----- What the answer of a SyncWrite means -----

  /** In every interleaving: the answers given so far are all true for as long as the stream is open;
      and an answer is false only on a stream that was closed by then, which takes a close that was
      asked for or a start that was refused. */
  lemma FalseMeansClosed(fate: nat -> bool, maxSize: nat, n: nat, steps: seq<Step>)
    ensures SysInv(Start(fate, maxSize, n))
    ensures var y0 := Start(fate, maxSize, n); var y := Run(y0, steps);
            && (!y.sw.mode.closed ==> forall i :: 0 <= i < |y.results| ==> y.results[i].ok)
            && (forall i :: 0 <= i < |y.results| && !y.results[i].ok ==>
                  || EffectiveClose(y0.sw, EventsOf(y0, steps)).Some?
                  || (y.sw.call.next > 0 && !fate(y.sw.call.next - 1)))
  {
    StartInv(fate, maxSize, n);
    var y0, y := Start(fate, maxSize, n), Run(Start(fate, maxSize, n), steps);
    InterleavingIsRun(y0, steps);
    var es := EventsOf(y0, steps);
    StartsAreNumbered(y0.sw, es);
    RunBooks(y0.sw, es);
    FinalIsClosed(y.sw);
    hide Run, EventsOf, Inv, Exec, EffectiveClose;
    assert forall i :: 0 <= i < |y.results| ==> ReturnOk(y, y.results[i]);
  }

  /** The last look: only a thread that has seen the empty queue answers, once, and it answers true
      exactly when the stream is open at that look. */
  lemma LookAnswers(y: Sys, step: Step)
    requires SysInv(y)
    ensures var looks := step.Go? && step.thread < |y.pcs| && y.pcs[step.thread].AtResult?;
            var r := Move(y, step);
            && (!looks ==> r.results == y.results)
            && (looks ==> r.sw == y.sw && r.pcs[step.thread].Idle? && |r.results| == |y.results| + 1
                          && r.results[..|y.results|] == y.results && r.results[|y.results|].serial == y.pcs[step.thread].serial
                          && (r.results[|y.results|].ok <==> !y.sw.mode.closed))
  {
    hide Inv, Next, State.Accepts;
  }

  // ----- What a SyncClose waits for -----

  /** A spinning SyncClose returns at its next look if and only if the queue is empty then, and in
      every continuation it stays empty. */
  lemma CloseReturnsOnEmpty(y: Sys, t: nat, steps: seq<Step>)
    requires SysInv(y) && t < |y.pcs| && y.pcs[t].CloseSpinning?
    ensures SysInv(Move(y, Go(t)))
    ensures Move(y, Go(t)).pcs[t] != CloseSpinning <==> y.sw.queue == []
    ensures Move(y, Go(t)).pcs[t] != CloseSpinning ==> Run(Move(y, Go(t)), steps).sw.queue == []
  {
    MoveInv(y, Go(t));
    assert PcOk(y, y.pcs[t]);
    var y' := Move(y, Go(t));
    InterleavingIsRun(y', steps);
    hide Inv, Run, EventsOf, Exec, Closing;
    if y'.pcs[t] != CloseSpinning { CloseDrains(y'.sw, EventsOf(y', steps)); }
  }

  /** In every interleaving the queue that a spinning SyncClose waits for is empty once as many write
      completions have come in as messages were waiting. */
  lemma CloseWaitsNoLonger(y: Sys, t: nat, steps: seq<Step>)
    requires SysInv(y) && t < |y.pcs| && y.pcs[t].CloseSpinning?
    ensures WriteCompletions(y.sw, EventsOf(y, steps)) >= |y.sw.queue| ==> Run(y, steps).sw.queue == []
  {
    assert PcOk(y, y.pcs[t]);
    InterleavingIsRun(y, steps);
    hide Inv, Run, EventsOf, Exec, Closing;
    CloseDrains(y.sw, EventsOf(y, steps));
  }

  // ----- A run in which false is wrong -----

  lemma {:induction false} RunConcat(y: Sys, a: seq<Step>, b: seq<Step>)
    requires SysInv(y)
    ensures Run(y, a + b) == Run(Run(y, a), b)
    decreases |a|
  {
    hide SysInv, Move;
    if a == [] {
      assert a + b == b;
    } else {
      MoveInv(y, a[0]);
      InvOf(y);
      RunConcat(Move(y, a[0]), a[1..], b);
      assert (a + b)[1..] == a[1..] + b;
    }
  }

  /** One step after another, as a run. */
  lemma Append(y: Sys, steps: seq<Step>, step: Step)
    requires SysInv(y)
    ensures Run(y, steps + [step]) == Move(Run(y, steps), step)
  {
    hide SysInv, Move;
    RunConcat(y, steps, [step]);
    MoveInv(Run(y, steps), step);
    assert [step][1..] == [];
  }

  /** The message is in flight, the queue is empty, and the caller is in SyncWrite. */
  ghost predicate InFlight(y: Sys, msg: string, close: Option<Status>) {
    && SysInv(y) && |y.pcs| == 2 && y.results == []
    && y.sw.accepted == y.sw.handed == [msg] && y.sw.queue == [] && y.sw.closeStatus == close
    && y.sw.mode == Mode(false, true) && y.sw.writeId == Some(0)
  }

  lemma PushGoesOut(fate: nat -> bool, maxSize: nat, msg: string) returns (y: Sys)
    requires fate(0)
    ensures SysInv(Start(fate, maxSize, 2))
    ensures y == Run(Start(fate, maxSize, 2), [Begin(0, SyncWrite(msg)), Go(0)])
    ensures InFlight(y, msg, None) && y.pcs == [Spinning(0, msg, 0), Idle]
  {
    hide SysInv;
    StartInv(fate, maxSize, 2);
    var y0 := Start(fate, maxSize, 2);
    Append(y0, [], Begin(0, SyncWrite(msg)));
    MoveInv(y0, Begin(0, SyncWrite(msg)));
    var y1 := Move(y0, Begin(0, SyncWrite(msg)));
    assert [] + [Begin(0, SyncWrite(msg))] == [Begin(0, SyncWrite(msg))];
    Append(y0, [Begin(0, SyncWrite(msg))], Go(0));
    assert y1.pcs[0] == AtPush(0, msg, true);
    MoveInv(y1, Go(0));
    y := Move(y1, Go(0));
  }

  lemma SpinEndsThenClose(y: Sys, msg: string) returns (r: Sys)
    requires InFlight(y, msg, None) && y.pcs == [Spinning(0, msg, 0), Idle]
    ensures r == Run(y, [Go(0), Begin(1, AsyncClose(OK)), Go(1)])
    ensures InFlight(r, msg, Some(OK)) && r.pcs == [AtResult(0, msg, 0), Idle]
  {
    hide SysInv;
    InvOf(y);
    Append(y, [], Go(0));
    MoveInv(y, Go(0));
    var y1 := Move(y, Go(0));
    assert [] + [Go(0)] == [Go(0)];
    Append(y, [Go(0)], Begin(1, AsyncClose(OK)));
    MoveInv(y1, Begin(1, AsyncClose(OK)));
    var y2 := Move(y1, Begin(1, AsyncClose(OK)));
    Append(y, [Go(0), Begin(1, AsyncClose(OK))], Go(1));
    MoveInv(y2, Go(1));
    r := Move(y2, Go(1));
  }

  lemma CloseGoesOutThenReturn(y: Sys, msg: string) returns (r: Sys)
    requires InFlight(y, msg, Some(OK)) && y.pcs == [AtResult(0, msg, 0), Idle]
    ensures r == Run(y, [Finish(0, true), Go(0)])
    ensures SysInv(r) && r.results == [Return(0, msg, 0, false)] && r.sw.handed == [msg]
  {
    hide SysInv;
    InvOf(y);
    assert 0 in y.sw.call.pending && y.sw.call.pending[0].ServerWriteTag? by {
      OutstandingWrite(y.sw);
      assert 0 in WriteTags(y.sw);
    }
    Append(y, [], Finish(0, true));
    MoveInv(y, Finish(0, true));
    var y1 := Move(y, Finish(0, true));
    assert [] + [Finish(0, true)] == [Finish(0, true)];
    Append(y, [Finish(0, true)], Go(0));
    MoveInv(y1, Go(0));
    r := Move(y1, Go(0));
  }

  /** SyncWrite pushes, its message goes out at once, the spin sees the empty queue; before the last
      look at closed_ another thread closes the stream. */
  lemma FalseAlthoughHanded(fate: nat -> bool, maxSize: nat, msg: string) returns (steps: seq<Step>)
    requires fate(0)
    ensures SysInv(Start(fate, maxSize, 2))
    ensures var y := Run(Start(fate, maxSize, 2), steps);
            y.results == [Return(0, msg, 0, false)] && MessagesOn(y.sw.call.wire) == [msg]
  {
    hide SysInv, Move, Start;
    var y0 := Start(fate, maxSize, 2);
    var a, b, c := [Begin(0, SyncWrite(msg)), Go(0)], [Go(0), Begin(1, AsyncClose(OK)), Go(1)], [Finish(0, true), Go(0)];
    var y1 := PushGoesOut(fate, maxSize, msg);
    var y2 := SpinEndsThenClose(y1, msg);
    var y3 := CloseGoesOutThenReturn(y2, msg);
    RunConcat(y0, a, b);
    RunConcat(y0, a + b, c);
    steps := a + b + c;
    InvOf(y3);
    WireCarriesHanded(y3.sw);
  }

  // ----- How long a SyncWrite waits -----

  /** In every interleaving the own message of a spinning SyncWrite is handed over, or the stream
      closed, as soon as as many write completions have come in as messages up to its own waited. */
  lemma OwnMessageGoesOut(y: Sys, t: nat, steps: seq<Step>)
    requires SysInv(y) && t < |y.pcs| && y.pcs[t].Spinning?
    ensures var r := Run(y, steps).sw; var ticket := y.pcs[t].ticket;
            |y.sw.handed| + WriteCompletions(y.sw, EventsOf(y, steps)) > ticket ==> |r.handed| > ticket || r.mode.closed
  {
    hide Inv, Run, EventsOf, Exec;
    InterleavingIsRun(y, steps);
    assert PcOk(y, y.pcs[t]);
    MessageGoesOut(y.sw, EventsOf(y, steps), y.pcs[t].ticket);
  }

  /** Thread 0 spins although its own message was the first to go out: one more always waits. */
  ghost predicate Outlasting(y: Sys, msg: string, done: nat, waiting: nat) {
    && SysInv(y) && y.pcs == [Spinning(0, msg, 0), Idle] && y.results == []
    && |y.sw.handed| == done + 1 && y.sw.handed[0] == msg && |y.sw.queue| == waiting
    && y.sw.mode == Mode(false, true) && y.sw.closeStatus.None? && (forall k: nat :: y.sw.call.fate(k))
  }

  lemma OtherPushes(y: Sys, msg: string, other: string, done: nat, waiting: nat)
    requires Outlasting(y, msg, done, waiting)
    ensures Outlasting(Run(y, [Begin(1, AsyncWrite(other)), Go(1)]), msg, done, waiting + 1)
  {
    hide SysInv;
    var begin := Begin(1, AsyncWrite(other));
    InvOf(y);
    assert [] + [begin] == [begin];
    Append(y, [], begin);
    MoveInv(y, begin);
    var y1 := Move(y, begin);
    assert y1.pcs[1] == AtPush(y.calls, other, false);
    Append(y, [begin], Go(1));
    MoveInv(y1, Go(1));
  }

  lemma OneCompletes(y: Sys, msg: string, done: nat, waiting: nat) returns (id: nat)
    requires Outlasting(y, msg, done, waiting) && waiting > 0
    ensures Outlasting(Run(y, [Finish(id, true)]), msg, done + 1, waiting - 1)
  {
    hide SysInv, MessageFrames;
    InvOf(y);
    id := WriteIsOut(y.sw);
    assert [] + [Finish(id, true)] == [Finish(id, true)];
    Append(y, [], Finish(id, true));
    MoveInv(y, Finish(id, true));
    SendsNext(y.sw, id);
    hide Next, Inv;
  }

  lemma WriteIsOut(s: State) returns (id: nat)
    requires Inv(s) && !s.mode.closed && s.mode.isSending
    ensures id in s.call.pending && s.writeId == Some(id) && s.call.pending[id].ServerWriteTag?
  {
    hide WireOk;
    id := s.writeId.value;
    CompletionFindsOpenStream(s, id);
  }

  lemma SendsNext(s: State, id: nat)
    requires Inv(s) && s.mode == Mode(false, true) && s.writeId == Some(id) && id in s.call.pending
    requires s.queue != [] && s.call.WillStart()
    ensures var r := Next(s, EvComplete(id, true));
            && r.mode == s.mode && r.queue == s.queue[1..] && r.handed == s.handed + [s.queue[0]]
            && r.closeStatus == s.closeStatus && r.call.fate == s.call.fate
  {
    CompletionFindsOpenStream(s, id);
    hide Inv;
  }

  lemma SpinLooks(y: Sys, msg: string, done: nat, waiting: nat)
    requires Outlasting(y, msg, done, waiting) && waiting > 0
    ensures Run(y, [Go(0)]) == y
  {
    hide SysInv;
    InvOf(y);
    assert [] + [Go(0)] == [Go(0)];
    Append(y, [], Go(0));
    assert y.pcs[0 := y.pcs[0]] == y.pcs;
  }

  /** The spin outlasts its own message: for every m there is a run in which the message of thread 0
      goes out at once, m further messages of thread 1 go out after it, and thread 0, which looks
      after each of them, still spins, because it waits for the whole queue. */
  lemma SpinOutlasts(fate: nat -> bool, maxSize: nat, msg: string, other: string, m: nat) returns (steps: seq<Step>)
    requires forall k: nat :: fate(k)
    ensures SysInv(Start(fate, maxSize, 2))
    ensures var y := Run(Start(fate, maxSize, 2), steps);
            && y.pcs == [Spinning(0, msg, 0), Idle] && y.results == [] && y.sw.queue != []
            && |MessagesOn(y.sw.call.wire)| == m + 1 && MessagesOn(y.sw.call.wire)[0] == msg
            && multiset(steps)[Go(0)] == m + 2
  {
    hide SysInv, Move, Start;
    var y0 := Start(fate, maxSize, 2);
    steps := KeepsSpinning(fate, maxSize, msg, other, m);
    var y := Run(y0, steps);
    InvOf(y);
    WireCarriesHanded(y.sw);
  }

  lemma {:induction false} KeepsSpinning(fate: nat -> bool, maxSize: nat, msg: string, other: string, m: nat) returns (steps: seq<Step>)
    requires forall k: nat :: fate(k)
    ensures SysInv(Start(fate, maxSize, 2))
    ensures Outlasting(Run(Start(fate, maxSize, 2), steps), msg, m, 1) && multiset(steps)[Go(0)] == m + 2
    decreases m
  {
    hide SysInv, Move, Start, Outlasting;
    var y0 := Start(fate, maxSize, 2);
    if m == 0 {
      steps := [Begin(0, SyncWrite(msg)), Go(0)];
      var y := PushGoesOut(fate, maxSize, msg);
      NowOutlasting(fate, maxSize, y, msg);
      var push := [Begin(1, AsyncWrite(other)), Go(1)];
      OtherPushes(y, msg, other, 0, 0);
      RunConcat(y0, steps, push);
      steps := steps + push;
    } else {
      steps := KeepsSpinning(fate, maxSize, msg, other, m - 1);
      var push := [Begin(1, AsyncWrite(other)), Go(1)];
      OtherPushes(Run(y0, steps), msg, other, m - 1, 1);
      RunConcat(y0, steps, push);
      steps := steps + push;
      var id := OneCompletes(Run(y0, steps), msg, m - 1, 2);
      RunConcat(y0, steps, [Finish(id, true)]);
      steps := steps + [Finish(id, true)];
    }
    SpinLooks(Run(y0, steps), msg, m, 1);
    RunConcat(y0, steps, [Go(0)]);
    steps := steps + [Go(0)];
  }

  lemma NowOutlasting(fate: nat -> bool, maxSize: nat, y: Sys, msg: string)
    requires SysInv(Start(fate, maxSize, 2)) && y == Run(Start(fate, maxSize, 2), [Begin(0, SyncWrite(msg)), Go(0)])
    requires InFlight(y, msg, None) && y.pcs == [Spinning(0, msg, 0), Idle] && forall k: nat :: fate(k)
    ensures Outlasting(y, msg, 0, 0)
  {
    hide SysInv;
    var y0, begin := Start(fate, maxSize, 2), Begin(0, SyncWrite(msg));
    assert [] + [begin] == [begin];
    Append(y0, [], begin);
    MoveInv(y0, begin);
    Append(y0, [begin], Go(0));
  }
}
