/** How long the queue of a ServerWriterImpl can get under threads that only call Write, the one
    call that looks at high_queue_size_. */
module ServerWriterBound {
  import opened Grpc
  import opened ServerWriterModel
  import opened ServerWriterThreads

  /** How many messages a writing thread may still add while the queue stays long. */
  function Weight(pc: Pc): nat {
    if pc.Spinning? then 0 else if pc.AtPush? && !pc.blocking then 2 else 1
  }

  function Total(pcs: seq<Pc>): nat {
    if pcs == [] then 0 else Weight(pcs[0]) + Total(pcs[1..])
  }

  lemma {:induction false} TotalUpdate(pcs: seq<Pc>, t: nat, pc: Pc)
    requires t < |pcs|
    ensures Total(pcs[t := pc]) == Total(pcs) - Weight(pcs[t]) + Weight(pc)
    decreases |pcs|
  {
    if t == 0 {
      assert pcs[t := pc][1..] == pcs[1..];
    } else {
      assert pcs[t := pc][1..] == pcs[1..][t - 1 := pc];
      TotalUpdate(pcs[1..], t - 1, pc);
    }
  }

  lemma {:induction false} TotalAtMost(pcs: seq<Pc>, w: nat)
    requires forall t :: 0 <= t < |pcs| ==> Weight(pcs[t]) <= w
    ensures Total(pcs) <= w * |pcs|
    decreases |pcs|
  {
    if pcs != [] {
      TotalAtMost(pcs[1..], w);
      assert w * |pcs| == w + w * |pcs[1..]|;
    }
  }

  /** The exact limit.  With H = 0 every Write blocks, so each thread adds one message at most. */
  function Limit(h: nat, n: nat): int {
    if h == 0 then n else h + 2 * n - 1
  }

  predicate Writing(pc: Pc) { pc.Idle? || HasSerial(pc) }

  ghost predicate Bounded(y: Sys, h: nat) {
    && SysInv(y)
    && y.sw.high == h && |y.pcs| >= 1
    && (forall t :: 0 <= t < |y.pcs| ==> Writing(y.pcs[t]) && (h == 0 ==> Weight(y.pcs[t]) <= 1))
    && |y.sw.queue| + Total(y.pcs) <= Limit(h, |y.pcs|)
  }

  lemma QueueStep(s: State, e: Event)
    requires Inv(s) && !e.EvSetHighQueueSize?
    ensures Next(s, e).high == s.high
    ensures |Next(s, e).queue| <= |s.queue| + if e.EvAsyncWrite? && s.Accepts() then 1 else 0
  {
    hide Core, State.AsyncWrite, State.AsyncClose, State.TryToWriteNext;
    if e.EvAsyncClose? { AsyncCloseCore(s, e.status); }
    if e.EvComplete? && e.id in s.call.pending { CompletionFindsOpenStream(s, e.id); }
  }

  lemma BoundedMove(y: Sys, step: Step, h: nat)
    requires Bounded(y, h) && (step.Begin? ==> step.request.Write?)
    ensures Bounded(Move(y, step), h)
  {
    hide SysInv, Inv, Next, State.Accepts;
    MoveInv(y, step);
    InvOf(y);
    var e := EventOf(y, step);
    if e.Some? { QueueStep(y.sw, e.value); }
    var y' := Move(y, step);
    match step
    case Finish(_, _) =>
    case Begin(t, r) => if t < |y.pcs| { TotalUpdate(y.pcs, t, Entry(y.calls, r)); }
    case Go(t) =>
      if t < |y.pcs| {
        TotalUpdate(y.pcs, t, AfterSection(y.sw, y.pcs[t]));
        TotalAtMost(y'.pcs, 2);
        if h == 0 { TotalAtMost(y'.pcs, 1); }
      }
  }

  lemma {:induction false} BoundedRun(y: Sys, steps: seq<Step>, h: nat)
    requires Bounded(y, h) && forall i :: 0 <= i < |steps| && steps[i].Begin? ==> steps[i].request.Write?
    ensures SysInv(y) && Bounded(Run(y, steps), h)
    decreases |steps|
  {
    hide Move;
    if steps != [] {
      MoveInv(y, steps[0]);
      BoundedMove(y, steps[0], h);
      hide Bounded;
      BoundedRun(Move(y, steps[0]), steps[1..], h);
    }
  }

  function StartWithHigh(fate: nat -> bool, maxSize: nat, h: nat, n: nat): Sys {
    Start(fate, maxSize, n).(sw := Init(fate, maxSize).SetHighQueueSize(h))
  }

  lemma StartWithHighInv(fate: nat -> bool, maxSize: nat, h: nat, n: nat)
    ensures SysInv(StartWithHigh(fate, maxSize, h, n))
  {
    StartInv(fate, maxSize, n);
    NextInv(Init(fate, maxSize), EvSetHighQueueSize(h));
  }

  lemma StartBounded(fate: nat -> bool, maxSize: nat, h: nat, n: nat)
    requires n >= 1
    ensures Bounded(StartWithHigh(fate, maxSize, h, n), h)
  {
    StartWithHighInv(fate, maxSize, h, n);
    hide SysInv;
    TotalAtMost(StartWithHigh(fate, maxSize, h, n).pcs, 1);
  }

  /** N >= 1 threads that only call Write, with high_queue_size_ fixed at H, never make the queue
      longer than H + 2N - 1, and not longer than N if H = 0, in any interleaving of the check, the
      push, the spin and the completions. */
  lemma QueueNeverExceeds(fate: nat -> bool, maxSize: nat, h: nat, n: nat, steps: seq<Step>)
    requires n >= 1
    requires forall i :: 0 <= i < |steps| && steps[i].Begin? ==> steps[i].request.Write?
    ensures SysInv(StartWithHigh(fate, maxSize, h, n))
    ensures |Run(StartWithHigh(fate, maxSize, h, n), steps).sw.queue| <= Limit(h, n) <= h + 2 * n - 1
  {
    StartBounded(fate, maxSize, h, n);
    BoundedRun(StartWithHigh(fate, maxSize, h, n), steps, h);
    SameThreads(StartWithHigh(fate, maxSize, h, n), steps);
  }

  lemma {:induction false} SameThreads(y: Sys, steps: seq<Step>)
    requires SysInv(y)
    ensures |Run(y, steps).pcs| == |y.pcs|
    decreases |steps|
  {
    hide SysInv, State.Accepts;
    if steps != [] {
      MoveInv(y, steps[0]);
      assert |Move(y, steps[0]).pcs| == |y.pcs| by { InvOf(y); hide Inv, Next; }
      SameThreads(Move(y, steps[0]), steps[1..]);
    }
  }

  // ----- The bound is attained -----

  predicate OnlyWrites(steps: seq<Step>) {
    forall i :: 0 <= i < |steps| && steps[i].Begin? ==> steps[i].request.Write?
  }

  /** An open stream with a message in flight and q messages waiting. */
  ghost predicate Waiting(y: Sys, h: nat, q: nat) {
    && SysInv(y)
    && !y.sw.mode.closed && y.sw.mode.isSending && y.sw.closeStatus.None?
    && y.sw.high == h && |y.sw.queue| == q
  }

  lemma BeginWrite(y: Sys, t: nat, h: nat, q: nat)
    requires Waiting(y, h, q) && t < |y.pcs| && y.pcs[t].Idle?
    ensures var r := Move(y, Begin(t, Write("")));
            Waiting(r, h, q) && r.pcs == y.pcs[t := AtCheck(y.calls, "")]
  {
    hide SysInv;
    MoveInv(y, Begin(t, Write("")));
  }

  lemma CheckSize(y: Sys, t: nat, h: nat, q: nat)
    requires Waiting(y, h, q) && t < |y.pcs| && y.pcs[t].AtCheck?
    ensures var r := Move(y, Go(t));
            Waiting(r, h, q) && r.pcs == y.pcs[t := AtPush(y.pcs[t].serial, y.pcs[t].msg, q >= h)]
  {
    hide SysInv;
    MoveInv(y, Go(t));
  }

  lemma PushOne(y: Sys, t: nat, h: nat, q: nat)
    requires Waiting(y, h, q) && t < |y.pcs| && y.pcs[t].AtPush?
    ensures var r := Move(y, Go(t));
            && Waiting(r, h, q + 1)
            && r.pcs == y.pcs[t := if y.pcs[t].blocking then Spinning(y.pcs[t].serial, y.pcs[t].msg, |y.sw.accepted|) else Idle]
  {
    hide SysInv;
    MoveInv(y, Go(t));
  }

  /** A whole Write up to its push: begin, check, push. */
  lemma WholeWrite(y: Sys, t: nat, h: nat, q: nat) returns (steps: seq<Step>)
    requires Waiting(y, h, q) && t < |y.pcs| && y.pcs[t].Idle?
    ensures OnlyWrites(steps) && Waiting(Run(y, steps), h, q + 1)
    ensures var pcs := Run(y, steps).pcs;
            |pcs| == |y.pcs| && (forall u :: 0 <= u < |pcs| && u != t ==> pcs[u] == y.pcs[u]) && (q < h ==> pcs[t].Idle?)
  {
    hide SysInv, Move;
    steps := [Begin(t, Write(""))];
    assert [] + steps == steps;
    Append(y, [], steps[0]);
    BeginWrite(y, t, h, q);
    Append(y, steps, Go(t));
    CheckSize(Run(y, steps), t, h, q);
    steps := steps + [Go(t)];
    Append(y, steps, Go(t));
    PushOne(Run(y, steps), t, h, q);
    steps := steps + [Go(t)];
  }

  /** One thread fills the queue up to the high mark. */
  lemma {:induction false} FillTo(y: Sys, h: nat, q: nat, goal: nat) returns (steps: seq<Step>)
    requires Waiting(y, h, q) && q <= goal <= h && |y.pcs| >= 1 && forall u :: 0 <= u < |y.pcs| ==> y.pcs[u].Idle?
    ensures OnlyWrites(steps) && Waiting(Run(y, steps), h, goal)
    ensures |Run(y, steps).pcs| == |y.pcs| && forall u :: 0 <= u < |y.pcs| ==> Run(y, steps).pcs[u].Idle?
    decreases goal - q
  {
    hide SysInv, Move;
    if q == goal { return []; }
    var first := WholeWrite(y, 0, h, q);
    var rest := FillTo(Run(y, first), h, q + 1, goal);
    RunConcat(y, first, rest);
    steps := first + rest;
  }

  /** All threads from k on pass the check while the queue is still below the mark. */
  lemma {:induction false} AllCheck(y: Sys, h: nat, q: nat, k: nat) returns (steps: seq<Step>)
    requires Waiting(y, h, q) && q < h && k <= |y.pcs| && forall u :: k <= u < |y.pcs| ==> y.pcs[u].Idle?
    ensures OnlyWrites(steps) && Waiting(Run(y, steps), h, q)
    ensures var pcs := Run(y, steps).pcs;
            && |pcs| == |y.pcs| && (forall u :: 0 <= u < k ==> pcs[u] == y.pcs[u])
            && (forall u :: k <= u < |pcs| ==> pcs[u].AtPush? && !pcs[u].blocking)
    decreases |y.pcs| - k
  {
    hide SysInv, Move;
    if k == |y.pcs| { return []; }
    var first := [Begin(k, Write(""))];
    assert [] + first == first;
    Append(y, [], first[0]);
    BeginWrite(y, k, h, q);
    Append(y, first, Go(k));
    CheckSize(Run(y, first), k, h, q);
    first := first + [Go(k)];
    var rest := AllCheck(Run(y, first), h, q, k + 1);
    RunConcat(y, first, rest);
    steps := first + rest;
  }

  /** Then all threads from k on push. */
  lemma {:induction false} AllPush(y: Sys, h: nat, q: nat, k: nat) returns (steps: seq<Step>)
    requires Waiting(y, h, q) && k <= |y.pcs| && forall u :: k <= u < |y.pcs| ==> y.pcs[u].AtPush? && !y.pcs[u].blocking
    ensures OnlyWrites(steps) && Waiting(Run(y, steps), h, q + |y.pcs| - k)
    ensures var pcs := Run(y, steps).pcs;
            && |pcs| == |y.pcs| && (forall u :: 0 <= u < k ==> pcs[u] == y.pcs[u])
            && (forall u :: k <= u < |pcs| ==> pcs[u].Idle?)
    decreases |y.pcs| - k
  {
    hide SysInv, Move;
    if k == |y.pcs| { return []; }
    var first := [Go(k)];
    assert [] + first == first;
    Append(y, [], Go(k));
    PushOne(y, k, h, q);
    var rest := AllPush(Run(y, first), h, q + 1, k + 1);
    RunConcat(y, first, rest);
    steps := first + rest;
  }

  /** Then all threads from k on write once more, blocking. */
  lemma {:induction false} AllBlock(y: Sys, h: nat, q: nat, k: nat) returns (steps: seq<Step>)
    requires Waiting(y, h, q) && k <= |y.pcs| && forall u :: k <= u < |y.pcs| ==> y.pcs[u].Idle?
    ensures OnlyWrites(steps) && Waiting(Run(y, steps), h, q + |y.pcs| - k)
    decreases |y.pcs| - k
  {
    hide SysInv, Move;
    if k == |y.pcs| { return []; }
    var first := WholeWrite(y, k, h, q);
    var rest := AllBlock(Run(y, first), h, q + 1, k + 1);
    RunConcat(y, first, rest);
    steps := first + rest;
  }

  /** The first message of all goes straight into flight. */
  lemma FirstWrite(fate: nat -> bool, maxSize: nat, h: nat, n: nat) returns (steps: seq<Step>)
    requires fate(0) && h >= 1 && n >= 1
    ensures SysInv(StartWithHigh(fate, maxSize, h, n))
    ensures var y := Run(StartWithHigh(fate, maxSize, h, n), steps);
            && OnlyWrites(steps) && Waiting(y, h, 0)
            && |y.pcs| == n && forall u :: 0 <= u < n ==> y.pcs[u].Idle?
  {
    hide SysInv;
    StartWithHighInv(fate, maxSize, h, n);
    var y0 := StartWithHigh(fate, maxSize, h, n);
    steps := [Begin(0, Write(""))];
    assert [] + steps == steps;
    Append(y0, [], steps[0]);
    MoveInv(y0, steps[0]);
    var y1 := Move(y0, steps[0]);
    Append(y0, steps, Go(0));
    MoveInv(y1, Go(0));
    var y2 := Move(y1, Go(0));
    assert y2.pcs[0] == AtPush(0, "", false);
    steps := steps + [Go(0)];
    Append(y0, steps, Go(0));
    MoveInv(y2, Go(0));
    steps := steps + [Go(0)];
  }

  /** A spinning thread sees an empty queue, looks at closed_ and returns. */
  lemma SpinEnds(y: Sys, t: nat, h: nat)
    requires Waiting(y, h, 0) && t < |y.pcs| && y.pcs[t].Spinning?
    ensures Waiting(Run(y, [Go(t), Go(t)]), h, 0) && Run(y, [Go(t), Go(t)]).pcs == y.pcs[t := Idle]
  {
    hide SysInv, Inv;
    InvOf(y);
    MoveInv(y, Go(t));
    var y' := Move(y, Go(t));
    InvOf(y');
    MoveInv(y', Go(t));
    assert [] + [Go(t)] == [Go(t)];
    Append(y, [], Go(t));
    Append(y, [Go(t)], Go(t));
  }

  /** With H = 0 its caller blocks, sees the empty queue and returns. */
  lemma FirstBlockingWrite(fate: nat -> bool, maxSize: nat, n: nat) returns (steps: seq<Step>)
    requires fate(0) && n >= 1
    ensures SysInv(StartWithHigh(fate, maxSize, 0, n))
    ensures var y := Run(StartWithHigh(fate, maxSize, 0, n), steps);
            && OnlyWrites(steps) && Waiting(y, 0, 0)
            && |y.pcs| == n && forall u :: 0 <= u < n ==> y.pcs[u].Idle?
  {
    hide SysInv;
    StartWithHighInv(fate, maxSize, 0, n);
    var y0 := StartWithHigh(fate, maxSize, 0, n);
    steps := [Begin(0, Write(""))];
    assert [] + steps == steps;
    Append(y0, [], steps[0]);
    MoveInv(y0, steps[0]);
    var y1 := Move(y0, steps[0]);
    Append(y0, steps, Go(0));
    MoveInv(y1, Go(0));
    var y2 := Move(y1, Go(0));
    assert y2.pcs[0] == AtPush(0, "", true);
    steps := steps + [Go(0)];
    Append(y0, steps, Go(0));
    MoveInv(y2, Go(0));
    var y3 := Move(y2, Go(0));
    assert y3.pcs[0] == Spinning(0, "", 0) && Waiting(y3, 0, 0);
    steps := steps + [Go(0)];
    hide Start, Move;
    SpinEnds(y3, 0, 0);
    RunConcat(y0, steps, [Go(0), Go(0)]);
    steps := steps + [Go(0), Go(0)];
  }

  /** The limit is exact: for every H and N >= 1 some interleaving of N threads that only call Write,
      without any completion, brings the queue to it. */
  lemma BoundIsAttained(fate: nat -> bool, maxSize: nat, h: nat, n: nat)
    requires fate(0) && n >= 1
    ensures SysInv(StartWithHigh(fate, maxSize, h, n))
    ensures exists steps ::
              OnlyWrites(steps) && |Run(StartWithHigh(fate, maxSize, h, n), steps).sw.queue| == Limit(h, n)
  {
    StartWithHighInv(fate, maxSize, h, n);
    if h == 0 {
      hide SysInv, Move, StartWithHigh;
      var y0 := StartWithHigh(fate, maxSize, 0, n);
      var a := FirstBlockingWrite(fate, maxSize, n);
      var b := AllBlock(Run(y0, a), 0, 0, 0);
      RunConcat(y0, a, b);
      assert OnlyWrites(a + b);
    } else {
      var steps := FillBlocked(fate, maxSize, h, n);
    }
  }

  lemma FillBlocked(fate: nat -> bool, maxSize: nat, h: nat, n: nat) returns (steps: seq<Step>)
    requires fate(0) && h >= 1 && n >= 1
    ensures SysInv(StartWithHigh(fate, maxSize, h, n))
    ensures OnlyWrites(steps) && |Run(StartWithHigh(fate, maxSize, h, n), steps).sw.queue| == h + 2 * n - 1
  {
    hide SysInv, Move, StartWithHigh;
    var y0 := StartWithHigh(fate, maxSize, h, n);
    StartWithHighInv(fate, maxSize, h, n);
    var a := FirstWrite(fate, maxSize, h, n);
    var b := FillTo(Run(y0, a), h, 0, h - 1);
    RunConcat(y0, a, b);
    var c := AllCheck(Run(y0, a + b), h, h - 1, 0);
    RunConcat(y0, a + b, c);
    var d := AllPush(Run(y0, a + b + c), h, h - 1, 0);
    RunConcat(y0, a + b + c, d);
    var e := AllBlock(Run(y0, a + b + c + d), h, h - 1 + n, 0);
    RunConcat(y0, a + b + c + d, e);
    steps := a + b + c + d + e;
  }
}
