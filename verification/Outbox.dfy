/** The one idea behind the three writing streams: an outbox that hands messages over one at a time,
    in order, and defers a requested close until everything before it has gone out. */
module Outbox {
  /** sent includes the message in flight when busy.  An outbox that met an error is dead. */
  datatype Box =
    | Live(sent: seq<string>, waiting: seq<string>, busy: bool, asked: bool, shut: bool)
    | Dead(sent: seq<string>)

  /** ok says whether the batch that the action starts, if any, is accepted. */
  datatype Action =
    | Offer(msg: string, ok: bool)
    | Ask(ok: bool)
    | Advance(ok: bool)
    | Break
    | Skip

  const EMPTY := Live([], [], false, false, false)

  function Do(b: Box, a: Action): Box {
    if b.Dead? then b
    else match a
         case Offer(msg, ok) =>
           if b.asked then b
           else if b.busy then b.(waiting := b.waiting + [msg])
           else if ok then b.(sent := b.sent + [msg], busy := true)
           else Dead(b.sent)
         case Ask(ok) =>
           if b.asked then b
           else if b.busy then b.(asked := true)
           else if ok then b.(asked := true, shut := true)
           else Dead(b.sent)
         case Advance(ok) =>
           if !b.busy then b
           else if b.waiting != [] then
             if ok then b.(sent := b.sent + [b.waiting[0]], waiting := b.waiting[1..]) else Dead(b.sent)
           else if !b.asked then b.(busy := false)
           else if ok then b.(busy := false, shut := true)
           else Dead(b.sent)
         case Break => Dead(b.sent)
         case Skip => b
  }

  function DoAll(b: Box, acts: seq<Action>): Box
    decreases |acts|
  {
    if acts == [] then b else DoAll(Do(b, acts[0]), acts[1..])
  }

  predicate Takes(b: Box, a: Action) {
    b.Live? && a.Offer? && !b.asked && (b.busy || a.ok)
  }

  /** The messages that the outbox accepted along a run. */
  function Accepted(b: Box, acts: seq<Action>): seq<string>
    decreases |acts|
  {
    if acts == [] then []
    else (if Takes(b, acts[0]) then [acts[0].msg] else []) + Accepted(Do(b, acts[0]), acts[1..])
  }

  /** The close goes out exactly when it was asked for and nothing is in front of it. */
  predicate Orderly(b: Box) {
    b.Live? ==> (b.waiting != [] ==> b.busy) && (b.shut <==> b.asked && !b.busy)
  }

  /** The outbox has sent a prefix of what it accepted; what is missing waits in order. */
  predicate InOrder(b: Box, accepted: seq<string>) {
    if b.Live? then b.sent + b.waiting == accepted else b.sent <= accepted
  }

  lemma StepInOrder(b: Box, a: Action, accepted: seq<string>)
    requires Orderly(b) && InOrder(b, accepted)
    ensures Orderly(Do(b, a))
    ensures InOrder(Do(b, a), accepted + if Takes(b, a) then [a.msg] else [])
  {
    if b.Live? && a.Advance? && b.busy && b.waiting != [] {
      assert b.waiting == [b.waiting[0]] + b.waiting[1..];
    }
  }

  lemma {:induction false} RunInOrder(b: Box, acts: seq<Action>, accepted: seq<string>)
    requires Orderly(b) && InOrder(b, accepted)
    ensures Orderly(DoAll(b, acts))
    ensures InOrder(DoAll(b, acts), accepted + Accepted(b, acts))
    decreases |acts|
  {
    hide Orderly, InOrder, Do;
    if acts == [] {
      assert accepted + [] == accepted;
    } else {
      StepInOrder(b, acts[0], accepted);
      var more := accepted + if Takes(b, acts[0]) then [acts[0].msg] else [];
      RunInOrder(Do(b, acts[0]), acts[1..], more);
      assert more + Accepted(Do(b, acts[0]), acts[1..]) == accepted + Accepted(b, acts);
    }
  }

  /** First in, first out, with deferred close: along every run what was sent is a prefix of what was
      accepted, and once the close is out it is all of it. */
  lemma FirstInFirstOut(acts: seq<Action>)
    ensures var b := DoAll(EMPTY, acts);
            && b.sent <= Accepted(EMPTY, acts)
            && (b.Live? && b.shut ==> b.sent == Accepted(EMPTY, acts))
            && (b.Live? && b.asked && !b.busy ==> b.shut)
  {
    RunInOrder(EMPTY, acts, []);
    assert [] + Accepted(EMPTY, acts) == Accepted(EMPTY, acts);
  }
}
