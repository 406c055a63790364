/** What the streaming classes see of gRPC core: statuses, operations, completion-queue tags, and
    one call that accepts or refuses batches.  gRPC core itself is not modelled: which batches are
    refused is an arbitrary function, and what a completion carries is an arbitrary value. */
module Grpc {
  datatype Option<+T> = None | Some(value: T)

  /** The texts of the internal errors that the stream classes report, one constructor per text. */
  datatype Cause =
    | FailedToInitClientStreaming
    | FailedToWriteClientStreaming
    | FailedToCloseClientStreaming
    | FailedToSendMessage
    | FailedToSendInitMdBidi
    | FailedToRecvInitMdBidi
    | FailedToWriteBidi
    | FailedToReadBidi
    | FailedToCloseWriting
    | ClientReaderReadCqTagFailed
    | FailedToStartAsyncReader
    | FailedToReadServerStreaming
    | FailedToReceiveStatus
    | FailedToReadRecvBuffer
    | ServerReaderCqTagFailed
    | FailedToReadClientStreaming
    | FailedToStartServerReader

  datatype Details = NoDetails | Text(text: string) | Internal(cause: Cause)

  datatype Status = Status(code: nat, details: Details) {
    predicate Ok() { code == 0 }
  }

  const OK := Status(0, NoDetails)

  // 13 is GRPC_STATUS_INTERNAL.
  function InternalError(cause: Cause): Status { Status(13, Internal(cause)) }

  datatype Op =
    | SendInitMd
    | RecvInitMd
    | SendMsg(msg: string)
    | RecvMsg
    | SendClose
    | RecvStatus
    | SendStatus(status: Status)

  type Batch = seq<Op>

  /** The tags of all stream classes.  A message tag remembers the message in flight, the async
      status tag keeps the user's callback (named by a number). */
  datatype Tag =
    | SendInitMdTag
    | RecvInitMdTag
    | SendMsgTag(msg: string)
    | ReadTag
    | SendCloseTag
    | WriterCloseTag
    | ReaderInitTag
    | RecvStatusTag(statusCb: Option<nat>)
    | ServerWriteTag(msg: string)
    | ServerStatusTag
    | ServerReadTag

  /** What a receive-message operation left in its buffer: nothing, bytes that cannot be read
      back, or a message. */
  datatype Received = EndOfStream | Garbled | Message(msg: string)

  /** Everything a completion may carry: the success flag, the received message, the received
      status, and the status that the user's message callback returns for that message. */
  datatype Outcome = Outcome(success: bool, received: Received, status: Status, verdict: Status)

  /** CodRecvMsg::GetResultMsg, called only when a buffer was received. */
  function ResultStatus(received: Received): Status {
    if received.Message? then OK else InternalError(FailedToReadRecvBuffer)
  }

  /** One stream object's share of a call: the tags it creates and the batches it starts.  The tag
      numbered k is started successfully iff fate(k).  The source's Call holds only its lock and a
      size limit (src/common/impl/call.h:25-69), so objects on one call, such as the reader and the writer
      of a server's bidirectional method, meet in gRPC core only; there anything one of them could do
      to the other is a refused batch or a failed completion, and both are arbitrary here.
      held: allocated and in the hands of its creator or of the completion loop;
      pending: accepted by StartBatch and not yet completed; freed: one entry per delete. */
  datatype Call = Call(
    fate: nat -> bool,
    next: nat,
    held: set<nat>,
    pending: map<nat, Tag>,
    freed: multiset<nat>,
    wire: seq<Batch>)
  {
    predicate WillStart() { fate(next) }

    ghost function Owners(id: nat): nat {
      (if id in held then 1 else 0) + (if id in pending then 1 else 0) + freed[id]
    }

    /** Every tag ever created is in exactly one place, and deleted at most once. */
    ghost predicate Accounted() {
      forall id: nat :: Owners(id) == if id < next then 1 else 0
    }

    /** Between two atomic steps nobody holds a tag: the live tags are the pending ones. */
    ghost predicate Settled() { Accounted() && held == {} }

    /** Since c, some tags may have been started, refused or deleted; none has been revived, and the
        tags in hand are the same. */
    ghost predicate After(c: Call) { held == c.held && c.freed <= freed && c.next <= next }

    function NewTag(): (r: Call)
      ensures Accounted() ==> r.Accounted() && next !in held
    {
      assert Accounted() ==> Owners(next) == 0;
      var r := this.(next := next + 1, held := held + {next});
      assert Accounted() ==> forall id: nat :: r.Owners(id) == if id == next then 1 else Owners(id);
      r
    }

    function Start(id: nat, tag: Tag, ops: Batch): (r: Call)
      requires id in held
      ensures Accounted() ==> r.Accounted()
    {
      assert Accounted() ==> Owners(id) == 1;
      var r := if fate(id) then this.(held := held - {id}, pending := pending[id := tag], wire := wire + [ops])
               else this;
      assert Accounted() ==> forall j: nat :: r.Owners(j) == Owners(j);
      r
    }

    function Delete(id: nat): (r: Call)
      requires id in held
      ensures Accounted() ==> r.Accounted() && id !in pending
    {
      assert Accounted() ==> Owners(id) == 1;
      var r := this.(held := held - {id}, freed := freed + multiset{id});
      assert Accounted() ==> forall j: nat :: r.Owners(j) == Owners(j);
      r
    }

    /** The completion queue hands a completed tag to the loop. */
    function Take(id: nat): (r: Call)
      requires id in pending
      ensures Accounted() ==> r.Accounted() && id !in held
    {
      assert Accounted() ==> Owners(id) == 1;
      var r := this.(held := held + {id}, pending := pending - {id});
      assert Accounted() ==> forall j: nat :: r.Owners(j) == Owners(j);
      r
    }

    /** The net effect of "new tag; Start; delete tag if it was refused". */
    function Launch(tag: Tag, ops: Batch): (r: Call)
      ensures Accounted() ==> r.Accounted() && next !in pending && next !in held
      ensures r.After(this)
    {
      assert Accounted() ==> Owners(next) == 0;
      var r := if fate(next)
               then this.(next := next + 1, pending := pending[next := tag], wire := wire + [ops])
               else this.(next := next + 1, freed := freed + multiset{next});
      assert Accounted() ==> forall j: nat :: r.Owners(j) == if j == next then 1 else Owners(j);
      r
    }
  }

  lemma LaunchIsNewStartDelete(c: Call, tag: Tag, ops: Batch)
    requires c.Accounted()
    ensures c.NewTag().held - {c.next} == c.held
    ensures var started := c.NewTag().Start(c.next, tag, ops);
            c.Launch(tag, ops) == if c.fate(c.next) then started else started.Delete(c.next)
  {
    assert c.Owners(c.next) == 0;
    assert c.held + {c.next} - {c.next} == c.held;
  }

  function NewCall(fate: nat -> bool): (c: Call)
    ensures c.Settled()
  {
    Call(fate, 0, {}, map[], multiset{}, [])
  }

  /** The messages a wire trace carries, in order. */
  function Payload(batch: Batch): seq<string> {
    if batch == [] then []
    else (if batch[0].SendMsg? then [batch[0].msg] else []) + Payload(batch[1..])
  }

  function MessagesOn(wire: seq<Batch>): seq<string> {
    if wire == [] then [] else MessagesOn(wire[..|wire| - 1]) + Payload(wire[|wire| - 1])
  }

  lemma MessagesOnSnoc(wire: seq<Batch>, batch: Batch)
    ensures MessagesOn(wire + [batch]) == MessagesOn(wire) + Payload(batch)
  {
    assert (wire + [batch])[..|wire|] == wire;
  }

  /** The environment side of a call as the stream objects use it.  The preconditions are the
      ownership rules: only the holder of a tag may start it or delete it, and after a successful
      start the creator no longer holds it. */
  class GrpcCall {
    var state: Call

    constructor (fate: nat -> bool)
      ensures state == NewCall(fate)
    {
      state := NewCall(fate);
    }

    method NewTag() returns (id: nat)
      modifies this
      ensures id == old(state.next) && state == old(state).NewTag() && id in state.held
    {
      id := state.next;
      state := state.NewTag();
    }

    method StartBatch(id: nat, tag: Tag, ops: Batch) returns (ok: bool)
      requires id in state.held
      modifies this
      ensures ok == old(state.fate)(id) && state == old(state).Start(id, tag, ops)
    {
      ok := state.fate(id);
      state := state.Start(id, tag, ops);
    }

    method Delete(id: nat)
      requires id in state.held
      modifies this
      ensures state == old(state).Delete(id)
    {
      state := state.Delete(id);
    }

    method Take(id: nat)
      requires id in state.pending
      modifies this
      ensures state == old(state).Take(id)
    {
      state := state.Take(id);
    }
  }
}
