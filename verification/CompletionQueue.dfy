/** The completion loop over the stream objects themselves (src/common/impl/do_next_completion.cc):
    take an event off the queue, run the tag's effect on the object behind it, delete the tag. */
module CompletionQueue {
  import opened Grpc
  import opened CompletionLoop
  import CW = ClientWriterModel
  import RW = ReaderWriterModel
  import CR = ClientReaderModel
  import SW = ServerWriterModel
  import SR = ServerReaderModel
  import CWI = ClientAsyncWriter
  import RWI = ClientAsyncReaderWriter
  import CRI = ClientAsyncReader
  import SWI = ServerWriter
  import SRI = ServerReaderChain

  /** A stream object together with the call that it uses. */
  datatype Object =
    | ClientWriterObject(cw: CWI.ClientAsyncWriterImpl)
    | ReaderWriterObject(rw: RWI.ClientAsyncReaderWriterImpl)
    | ClientReaderObject(cr: CRI.ClientAsyncReaderImpl)
    | ServerWriterObject(sw: SWI.ServerWriterImpl)
    | ServerReaderObject(sr: SRI.ServerReader, chain: GrpcCall)
  {
    ghost function Footprint(): set<object> {
      match this
      case ClientWriterObject(x) => {x, x.call}
      case ReaderWriterObject(x) => {x, x.call}
      case ClientReaderObject(x) => {x, x.call}
      case ServerWriterObject(x) => {x, x.call}
      case ServerReaderObject(x, c) => {x, c}
    }

    /** The stream that the object stands for. */
    ghost function View(): Stream
      reads Footprint()
    {
      match this
      case ClientWriterObject(x) => ClientWriter(x.Snapshot())
      case ReaderWriterObject(x) => ReaderWriter(x.Snapshot())
      case ClientReaderObject(x) => ClientReader(x.Snapshot())
      case ServerWriterObject(x) => Stream.ServerWriter(x.Snapshot())
      case ServerReaderObject(x, c) => Stream.ServerReader(x.Snapshot(c))
    }
  }

  /** A tag as the queue returns it: it shares the object whose method is its effect. */
  datatype TagPointer =
    | ClientWriterTag(cw: CWI.ClientAsyncWriterImpl, num: nat)
    | ReaderWriterTag(rw: RWI.ClientAsyncReaderWriterImpl, num: nat)
    | ClientReaderTag(cr: CRI.ClientAsyncReaderImpl, num: nat)
    | ServerWriterTag(sw: SWI.ServerWriterImpl, num: nat)
    | ServerReaderTag(sr: SRI.ServerReaderCqTag)
  {
    function Id(): nat {
      if ServerReaderTag? then sr.id else num
    }

    function Owner(): Object {
      match this
      case ClientWriterTag(x, _) => ClientWriterObject(x)
      case ReaderWriterTag(x, _) => ReaderWriterObject(x)
      case ClientReaderTag(x, _) => ClientReaderObject(x)
      case ServerWriterTag(x, _) => ServerWriterObject(x)
      case ServerReaderTag(t) => ServerReaderObject(t.reader, t.call)
    }

    /** Dispatch to the object: the queue hands the tag out, its effect runs, the loop deletes it. */
    method Complete(o: Outcome)
      requires Owner().View().Valid() && CanComplete(Owner().View(), Id(), o)
      modifies Owner().Footprint()
      ensures Owner().View() == Completed(old(Owner().View()), Id(), o)
    {
      hide Completed, Call.After, CW.Inv, RW.Inv, CR.Inv, SW.Inv, SR.Inv, CW.Deliver, RW.Deliver, CR.Deliver, SW.Deliver, SR.Deliver;
      CompletedIsDelivered(Owner().View(), Id(), o);
      match this {
        case ClientWriterTag(x, id) => x.Complete(id, o);
        case ReaderWriterTag(x, id) => x.Complete(id, o);
        case ClientReaderTag(x, id) => x.Complete(id, o);
        case ServerWriterTag(x, id) => x.Complete(id, o.success);
        case ServerReaderTag(t) => t.Complete(o);
      }
    }
  }

  /** What CompletionQueueForNext::Next returns; it waits without a deadline, so there is no timeout. */
  datatype QueueEvent = OpComplete(tag: TagPointer, outcome: Outcome) | QueueShutdown

  class CompletionQueueForNext {
    // The streams whose tags may come off this queue.
    ghost const objects: map<nat, Object>

    ghost predicate Valid()
      reads set i, x | i in objects && x in objects[i].Footprint() :: x
    {
      Disjoint() && AllValid(Views())
    }

    ghost function Views(): map<nat, Stream>
      reads set i, x | i in objects && x in objects[i].Footprint() :: x
    {
      map i | i in objects :: objects[i].View()
    }

    ghost constructor (objects: map<nat, Object>)
      ensures this.objects == objects
    {
      this.objects := objects;
    }

    ghost predicate Disjoint() {
      forall i, j :: i in objects && j in objects && i != j ==> objects[i].Footprint() !! objects[j].Footprint()
    }

    /** If only object i has changed, only its view has. */
    twostate lemma OthersUntouched(i: nat)
      requires i in objects && Disjoint()
      requires forall j, x :: j in objects && j != i && x in objects[j].Footprint() ==> unchanged(x)
      ensures Views() == old(Views())[i := objects[i].View()]
    {
      hide Object.Footprint;
      assert forall j :: j in objects && j != i ==> objects[j].View() == old(objects[j].View());
    }

    /** Returns false on shutdown.  Otherwise exactly the completed tag's effect has happened, on the
        tag's own object and no other, and the tag, which was live, has been deleted once. */
    method DoNextCompletion(ev: QueueEvent, ghost i: nat) returns (more: bool)
      requires Valid()
      requires ev.OpComplete? ==>
                 && i in objects && objects[i] == ev.tag.Owner()
                 && CanComplete(ev.tag.Owner().View(), ev.tag.Id(), ev.outcome)
      modifies if ev.OpComplete? then ev.tag.Owner().Footprint() else {}
      ensures Valid()
      ensures more == ev.OpComplete?
      ensures Views() == if ev.OpComplete? then Move(old(Views()), Step.Complete(i, ev.tag.Id(), ev.outcome))
                         else old(Views())
      ensures ev.OpComplete? ==>
                var before, after := old(Views())[i].CallOf(), Views()[i].CallOf();
                && before.freed[ev.tag.Id()] == 0
                && ev.tag.Id() !in after.pending && after.freed[ev.tag.Id()] == 1
    {
      hide Stream.Valid, Stream.CallOf, CanComplete, Completed, Object.View, TagPointer.Owner, TagPointer.Id;
      match ev {
        case OpComplete(tag, o) =>
          ghost var before := Views();
          ghost var s := before[i];
          assert s == tag.Owner().View();
          MoveValid(before, Step.Complete(i, tag.Id(), o));
          CompletedOnce(s, tag.Id(), o);
          tag.Complete(o);
          OthersUntouched(i);
          assert Views() == before[i := Completed(s, tag.Id(), o)];
          more := true;
        case QueueShutdown =>
          more := false;
      }
    }
  }
}
