# Streams of grpc_cb_core: a verified model

grpc_cb_core turns gRPC core's "one message at a time, one completion per tag" interface into
queued, callback-driven streams. This project models the stream classes that do this and the
completion loop that drives them, and proves what holds in every run of them.

## How it is organised

| file | what it holds |
|---|---|
| `Grpc.dfy` | statuses, operations, tags, and one call with its tags: who owns which tag |
| `ClientWriterModel.dfy`, `ClientAsyncWriter.dfy` | the client-streaming writer |
| `ReaderWriterModel.dfy`, `ClientAsyncReaderWriter.dfy` | the bidirectional client stream |
| `ReaderWriterEndings.dfy` | what the bidirectional stream sends, how it ends and what its callback is told, as functions of the events |
| `ReaderWriterReentry.dfy`, `ReaderWriterCallbackRuns.dfy` | callbacks of the bidirectional stream that call back into it: which calls they may make, and whole runs of them |
| `ClientReaderModel.dfy`, `ClientAsyncReader.dfy` | the server-streaming reader of the client |
| `ServerWriterModel.dfy`, `ServerWriter.dfy` | the server's stream writer |
| `ServerWriterThreads.dfy`, `ServerWriterBound.dfy` | any number of threads using one server writer; how long its queue gets |
| `ServerReaderModel.dfy`, `ServerReaderChain.dfy` | the server's read chains |
| `Outbox.dfy`, `OutboxRefinement.dfy` | the outbox that the three writing streams refine |
| `CompletionLoop.dfy`, `CompletionQueue.dfy` | the completion loop over streams of all kinds; tag ownership |
| `StreamRuns.dfy` | each stream of a program makes its own run |

Each stream class appears twice. The class (`ClientAsyncWriterImpl`, ...) has the source's fields
and methods. Every `assert` of the source about the stream's state stands in it as an `assert` or a
precondition that all callers meet; null checks of pointers have no counterpart, since the
references here are never null. Every method is proved to take the object from one abstract state to
the next. The state machine of the `...Model` module is that abstract state with its step functions;
an event is one lock-held method or one completion, and a run is any sequence of events. What the
source promises is proved about runs. An abstract state also carries history (messages accepted,
handed to gRPC, completed; callbacks made; outstanding tags), and the run lemmas tie each history to
a function of the events alone.

The environment is as hostile as gRPC allows: whether `StartBatch` accepts the k-th tag of a call is
an arbitrary function (`fate`), completions come in any order, and each carries an arbitrary success
flag, message, status and verdict of the user's message callback. A `Call` is one object's share of
a gRPC call; what two objects on one call, the reader and the writer of a server's bidirectional
method, can do to each other is a refused start or a failed completion, which are arbitrary for
each. One assumption is made: a client-streaming close that completes with an OK status has received
a response buffer (`ClientWriterModel.Possible`), because `CodRecvMsg::GetResultMsg` asserts it
(src/common/impl/call_op_data.cc:27).

## What the code does that one might not expect

- `CloseWriting` of the bidirectional stream starts the half-close itself when the queue is empty and
  never looks at `reading_ended_` (src/client/impl/client_async_reader_writer_impl.cc:58-61), while
  `OnSent` does (:109). If the server ended first, the terminal callback is never called.
  `TerminalCallbackOnce` proves that this is the only way to lose it, `LateCloseIsSilent` is a run.
- The destructor of the bidirectional stream asserts `reading_ended_` (:30). This fails for a
  healthy stream that was never read: `DestructorAssertsHoldIff`, `DestructorAssertCanFail`.
- On a bidirectional stream the half-close may be the first thing on the wire, before any initial
  metadata: `HalfCloseGoesFirst` is the run, `MetadataPrecedesCloseIff` says when. Legality of the wire
  is therefore stated for messages.
- `has_sent_close_` is assigned inside an `assert` (:211, and
  src/client/impl/client_async_writer_impl.cc:97), so it exists only where assertions are compiled in.
  The model keeps it; no branch depends on it.
- `TryToWriteNext` pops the queue after `SendMsg` even when `SendMsg` failed and emptied it
  (src/server/impl/server_writer_impl.cc:99-100 with :149). The pop is guarded in the model;
  `PopFindsEmptyQueueIff` says exactly when the source's pop meets the empty queue,
  `SecondMessageRefused` is a run, and `AcceptedAreConserved` shows that just then, and never
  otherwise, accepted messages are lost.
- The server's writer does not look at the success flag of a write completion (:138-141), so "sent"
  means "handed to gRPC" there.
- `OnClosed` of the client-streaming writer does not look at its success flag
  (src/client/impl/client_async_writer_impl.cc:128-146).
- `SyncWrite` may return false although the message was handed over: `FalseAlthoughHanded` is a run,
  `ReturnedIsHandedIff` says exactly when.
- Callbacks of the bidirectional stream run in the middle of its methods. A message callback that makes
  the stream fail lets the read go on into a failing assertion (:194 or :232), a status callback that
  reports an error must not call Write unless both halves had ended before (:38, because the ended flags
  are set after the callback), and one that reports a normal end is called again if it calls
  SetErrorStatus: `MessageCallbackIff`, `ErrorCallbackIff` and `NormalEndCallbackIff` say exactly when,
  `MessageCallbackCanBreak`, `ErrorCallbackCanFail` and `NormalEndCallbackTwice` are runs.
- A `SyncWrite` waits for the whole queue, not for its own message: the message goes out in time
  (`OwnMessageGoesOut`), but the caller spins on for as long as others keep pushing (`SpinOutlasts`).
- Nothing keeps a `ServerReader` from being started twice; two chains then read from one call and share
  the reader's functions (`EveryChainEndsOnce`).

## Model

| member | source | states |
|---|---|---|
| ReaderWriterModel.QueueMatchesTags | src/client/impl/client_async_reader_writer_impl.cc:34-148 | In every run: at most one send and one read tag are outstanding; while the status is OK the queue is non-empty exactly when one send tag, carrying the queue's front, is outstanding, and reading is started and not ended exactly when one read tag is; once the status is bad both halves have ended and the terminal callback is gone |
| ReaderWriterModel.NextInv | src/client/impl/client_async_reader_writer_impl.cc:34-245 | Every user call and every completion, whichever start fails, keeps the global invariant of the two half-streams, their tags, their wire and the callback |
| ReaderWriterModel.CompletionAsserts | src/client/impl/client_async_reader_writer_impl.cc:86-119 | The asserts at the head of OnSent and OnRead hold whenever a completion comes in |
| ReaderWriterModel.WireIsLegal | src/client/impl/client_async_reader_writer_impl.cc:44-219 | In every run each kind of metadata and the half-close is started at most once, no message is sent or received before both metadata batches, none is sent after the half-close; the messages on the wire are a prefix in order of the accepted ones, and all of them after a healthy half-close |
| ReaderWriterModel.LegalSnoc | src/client/impl/client_async_reader_writer_impl.cc:150-219 | Which batch may be appended to a legal wire |
| ReaderWriterModel.MetadataPrecedesCloseIff | src/client/impl/client_async_reader_writer_impl.cc:50-111 | In every run both kinds of initial metadata stand before the half-close on the wire if and only if Write or ReadEach was called before the first CloseWriting, whether CloseWriting or the last send completion starts the half-close |
| ReaderWriterModel.HalfCloseGoesFirst | src/client/impl/client_async_reader_writer_impl.cc:50-62 | The failing run: CloseWriting alone puts the half-close, and nothing else, on the wire |
| ReaderWriterModel.RunBooks | src/client/impl/client_async_reader_writer_impl.cc:34-148 | Over every run, the accepted messages are those of the Writes that the guards let through, and the message callback is shown exactly the decoded messages in arrival order |
| ReaderWriterModel.TerminalCallbackOnce | src/client/impl/client_async_reader_writer_impl.cc:50-245 | The terminal callback is called at most once; once reading was started, writing closed and no send or read is outstanding, it has been called exactly once if and only if it is not the case that the status is OK and CloseWriting started the half-close itself after reading had ended |
| ReaderWriterModel.StuckRun | src/client/impl/client_async_reader_writer_impl.cc:50-130 | From any valid state, a healthy run ends with both halves closed and the callback uncalled exactly when it began so or made such a late close; callbacks are never revoked and a bad status stays bad |
| ReaderWriterModel.LateCloseIsSilent | src/client/impl/client_async_reader_writer_impl.cc:50-130 | A concrete run: ReadEach, the server ends, CloseWriting; both halves have ended, nothing is outstanding, no callback was made |
| ReaderWriterModel.CloseLateIsSilent | src/client/impl/client_async_reader_writer_impl.cc:50-62 | Every such late close ends the stream without a callback |
| ReaderWriterModel.CallbackIsFinal | src/client/impl/client_async_reader_writer_impl.cc:240-245 | A terminal callback once made is neither repeated nor revoked in any continuation |
| ReaderWriterModel.CallbackTellsStatus | src/client/impl/client_async_reader_writer_impl.cc:222-245 | In every step of every run what the terminal callback is told is the status that the stream has from that step on, and by the end of the step both halves have ended; which status that is, CallbackTellsRunEnd says |
| ReaderWriterEndings.CallbackTellsRunEnd | src/client/impl/client_async_reader_writer_impl.cc:34-245 | In every run the terminal callback is told exactly this: OK if both halves ended normally, in a read completion with the end of the stream after the half-close or in the last send's completion after the end of the stream, before any error; and otherwise the first error, a refused start, a failed send or read, a garbled message, the message callback's verdict or SetErrorStatus' argument; nothing while neither has happened. The status is OK until the first error, and then that error or what SetErrorStatus set last |
| ReaderWriterEndings.StepDoes | src/client/impl/client_async_reader_writer_impl.cc:34-245 | On a healthy stream every step meets the error, starts the batches and tells the callback the end that are read off the event, the tag and the fate of the starts, and nothing else |
| ReaderWriterEndings.StepKeeps | src/client/impl/client_async_reader_writer_impl.cc:34-245 | In every step the flags and the message callback follow the events; a failed stream starts nothing and tells nothing, and only SetErrorStatus changes its status |
| ReaderWriterEndings.WireOfRun | src/client/impl/client_async_reader_writer_impl.cc:34-219 | The whole wire of every run, batch by batch in its operations, is what its events send; on a healthy stream reading has ended exactly when a read completed with the end of the stream, and writing exactly when the half-close is on the wire |
| ReaderWriterEndings.MessageCallbackIsFirst | src/client/impl/client_async_reader_writer_impl.cc:64-72 | In every run the message callback is that of the first ReadEach, if that found the stream healthy and could send the initial metadata, and otherwise none |
| ReaderWriterEndings.AcceptsIff | src/client/impl/client_async_reader_writer_impl.cc:34-48 | Write accepts a message exactly on a healthy stream that can send the initial metadata and was not closed, and answers true unless the message's own start is refused |
| ReaderWriterModel.DestructorAssertsHoldIff | src/client/impl/client_async_reader_writer_impl.cc:28-32 | In every run, with writing closed and no tag sharing the object, writing has ended, and reading has ended exactly when ReadEach was called or an error occurred |
| ReaderWriterModel.DestructorAssertCanFail | src/client/impl/client_async_reader_writer_impl.cc:28-32 | A run, CloseWriting only, at whose end the destructor's reading assertion fails |
| ReaderWriterReentry.MessageCallbackIff | src/client/impl/client_async_reader_writer_impl.cc:139-148 | From a message callback any public method may be called any number of times, and the one assertion of theirs that can fail is that on SetErrorStatus' argument (:75); the read then goes on without a failing assertion (:194, :232) if and only if no call was SetErrorStatus with an error or met a refused start; and then the stream's invariant holds again and the calls made no callback |
| ReaderWriterReentry.MessageCallbackCanBreak | src/client/impl/client_async_reader_writer_impl.cc:139-148 | The failing run: one read, a message arrives, the callback calls SetErrorStatus; the status that the read finds after it is an error |
| ReaderWriterReentry.ErrorCallbackIff | src/client/impl/client_async_reader_writer_impl.cc:228-245 | Wherever EndOnErrorStatus may be called with the callback set: calls from the callback keep every assertion if and only if SetErrorStatus is given errors only (:75) and, unless both halves had ended already, Write is not called (:38); in any case the callback is made once with the error, both halves end, and the invariant of a failed stream holds as without the calls |
| ReaderWriterReentry.ErrorCallbackCanFail | src/client/impl/client_async_reader_writer_impl.cc:113-123 | The failing run: one read, its completion fails, the status callback calls Write |
| ReaderWriterReentry.NormalEndCallbackIff | src/client/impl/client_async_reader_writer_impl.cc:240-245 | At a normal end calls from the status callback keep every assertion if and only if SetErrorStatus is given errors only, and the callback is made a second time, with the first such error, if and only if there is such a call; otherwise they change nothing |
| ReaderWriterReentry.LastSentEndsNormally | src/client/impl/client_async_reader_writer_impl.cc:107-110 | From any valid state, when the last send completion calls the status callback, that runs in the state that NormalEndCallbackIff speaks of |
| ReaderWriterReentry.ReadEndsNormally | src/client/impl/client_async_reader_writer_impl.cc:125-128 | The same for the read completion that brings the end of the stream |
| ReaderWriterReentry.NormalEndCallbackTwice | src/client/impl/client_async_reader_writer_impl.cc:125-128 | The run: one read, CloseWriting, the server ends; a status callback that calls SetErrorStatus is called with OK and again with the error |
| ReaderWriterCallbackRuns.StatusCallbacksAreLaterCalls | src/client/impl/client_async_reader_writer_impl.cc:222-245 | In every step of every valid state, with the calls of the callbacks in the place where the source makes them: if the callbacks obey those conditions, the step ends as the same step without the status callback's calls, followed by the same calls made one by one from outside; so the stream's invariant holds |
| ReaderWriterCallbackRuns.NoFurtherCallback | src/client/impl/client_async_reader_writer_impl.cc:222-245 | The status callback's calls cause no callback; at a normal end they change nothing, after an error only flags of the failed stream |
| ReaderWriterCallbackRuns.NestedInMessage | src/client/impl/client_async_reader_writer_impl.cc:139-148 | Calls that a message callback may make do what they do whatever the callbacks that they might cause would call |
| ReaderWriterCallbackRuns.NestedInError | src/client/impl/client_async_reader_writer_impl.cc:228-245 | The same from a status callback that reports an error, for any calls |
| ReaderWriterCallbackRuns.NestedInNormalEnd | src/client/impl/client_async_reader_writer_impl.cc:240-245 | The same at a normal end |
| ReaderWriterCallbackRuns.EmptyScript | src/client/impl/client_async_reader_writer_impl.cc:113-148 | With a message callback that makes no calls the step is the ordinary one |
| ReaderWriterCallbackRuns.StatusCallbackRun | src/client/impl/client_async_reader_writer_impl.cc:34-245 | Every run in which status callbacks call back and obey the conditions is an ordinary run with their calls as later steps, so that all results about ordinary runs hold of it |
| ReaderWriterCallbackRuns.ReentrantRun | src/client/impl/client_async_reader_writer_impl.cc:34-219 | In every run whose message and status callbacks call back under the conditions, queue and tags match, the wire is legal and carries a prefix of what Write accepted, writes from callbacks included |
| ReaderWriterCallbackRuns.ReentrantTerminalCallback | src/client/impl/client_async_reader_writer_impl.cc:50-245 | The terminal callback in those runs: at most once, and exactly once under the same condition as without re-entry |
| ClientAsyncReaderWriter.ClientAsyncReaderWriterImpl.constructor | src/client/impl/client_async_reader_writer_impl.cc:18-26 | Starts nothing; the object is valid |
| ClientAsyncReaderWriter.ClientAsyncReaderWriterImpl.Write | src/client/impl/client_async_reader_writer_impl.cc:34-48 | Initialises once, refuses on error or after close, otherwise queues and sends if idle; the result is true exactly when the message was accepted and, if it had to be started, its start succeeded |
| ClientAsyncReaderWriter.ClientAsyncReaderWriterImpl.CloseWriting | src/client/impl/client_async_reader_writer_impl.cc:50-62 | The new state of the first and of a repeated close; its asserts hold |
| ClientAsyncReaderWriter.ClientAsyncReaderWriterImpl.ReadEach | src/client/impl/client_async_reader_writer_impl.cc:64-72 | The first call starts the read chain, later ones change nothing |
| ClientAsyncReaderWriter.ClientAsyncReaderWriterImpl.SetErrorStatus | src/client/impl/client_async_reader_writer_impl.cc:74-84 | The first error ends both halves and makes the callback, later ones only replace the status |
| ClientAsyncReaderWriter.ClientAsyncReaderWriterImpl.Complete | src/common/impl/cqtag/general_call_cqtag.h:27-30 | From any valid object, any completion of any of its tags meets every assert of the source, keeps the object valid and leaves it as the state machine says, with the tag deleted |
| ClientAsyncReaderWriter.ClientAsyncReaderWriterImpl.Destroy | src/client/impl/client_async_reader_writer_impl.cc:28-32 | The writing assertion holds; whether the reading assertion does is returned, and it does exactly when the stream was read or failed |
| ClientAsyncReaderWriter.ClientAsyncReaderWriterImplWrapper.Destroy | src/client/impl/client_async_reader_writer_impl_wrapper.cc:23-25 | Writing is closed, nothing accepted is dropped by it, and with nothing in flight writing has ended |
| ClientWriterModel.NextInv | src/client/impl/client_async_writer_impl.cc:39-168 | Every call and completion keeps the invariant of queue, tags, wire, books and callback |
| ClientWriterModel.HalfCloseComesLastAndOnce | src/client/impl/client_async_writer_impl.cc:17-111 | In every run, in operations: initial metadata stands alone in the first batch if that start was accepted, and nowhere else; a half-close is on the wire exactly when a Close on an empty queue or the last send's completion after Close started it and the start was accepted; it stands in one batch, the last, with the receipt of metadata, response and status, and then every message ever pushed has completed successfully and is on the wire |
| ClientWriterModel.TraceShape | src/client/impl/client_async_writer_impl.cc:17-168 | A trace operation by operation: metadata first, one batch per message in order, the four operations of the half-close last |
| ClientWriterModel.StatusIsFirstError | src/client/impl/client_async_writer_impl.cc:17-168 | In every run the status is the first error met (a refused start, the constructor's included, a failed send, the received status, an unreadable response), or OK, and the close callback is told it |
| ClientWriterModel.RunBooks | src/client/impl/client_async_writer_impl.cc:39-90 | Over every run, the pushed, completed and lost messages are those of the Writes that the guards let through and of the send completions with and without success |
| ClientWriterModel.MessagesConserved | src/client/impl/client_async_writer_impl.cc:39-111 | In every run: pushed == completed + lost + queue, in order, with at most one lost |
| ClientWriterModel.GivenByFirstClose | src/client/impl/client_async_writer_impl.cc:52-56 | Only the first Close of a run takes effect and its callback is the one kept |
| ClientWriterModel.CloseCallbackOnce | src/client/impl/client_async_writer_impl.cc:52-146 | In every run the first Close's callback is pending exactly while the status is OK and one send or close tag is outstanding; otherwise it has been called exactly once, with the final status; no other close callback is ever called |
| ClientWriterModel.CallbackTellsResponse | src/client/impl/client_async_writer_impl.cc:113-146 | The close callback is told the stream's status; it gets the response exactly when the half-close completed with an OK status and a readable response, and an OK status in no other case |
| ClientWriterModel.CompletionsFindHealthyStream | src/client/impl/client_async_writer_impl.cc:67-134 | No send or close completion of any run finds the stream failed, and a send completion finds its message at the front |
| ClientWriterModel.CompletionAsserts | src/client/impl/client_async_writer_impl.cc:69-132 | The asserts of OnSent and OnClosed, and which tag is outstanding |
| ClientWriterModel.BudgetFalls | src/client/impl/client_async_writer_impl.cc:67-146 | After Close, each send or close completion lowers the measure and nothing raises it |
| ClientWriterModel.BudgetBoundsRun | src/client/impl/client_async_writer_impl.cc:67-146 | Over any run after Close the send and close completions are at most the measure |
| ClientWriterModel.DrainsAfterClose | src/client/impl/client_async_writer_impl.cc:52-146 | After Close on a healthy stream the callback has fired once queue length plus one send or close completions have come, whatever is interleaved; until it has fired one is due |
| ClientWriterModel.ReentryIsHarmless | src/client/impl/client_async_writer_impl.cc:39-56 | Any sequence of Write and Close made from inside a close callback changes nothing |
| ClientAsyncWriter.ClientAsyncWriterImpl.constructor | src/client/impl/client_async_writer_impl.cc:17-30 | Metadata is started, or the tag is deleted and the status is an error |
| ClientAsyncWriter.ClientAsyncWriterImpl.Write | src/client/impl/client_async_writer_impl.cc:39-50 | Result and new state; accepted exactly when healthy and not closing |
| ClientAsyncWriter.ClientAsyncWriterImpl.Close | src/client/impl/client_async_writer_impl.cc:52-65 | First close: callback at once on error, half-close at once on an empty queue, otherwise deferred |
| ClientAsyncWriter.ClientAsyncWriterImpl.CallCloseCb | src/client/impl/client_async_writer_impl.cc:120-125 | The callback runs once under the recursive lock, makes any calls back into the object, and the net effect is one callback made and reset |
| ClientAsyncWriter.ClientAsyncWriterImpl.Complete | src/common/impl/cqtag/general_call_cqtag.h:27-30 | Any completion of a valid object meets all asserts, keeps it valid and leaves it as the state machine says |
| ClientAsyncWriter.ClientAsyncWriterImplWrapper.Destroy | src/client/impl/client_async_writer_impl_wrapper.cc:22-24 | Closes without a callback; what was accepted stays queued with a tag in flight, or the half-close is out |
| ServerWriterModel.NextInv | src/server/impl/server_writer_impl.cc:49-152 | Every locked step keeps the invariant of flags, queue, write tag and wire |
| ServerWriterModel.WireShape | src/server/impl/server_writer_impl.cc:80-152 | Every run's wire: messages in order, then at most one status as the last batch; initial metadata in the first batch and no other; the messages are a prefix of the accepted ones, all of them if the status is out, and the status is the recorded one |
| ServerWriterModel.FramesCarry | src/server/impl/cqtag/server_writer_write_cqtag.cc:11-20 | Message batches carry exactly the messages, with or without metadata in front |
| ServerWriterModel.WireCarriesHanded | src/server/impl/server_writer_impl.cc:114-152 | The messages on the wire, read off the batches, are those handed to gRPC, in order |
| ServerWriterModel.RunBooks | src/server/impl/server_writer_impl.cc:49-90 | Accepted messages and recorded close of a run as functions of its events; closed_ is monotone |
| ServerWriterModel.StreamIsFaithful | src/server/impl/server_writer_impl.cc:49-152 | In every run, in operations: the wire carries a prefix of the accepted messages; a status is on it exactly when the stream is closed and its last start was accepted; it is the first effective close's, in the last batch and in no other, after all accepted messages, alone or after the initial metadata when no message went before |
| ServerWriterModel.AcceptedAreConserved | src/server/impl/server_writer_impl.cc:49-152 | In every run: accepted == on the wire + waiting + lost, in order, where the lost ones are those that waited when a write completion found the next start refused; a refused status or direct write loses nothing accepted |
| ServerWriterModel.StartsAreNumbered | src/server/impl/server_writer_impl.cc:114-152 | In every run the message handed over k-th was the k-th start, no start before the last was refused, and a closed stream's last start was its accepted status or was refused |
| ServerWriterModel.ClosedForGood | src/server/impl/server_writer_impl.cc:49-152 | A closed stream accepts and sends nothing more in any continuation |
| ServerWriterModel.NoLostWakeUp | src/server/impl/server_writer_impl.cc:49-112 | In every run exactly one write tag is outstanding while open and sending and none otherwise; a non-empty queue, and a recorded close that has not gone out, imply one |
| ServerWriterModel.CloseDrains | src/server/impl/server_writer_impl.cc:74-112 | From a recorded close on, the queue falls with every write completion, is empty after as many as it had messages, and stays empty |
| ServerWriterModel.CompletionIsDue | src/server/impl/server_writer_impl.cc:92-103 | While the queue is non-empty a write completion is enabled |
| ServerWriterModel.CompletionFindsOpenStream | src/server/impl/server_writer_impl.cc:92-97 | A write completion never finds the stream closed and belongs to the last message handed over |
| ServerWriterModel.PopFindsEmptyQueueIff | src/server/impl/server_writer_impl.cc:98-101 | The source pops a queue that SendMsg has emptied exactly when a write completion finds messages waiting and the first one's start is refused |
| ServerWriterModel.SecondMessageRefused | src/server/impl/server_writer_impl.cc:92-152 | The run that does it: two writes, the second start refused; the first completion pops the emptied queue and the second message, accepted, never goes out |
| ServerWriterModel.DestructorCloses | src/server/impl/server_writer_impl.cc:18-22 | With no write tag outstanding the queue is empty, and closing leaves it empty and the stream closed |
| ServerWriterModel.HighMarkIsLast | src/server/impl/server_writer_impl.cc:69-72 | In every run the high mark is the one set last, and the largest size before that |
| ServerWriterModel.MessageGoesOut | src/server/impl/server_writer_impl.cc:49-152 | From any valid state and in every run: the accepted message at place t is handed over, or the stream closed, once t + 1 - handed write completions have come in, whatever is written after it |
| ServerWriterThreads.SyncWriteTrueMeansHanded | src/server/impl/server_writer_impl.cc:38-62 | For N threads and every interleaving: a SyncWrite that returned true has its own message, accepted once and for this very call, on the wire at its place in the order of acceptance |
| ServerWriterThreads.ReturnedIsHandedIff | src/server/impl/server_writer_impl.cc:38-62 | For every interleaving and every SyncWrite that returned after its spin: its message is on the wire if and only if no start up to its own place was refused; so an answer true is always right and false is wrong exactly when no such start was refused. When the answer is true, FalseMeansClosed and LookAnswers say |
| ServerWriterThreads.FalseMeansClosed | src/server/impl/server_writer_impl.cc:38-47 | In every interleaving all answers given so far are true for as long as the stream is open; a false answer takes a close that was asked for or a refused start |
| ServerWriterThreads.LookAnswers | src/server/impl/server_writer_impl.cc:42-46 | Only a thread that has seen the empty queue answers, once, and it answers true exactly when the stream is open at that look |
| ServerWriterThreads.FalseAlthoughHanded | src/server/impl/server_writer_impl.cc:38-47 | A run in which false is wrong: another thread closes between the spin and the last look at closed_ |
| ServerWriterThreads.OwnMessageGoesOut | src/server/impl/server_writer_impl.cc:38-62 | In every interleaving of N threads the own message of a spinning SyncWrite is handed over, or the stream closed, after as many write completions as messages up to its own were waiting |
| ServerWriterThreads.SpinOutlasts | src/server/impl/server_writer_impl.cc:38-47 | For every m a run in which a SyncWrite's message goes out at once, m later messages of another thread go out one by one, and the caller, which looks at the queue after each, is still spinning |
| ServerWriterThreads.InterleavingIsRun | src/server/impl/server_writer_impl.cc:24-90 | Every interleaving of the threads' locked sections is a run of the object |
| ServerWriterThreads.RequestsAreConserved | src/server/impl/server_writer_impl.cc:24-90 | In every interleaving each call that began does to the object exactly what was requested, once, or has it still to do, and nothing but completions does anything else to it |
| ServerWriterThreads.FirstSection | src/server/impl/server_writer_impl.cc:24-90 | Which calls block after their first locked section: SyncClose always, SyncWrite if its message was accepted, Write by the size check, the asynchronous ones never |
| ServerWriterThreads.CloseReturnsOnEmpty | src/server/impl/server_writer_impl.cc:74-78 | In every interleaving a spinning SyncClose returns at its next look if and only if the queue is empty then, and the queue stays empty in every continuation |
| ServerWriterThreads.CloseWaitsNoLonger | src/server/impl/server_writer_impl.cc:74-78 | In every interleaving the queue that it waits for is empty once as many write completions came as messages were waiting |
| ServerWriterThreads.MoveInv | src/server/impl/server_writer_impl.cc:24-90 | Every step of every thread and every completion keeps what each thread knows at its program counter |
| ServerWriterThreads.HandedGrows | src/server/impl/server_writer_impl.cc:49-152 | closed_ is monotone and what was accepted or handed over stays so |
| ServerWriterBound.QueueNeverExceeds | src/server/impl/server_writer_impl.cc:24-47 | N threads that only call Write never make the queue longer than H + 2N - 1, and not longer than N if H is 0, in any interleaving |
| ServerWriterBound.BoundIsAttained | src/server/impl/server_writer_impl.cc:24-47 | For every H and N some interleaving attains that limit |
| ServerWriterBound.BoundedMove | src/server/impl/server_writer_impl.cc:24-62 | One step keeps queue length plus what the threads may still add within the limit |
| ServerWriter.ServerWriterImpl.constructor | src/server/impl/server_writer_impl.cc:13-16 | The initial object is valid |
| ServerWriter.ServerWriterImpl.AsyncWrite | src/server/impl/server_writer_impl.cc:49-62 | Result and new state; true exactly when the message was accepted |
| ServerWriter.ServerWriterImpl.AsyncClose | src/server/impl/server_writer_impl.cc:80-90 | The first close is recorded, and goes out at once if nothing is in flight |
| ServerWriter.ServerWriterImpl.Complete | src/server/impl/server_writer_impl.cc:138-141 | Any completion keeps the object valid and leaves it as the state machine says, whatever its flag |
| ServerWriter.ServerWriterImpl.SpinUntilEmpty | src/server/impl/server_writer_impl.cc:42-43 | The loop leaves the object where the interfering steps up to the first empty queue leave it |
| ServerWriter.ServerWriterImpl.SyncWrite | src/server/impl/server_writer_impl.cc:38-47 | Under any interference: false if the message was not accepted; no answer yet only while messages wait; otherwise the answer is true exactly when the stream is open at the last look, and then the message was handed over at its place |
| ServerWriter.SyncWriteIsRun | src/server/impl/server_writer_impl.cc:38-47 | The state it leaves: the push, the interference up to the first empty queue, then what comes before the last look, as a run of the object |
| ServerWriter.SpinStopsAtFirstEmpty | src/server/impl/server_writer_impl.cc:42-43 | The spin runs exactly up to the first look that finds the queue empty |
| ServerWriter.ServerWriterImpl.Write | src/server/impl/server_writer_impl.cc:24-36 | Blocks exactly when the size check saw a long queue, with any interference between check and push |
| ServerWriter.ServerWriterImpl.SyncClose | src/server/impl/server_writer_impl.cc:74-78 | Returns exactly when the queue is empty, and has returned once as many write completions came as messages were waiting |
| ServerWriter.ServerWriterImpl.Destroy | src/server/impl/server_writer_impl.cc:18-22 | Its assertion holds, it need not wait, the stream is closed with an empty queue |
| ServerWriter.ServerWriterImpl.GetQueueSize | src/server/impl/server_writer_impl.h:34-37 | A positive answer means that the stream is open and exactly one write completion is due; zero from an open stream means that everything accepted has been handed over |
| ServerWriter.ServerWriterImpl.IsClosed | src/server/impl/server_writer_impl.h:45-48 | Once true, nothing waits or is in flight and in no continuation is anything more accepted or sent; while false, nothing accepted has been lost |
| ServerWriter.ServerWriterImpl.SetHighQueueSize | src/server/impl/server_writer_impl.cc:69-72 | Only the high mark changes |
| ServerWriter.SpunOut | src/server/impl/server_writer_impl.cc:38-47 | An empty queue seen by the spin and an open stream afterwards imply that the message was handed over |
| ServerWriter.SpinKeepsClose | src/server/impl/server_writer_impl.cc:74-78 | The spin of a closer ends once as many write completions ran as messages were waiting |
| ServerWriter.WriteBatch | src/server/impl/cqtag/server_writer_write_cqtag.cc:11-20 | The last operation sends the message; in front of it the metadata on request, and nothing else |
| ServerWriter.StatusBatch | src/server/impl/cqtag/server_writer_send_status_cqtag.h:28-37 | The last operation sends the given status; in front of it the metadata on request, and nothing else |
| ClientReaderModel.NextInv | src/client/impl/client_async_reader_impl.cc:30-120 | Start and every completion keep the invariant of the chain |
| ClientReaderModel.ReaderTrace | src/client/impl/client_async_reader_impl.cc:30-120 | In every run the callbacks of the first Start see exactly the decoded messages in arrival order, then, exactly when no read or receive-status is outstanding, the run's first end: a refused start, a failed read, a garbled message, the message callback's verdict or the received status; at most one such tag is outstanding |
| ClientReaderModel.ChainStep | src/client/impl/client_async_reader_impl.cc:55-120 | Every step of the chain ends it with the status read off the event, or leaves exactly one tag outstanding: receive-status after the end of the stream, the next read otherwise |
| ClientReaderModel.ReaderWire | src/client/impl/client_async_reader_impl.cc:30-120 | The whole wire of every run in operations: request, both kinds of metadata and half-close in one batch if the first Start's start was accepted; single reads, as many as completed and are outstanding; and the receipt of the status if and only if a read completed with the end of the stream and that start was accepted |
| ClientReaderModel.RunBooks | src/client/impl/client_async_reader_impl.cc:30-85 | Decoded messages and the effective Start of a run as functions of its events |
| ClientReaderModel.EndsOkOnlyOnReceivedStatus | src/client/impl/cqtag/client_reader_async_recv_status_cqtag.h:34-41 | The chain ends with an OK status only by a successful receive-status completion that carries it |
| ClientReaderModel.ReceivedStatusEnds | src/client/impl/cqtag/client_reader_async_recv_status_cqtag.h:34-41 | A receive-status completion finds the chain not yet ended and ends it with the server's status, or an error if it failed, told once to the callback given to Start |
| ClientReaderModel.CompletionAsserts | src/client/impl/client_async_reader_impl.cc:55-58 | The asserts of OnRead hold whenever a read completes |
| ClientAsyncReader.ClientAsyncReaderImpl.Start | src/client/impl/client_async_reader_impl.cc:30-41 | The first Start sends the request and arms the first read; a refusal ends the chain |
| ClientAsyncReader.ClientAsyncReaderImpl.RunCallback | src/client/impl/client_async_reader_impl.cc:30-120 | A callback, run in the middle of OnRead, CallStatusCb, RecvStatus or the receive-status tag, may call Start any number of times with any arguments: the object is as before, whatever is mid-update, and the calling method's effect is unchanged |
| ClientAsyncReader.ClientAsyncReaderImpl.Complete | src/common/impl/cqtag/general_call_cqtag.h:27-30 | Any completion of a valid object meets all asserts, keeps it valid and leaves it as the state machine says |
| ServerReaderModel.NextInv | src/server/impl/cqtag/server_reader_cqtag.h:50-90 | Every Start and every completion keep the invariant of the chains |
| ServerReaderModel.EveryChainEndsOnce | src/server/impl/cqtag/server_reader_cqtag.h:50-90 | In every run with any number of Starts: the reader sees exactly the decoded messages in arrival order and exactly the errors (refused start, failed read, garbled message, bad verdict) in order, each followed at once by OnEnd; every chain has one read tag outstanding or has ended with one OnEnd; the chains that ended without OnError are as many as reads that completed with the end of the stream |
| ServerReaderModel.ServerReaderTrace | src/server/impl/cqtag/server_reader_cqtag.h:50-90 | The whole trace of every run with one Start: OnMsgStr for the decoded messages in order; when no tag is left, OnError with the run's one error if there was one, then OnEnd once and last; no OnError if and only if a read completed with the end of the stream; at most one read tag |
| ServerReaderModel.RunBooks | src/server/impl/cqtag/server_reader_cqtag.h:56-83 | Messages shown, errors told and ends of a run as functions of its events |
| ServerReaderModel.OnlyReads | src/server/impl/cqtag/server_reader_cqtag.h:50-54 | The whole wire of every run: single receive operations, as many as completed and are outstanding |
| ServerReaderChain.ServerReader.Start | src/server/server_reader.cc:16-26 | Any Start, the first or a later one: a chain's first tag is armed, or deleted with OnError and OnEnd; the chains stay valid |
| ServerReaderChain.ServerReaderCqTag.Complete | src/common/impl/do_next_completion.cc:18-24 | A completion keeps the chains valid and leaves them as the state machine says |
| Outbox.FirstInFirstOut | src/server/impl/server_writer_impl.cc:49-112 | In every run of the abstract outbox what was sent is a prefix of what was accepted, and all of it once the close is out; an asked close is out as soon as nothing is in flight. AllStreamsAreFirstInFirstOut carries it over to the streams |
| Outbox.RunInOrder | src/client/impl/client_async_writer_impl.cc:39-90 | The same from any orderly outbox |
| OutboxRefinement.ClientStepRefines | src/client/impl/client_async_writer_impl.cc:39-146 | Each step of the client writer, whose front stays queued while in flight, is a step of the outbox |
| OutboxRefinement.BidiStepRefines | src/client/impl/client_async_reader_writer_impl.cc:34-148 | The same for the writing half of the bidirectional stream; whatever the reading half does is nothing or a break |
| OutboxRefinement.ServerStepRefines | src/server/impl/server_writer_impl.cc:49-112 | The same for the server's writer, which pops at the start and keeps a flag; it differs in not looking at the completion's flag |
| OutboxRefinement.ClientRunRefines | src/client/impl/client_async_writer_impl.cc:39-146 | Whole runs of the client writer are runs of the outbox |
| OutboxRefinement.BidiRunRefines | src/client/impl/client_async_reader_writer_impl.cc:34-148 | Whole runs of the bidirectional stream's writing half are runs of the outbox |
| OutboxRefinement.ServerRunRefines | src/server/impl/server_writer_impl.cc:49-112 | Whole runs of the server's writer are runs of the outbox |
| OutboxRefinement.AllStreamsAreOneOutbox | src/server/impl/server_writer_impl.cc:49-152 | The messages on the wire of any run of any of the three are what the one outbox sends under the run's actions, and the messages whose write returned true are those that the outbox accepts |
| OutboxRefinement.AllStreamsAreFirstInFirstOut | src/server/impl/server_writer_impl.cc:49-152 | By the outbox alone, for all three: the wire carries a prefix, in order, of the messages whose write returned true, and all of them once the close is out on a healthy stream |
| OutboxRefinement.ClientConfirms | src/client/impl/client_async_writer_impl.cc:39-50 | What the outbox accepts along a run of the client writer is what Write answered true for |
| OutboxRefinement.BidiConfirms | src/client/impl/client_async_reader_writer_impl.cc:34-48 | The same for the bidirectional stream's Write |
| OutboxRefinement.ServerConfirms | src/server/impl/server_writer_impl.cc:49-62 | The same for AsyncWrite, whose books are those of the server writer's own runs |
| OutboxRefinement.ClientPushedButRefused | src/client/impl/client_async_writer_impl.cc:39-50 | What the client's Write queued but answered false for is at most one message, the last, and then the stream has failed |
| Grpc.LaunchIsNewStartDelete | src/client/impl/client_async_writer_impl.cc:154-167 | New tag, Start, delete if refused: the net effect, with every tag accounted for |
| Grpc.Call.Launch | src/client/impl/client_async_reader_writer_impl.cc:156-161 | Keeps every tag in exactly one place; the creator is left with nothing in hand |
| Grpc.GrpcCall.StartBatch | src/server/impl/cqtag/server_writer_write_cqtag.cc:19 | Only the holder of a tag may start it, and then no longer holds it |
| Grpc.GrpcCall.Delete | src/common/impl/do_next_completion.cc:22 | Only the holder of a tag may delete it |
| CompletionLoop.EveryTagHasOneFate | src/common/impl/do_next_completion.cc:15-35 | In every run of any number of streams of all kinds, between steps the live tags are exactly those accepted and not completed, and every other tag ever allocated has been deleted exactly once |
| CompletionLoop.DeletedForGood | src/common/impl/do_next_completion.cc:21-22 | A tag that was deleted once has, in every continuation of a run of all streams, been deleted exactly once still, and is never in the queue again |
| CompletionLoop.CompletedOnce | src/common/impl/do_next_completion.cc:18-24 | A completed tag was live and is deleted exactly once |
| CompletionLoop.ReaderAndWriterOnOneCall | src/common/impl/do_next_completion.cc:15-35 | A corollary of the two streams' own invariants: in every run of any program the tags of a reader and of a writer are a read per Start of the reader at most, one write at most, and else the writer's status |
| CompletionLoop.CompletedValid | src/common/impl/do_next_completion.cc:18-24 | A completion keeps every kind of stream valid |
| CompletionLoop.CompletedIsDelivered | src/common/impl/do_next_completion.cc:18-24 | Taking the tag, its virtual DoComplete and its deletion are each stream's own completion step |
| CompletionLoop.UsedValid | src/server/impl/server_writer_impl.cc:24-90 | A user call keeps every kind of stream valid |
| StreamRuns.StreamsRunAlone | src/common/impl/do_next_completion.cc:15-35 | In every program each stream, of whatever kind, is where its own calls and completions alone take it, whatever the others do |
| StreamRuns.ProgramRuns | src/common/impl/do_next_completion.cc:15-35 | From the moment it is opened each stream of a program makes a run of its kind from the beginning, so that all results about runs hold of it |
| CompletionLoop.ExpectedTag | src/client/impl/client_async_reader_writer_impl.cc:86-119 | What the handlers assert about a completed tag holds, for every kind of stream |
| CompletionQueue.TagPointer.Complete | src/common/impl/do_next_completion.cc:19-22 | Dispatch on the heap: the completed tag's own object makes its completion step and the tag is deleted |
| CompletionQueue.CompletionQueueForNext.DoNextCompletion | src/common/impl/do_next_completion.cc:15-35 | False exactly on shutdown; otherwise exactly the completed tag's object has made its step, all other objects are untouched, all stay valid, and the tag, live before, has been deleted once |

## Left out

- ServerWriterModel.State.TryToWriteNext: the pop after a failed send is guarded, because popping an empty queue has no defined meaning; PopFindsEmptyQueueIff says exactly when the source does it.
- ServerWriter.ServerWriterImpl.SyncWrite: the steps of others during the spin are an explicit list; with an exhausted list the caller is reported as still spinning, so the loop's termination is proved only through the completions it needs. The interleavings themselves are in ServerWriterThreads.
- ServerWriter.ServerWriterImpl.SyncClose: the same.
- ClientAsyncReaderWriter.ClientAsyncReaderWriterImpl.CallStatusCb: in the class the callbacks make no calls; calls from them are treated on the state machine, in `ReaderWriterReentry` and `ReaderWriterCallbackRuns`. What a run does after a callback has broken the stream is not followed: an assertion has failed then, or the callback has been called twice.
- CompletionQueue.CompletionQueueForNext.DoNextCompletion: the timeout event, which the source excludes by an assertion, is not an event here; `Next` waits without a deadline.
- ServerReaderChain.ServerReader.Start: all Starts of a reader are on the same call.
- Two objects on one call, a server's reader and writer, have a share of it each; the order in which their batches reach gRPC core is not recorded.
- gRPC core: channels, call creation, byte buffers, metadata contents, deadlines and completion-queue internals are foreign calls; a call is represented by which batches it accepts and what its completions carry.
- Server start-up and shutdown, including the server pointer that is posted as a tag (src/server/server.cc:85), and the re-arming of method-call tags.
- ServerReplierImpl: its check and its set of `replied_` are separate atomic operations.
- The synchronous clients and their helpers: straight-line code with a sticky status.
- The server's final status on a bidirectional stream: no receive-status operation is started there.
- CallOperations' limit on the number of operations, string_ref, public forwarding classes, time, credentials and build files: thin or easy.
- Texts of internal errors are constructors of `Cause`, user callbacks are numbers, the largest size_t is a parameter.
- The mutex itself and the memory model: each locked section is one atomic step.
- Fairness: that a completion is enabled and that the measure falls is proved, not that the environment delivers it.
