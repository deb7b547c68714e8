# Verified model of the NetUtils threads TCP server

This project models, in Dafny 4.11, the parts of NetUtils whose guarantees depend on
interleaving and on an unpredictable socket, and proves what they guarantee and what they
do not.

* **The connection worker** (`Worker`, `WorkerPredicates`, `WorkerInvariants`, `WorkerSafety`,
  `WorkerReasons`, `WorkerTurns`, `GateLedger`, `Freshness`, `WorkerShutdown`, `WorkerFate`,
  `WorkerEnd`, `WriteGate`, `ReadGate`, `WorkerThreads`, `SendPath`, `LiteralWorker`). A receive thread, a send thread and any number of
  client threads share two gates, five mutexes, two condition variables, two interrupt requests
  and a socket context. A state machine takes one access to shared state at a time; a label
  chooses the thread and the answer to its system call, and a sleeping thread may wake
  spuriously. `WorkerThreads` is the same worker as objects updated in place, each method proved
  to be the machine's step.
* **Many connections** (`Connections`, `ConnectionSafety`, `CloseCalls`, `ConnectionFate`, `AcceptLoop`,
  `ServerThreads`). The accept loop, its queue, the detached workers, shared ownership of each context, the context
  destructor and the process's descriptor table. The kernel may hand out any number that is not
  open, and the rest of the process opens and closes descriptors as it likes. `ServerThreads`
  holds the contexts and workers as objects, one pair a connection, and runs them in place.
* **The echo pipeline** (`Echo`, `EchoLoop`, `EchoShutdown`, `EchoHandle`). A read thread and a write thread
  around a locked queue with a predicate wait, with partial sends and abrupt shutdown.
* **The byte layer** (`IOHelper`, `LiteralSend`, `HexDump`, over `Socket`). The exact-length
  send and receive loops, the same send loop with the `size_t` arithmetic the code really has,
  and the two hex printers.

A socket call's outcome is chosen by an adversary: it moves up to n bytes (none: the peer has
closed), would block, or fails; a call on `INVALID_FD` fails. A finite script of outcomes that
runs out before a call returns leaves the call waiting. Runs are finite schedules, and every
theorem holds for every schedule. `log` fields record what has happened; no step reads them.

What the code does not guarantee, each with a run that shows it and its exact condition:

* The send thread is not always ended by the receive thread's exit: the exit handler raises the
  gate before it interrupts, so the send thread can consume the flag, send an empty response and
  sleep again (`DoomWitness`). With clients leaving the write gate alone it can end if and only if
  the interrupt does not find it waiting at a shut gate (`SenderCanEndExactlyWhen`, `SenderFate`),
  and from any state at all the two threads can return if and only if the send thread is not at its
  gate with the flag down after the flag has been raised (`CanEndQuietlyExactlyWhen`). A client that
  enables the write event once more always opens a way (`AlwaysCanEnd`), if the send thread then
  wakes.
* The echo write thread may wait for ever after the read thread has left (`StrandedWitness`); it
  can exit if and only if it is not at its wait with an empty queue (`WriterFate`), and when it is,
  everything received has been echoed (`StrandedForEver`).
* With its `size_t` result the literal `send_bytes` returns true with nothing sent if its first
  call fails (`TrueWithNothingSent`); it agrees with the intended loop if and only if none of its
  calls returns -1 (`AgreesExactlyWhen`).
* A context is not destroyed when its connection has ended, for nothing takes it off the server's
  queue: `FinishedStillOpen` ends a connection whose cast fails (as every context of the IPv6
  server's does in this worker) and leaves its descriptor open. Without `accept()` failing first it
  can be destroyed if and only if the accept loop has stopped already (`DestructibleExactlyWhen`).
  With clients leaving its write gate alone, the send thread must besides not be waiting for a flag
  that has been raised already (`QuietlyDestructibleExactlyWhen`); a send thread interrupted at its
  shut gate keeps the context for ever, if no client enables the write event later
  (`DoomedKeepsContext`).
* A raised write gate need not lead to a transmission, for `enableWriteEvent` does not notify:
  `EnabledInVain` puts the send thread to sleep before the first enabling, and no enabling reaches
  it there (`SleepsThrough`). While the receive thread serves the connection, a raised gate can
  lead to another snapshot, unwoken, if and only if the send thread is not asleep, nor gone
  (`ServedExactlyWhenAwake`).
* Nor need a raised read gate lead to another `recv()` (`ReadGate.EnabledInVain`, `SleepsThrough`):
  it can, unwoken, if and only if the receive thread is not asleep, nor gone
  (`ReceivesExactlyWhenAwake`).
* With the `size_t` result the send thread can take a response for sent of which nothing is on the
  wire (`ResponseLost`). The literal worker does what the intended one does, step by step, if and only if
  no `send()` returns -1 (`LiteralWorker.AgreesExactlyWhen`); all that is proved of the worker holds
  of it in those runs (`ShapedIfNoneFails`).
* A live context may show a number that belongs to another connection: between `close()` and the
  assignment of `INVALID_FD` the number can be accepted again (`SharedNumber`). It happens in that
  window only, with the context's mutex held (`UniqueOwner`).

## Model

| member | source | states |
|---|---|---|
| ConnectionSafety.CloseIsolation | src/NetUtils/services/tcp/multi_threads/ThreadsTcpBroWorker.cpp:70-77 | Over every course of events of any number of connections with reused descriptor numbers, each close() call of a handler or destructor is on INVALID_FD and closes nothing, or closes the descriptor accepted for that same connection |
| ConnectionSafety.ClosedExactlyOnce | src/NetUtils/SocketContext.h:38-42 | A connection's descriptor is closed at most once, is open exactly as long as it has not been closed, and has been closed once the context is gone, whoever closed it |
| ConnectionSafety.FirstHandlerCloses | src/NetUtils/services/tcp/multi_threads/ThreadsTcpBroWorker.cpp:155-162 | As soon as one of the two exit handlers is past its assignment the descriptor has been closed exactly once and mClientFd is INVALID_FD, whichever thread left first |
| CloseCalls.CloseCallsExactly | src/NetUtils/SocketContext.h:38-42 | For every course of events, a connection's close() calls are one for each exit handler that has got past it, and one of its destructor if and only if no handler has closed the descriptor |
| ConnectionSafety.UniqueOwner | src/NetUtils/services/tcp/multi_threads/ThreadsTcpBroWorker.cpp:72-77 | A context that is not gone, whose mutex is free and whose mClientFd is not INVALID_FD, owns that open descriptor and no other; another such context shows the same number only between its own close() and its assignment, with its mutex held |
| ConnectionFate.SharedNumber | src/NetUtils/services/tcp/multi_threads/ThreadsTcpBroWorker.cpp:75-76 | A reachable state in which two live contexts show one number, the first between its close() and its assignment |
| ConnectionSafety.NoneDestroyedWhileServing | src/NetUtils/services/tcp/multi_threads/ThreadsTcpBroServer.cpp:53-67 | While run() has not returned, every accepted context is alive and referenced by the queue or by the loop about to push it |
| ConnectionSafety.FailedCastStaysOpen | src/NetUtils/services/tcp/multi_threads/ThreadsTcp6BroServer.cpp:53-67 | A context that is not an IPV4SocketContext is closed by its destructor only, so not at all while the server runs |
| ConnectionSafety.NothingLeaks | src/NetUtils/services/tcp/multi_threads/ThreadsTcpBroProcessor.cpp:9-21 | When all contexts are gone each accepted descriptor has been closed exactly once and none is open |
| ConnectionSafety.EachIsAWorker | src/NetUtils/services/tcp/multi_threads/ThreadsTcpBroProcessor.cpp:11-18 | In every course of events of the server, each connection's worker is in a state of some run of the single worker |
| ConnectionFate.RunProjects | src/NetUtils/services/tcp/multi_threads/ThreadsTcpBroProcessor.cpp:9-21 | Whatever the other connections, the loop and the rest of the process do, a connection's worker has run exactly its own steps, so every worker theorem holds of it from any point on |
| ConnectionFate.RunLifts | src/NetUtils/services/tcp/multi_threads/ThreadsTcpBroProcessor.cpp:9-21 | Conversely every run of a started worker is open to it in every state of the server, and changes no other connection |
| AcceptLoop.AcceptTurn | src/NetUtils/services/tcp/multi_threads/ThreadsTcpBroServer.cpp:16-67 | From accept() to accept(), whatever the earlier connections are doing, the loop registers the descriptor, queues the context at the back and gives it a started worker of its own |
| AcceptLoop.QueueInOrder | src/NetUtils/services/tcp/multi_threads/ThreadsTcpBroServer.cpp:56-59 | In every reachable state the queue holds the contexts pushed so far in the order in which they were accepted, all of them while the server runs |
| AcceptLoop.StopsExactlyWhen | src/NetUtils/services/tcp/multi_threads/ThreadsTcpBroServer.cpp:21-27 | Over any course of events the loop has stopped if and only if it had, or accept() has failed |
| AcceptLoop.AcceptsNoMore | src/NetUtils/services/tcp/multi_threads/ThreadsTcpBroServer.cpp:21-27 | After that no connection is accepted |
| ConnectionFate.DestructibleExactlyWhen | src/NetUtils/services/tcp/multi_threads/ThreadsTcpBroServer.cpp:53-67 | Without accept() failing first, a context that is not gone can be destroyed if and only if the accept loop has stopped already |
| ConnectionFate.QuietlyDestructibleExactlyWhen | src/NetUtils/services/tcp/multi_threads/ThreadsTcpBroProcessor.cpp:9-21 | The same with clients leaving the connection's write gate alone: if and only if the loop has stopped already, no client is at that gate, and the send thread is not waiting there with the flag down after the exit handler raised it |
| ConnectionFate.DoomedKeepsContext | src/NetUtils/services/tcp/multi_threads/ThreadsTcpBroProcessor.cpp:11-18 | A connection whose send thread was interrupted at a shut gate, with no later enabling, never finishes, and its context stays alive and referenced, also after the loop has stopped and the queue is empty |
| ConnectionFate.FinishedStillOpen | src/NetUtils/services/tcp/multi_threads/ThreadsTcpBroWorker.cpp:61-67 | A reachable state with the server accepting, a connection's threads returned after a failed cast, and its descriptor open |
| ConnectionSafety.StepFd | src/NetUtils/services/tcp/multi_threads/ThreadsTcpBroWorker.cpp:70-77 | A worker step gives its descriptor up exactly when it calls close(), and changes mClientFd to INVALID_FD only |
| ConnectionSafety.WindowIsExclusive | src/NetUtils/services/tcp/multi_threads/ThreadsTcpBroWorker.cpp:155-162 | The two handlers' close-and-assign windows exclude each other |
| ServerThreads.ThreadsTcpBroServer.WorkerMoves | src/NetUtils/services/tcp/multi_threads/ThreadsTcpBroProcessor.cpp:11-18 | An action of a connection's worker, done on that connection's context and worker objects, is the worker's step; no other object changes, and every descriptor of another owner stays open |
| ServerThreads.ThreadsTcpBroServer.Run | src/NetUtils/services/tcp/multi_threads/ThreadsTcpBroServer.cpp:14-70 | For any course of events, with every context and worker an object updated in place, the objects follow the event relation, no close() has hit another owner's descriptor, and each unlocked context object that is not gone holds INVALID_FD or the open descriptor accepted for it |
| WorkerFate.SenderFate | src/NetUtils/services/tcp/multi_threads/ThreadsTcpBroWorker.cpp:80-82 | If interrupt() finds the send thread at a shut gate, its flag was consumed or withdrawn early and without later enabling it stays there and sends nothing; otherwise, without later disabling, it is not left asleep, is never stuck, and exits within a bounded number of steps plus one per would-block |
| WorkerFate.SenderCanEndExactlyWhen | src/NetUtils/services/tcp/multi_threads/ThreadsTcpBroWorker.cpp:170-199 | With clients leaving the gate alone, the interrupted send thread has a run to its end if and only if the interrupt did not find it at a shut gate |
| WorkerFate.DoomWitness | src/NetUtils/services/tcp/multi_threads/ThreadsTcpBroWorker.cpp:78-82 | A reachable state with the receive thread finished and the send thread asleep for good, the raised flag consumed before the interrupt |
| WorkerEnd.CanEndQuietlyExactlyWhen | src/NetUtils/services/tcp/multi_threads/ThreadsTcpBroWorker.cpp:70-83 | From any reachable state, both threads have a way to return in which clients leave the write gate alone if and only if no client is at that gate and the send thread is not waiting there, flag down, after the receive thread's handler has raised the flag |
| WorkerEnd.AlwaysCanEnd | src/NetUtils/services/tcp/multi_threads/ThreadsTcpBroWorker.cpp:21-33 | From any reachable state both threads have a way to return, if a client may enable the write event |
| WorkerEnd.LostForEver | src/NetUtils/services/tcp/multi_threads/ThreadsTcpBroWorker.cpp:78-82 | A send thread back at its gate, flag down, after the handler has raised the flag stays there in every run without a later enabling, also when the interrupt is still to come |
| WriteGate.SleepsThrough | src/NetUtils/services/tcp/multi_threads/ThreadsTcpBroWorker.cpp:41-45 | In every run without a spurious wakeup and without the exit handler's notify, a sleeping send thread stays asleep, passes no gate, takes no snapshot and sends nothing, however often clients enable the write event |
| WriteGate.EnabledInVain | src/NetUtils/services/tcp/multi_threads/ThreadsTcpBroWorker.cpp:41-45 | A reachable state with the write event enabled, no client and no mutex in the way, and the send thread asleep |
| WriteGate.ServedExactlyWhenAwake | src/NetUtils/services/tcp/multi_threads/ThreadsTcpBroWorker.cpp:182-192 | With the flag up, clients leaving it alone and the receive thread not leaving, an unwoken run to another snapshot exists if and only if the send thread is not asleep, has not left, and has an IPv4 context |
| WriteGate.ReachableServing | src/NetUtils/services/tcp/multi_threads/ThreadsTcpBroWorker.cpp:72-81 | As long as neither thread is leaving, the send thread is not interrupted and the descriptors it reads and sends on are not INVALID_FD |
| ReadGate.SleepsThrough | src/NetUtils/services/tcp/multi_threads/ThreadsTcpBroWorker.cpp:35-39 | In every run without a spurious wakeup and without the send thread's last notify, a sleeping receive thread stays asleep and takes nothing of what arrives, however often clients enable the read event |
| ReadGate.EnabledInVain | src/NetUtils/services/tcp/multi_threads/ThreadsTcpBroWorker.cpp:98-99 | A reachable state with the read event enabled, no client and no mutex in the way, and the receive thread asleep |
| ReadGate.ReceivesExactlyWhenAwake | src/NetUtils/services/tcp/multi_threads/ThreadsTcpBroWorker.cpp:97-103 | With the flag up, clients leaving it alone and the send thread not leaving, an unwoken run to another recv() call exists if and only if the receive thread is not asleep, has not left, and has an IPv4 context |
| WorkerFate.ReceiverFate | src/NetUtils/services/tcp/multi_threads/ThreadsTcpBroWorker.cpp:163-167 | After the send thread's handler has raised the read flag, without later disabling, the receive thread finds its gate open at every test, is not asleep once the handler is done, and is never stuck |
| WorkerShutdown.ReceiverEnds | src/NetUtils/services/tcp/multi_threads/ThreadsTcpBroWorker.cpp:85-100 | The same from any state past the raising, and once interrupted the receive thread takes at most 20 more steps whatever recv() answers |
| WorkerShutdown.SenderEnds | src/NetUtils/services/tcp/multi_threads/ThreadsTcpBroWorker.cpp:170-199 | Interrupted anywhere but at a shut gate the send thread's remaining steps, would-blocks apart, are bounded by a rank that each of them lowers |
| WorkerShutdown.DoomedForEver | src/NetUtils/services/tcp/multi_threads/ThreadsTcpBroWorker.cpp:182-186 | Interrupted at a shut gate, with no later enabling, the send thread stays there under every schedule and the wire does not change |
| WorkerShutdown.InterruptDecides | src/NetUtils/services/tcp/multi_threads/ThreadsTcpBroWorker.cpp:80-81 | The interrupt leaves the send thread either bound to end or doomed, and doomed only if the raised flag was consumed by it or withdrawn by a client before the interrupt |
| WorkerShutdown.NotStuck | src/NetUtils/services/tcp/multi_threads/ThreadsTcpBroWorker.cpp:97-100 | A thread that has not finished can take a step, or waits for a mutex whose holder can |
| WorkerSafety.OneMutexAtATime | src/NetUtils/services/tcp/multi_threads/ThreadsTcpBroWorker.cpp:35-57 | No thread, client threads included, ever holds two of the five mutexes, on any path |
| WorkerSafety.NoDeadlock | src/NetUtils/services/tcp/multi_threads/ThreadsTcpBroWorker.cpp:70-83 | Any chain of threads blocked on one another's mutexes has one link, and its end can move; so no cycle of waiting threads is reachable |
| WorkerSafety.RequestAccumulation | src/NetUtils/services/tcp/multi_threads/ThreadsTcpBroWorker.cpp:102-138 | At every point of every run mRequest, the one chunk received and not appended, and what is not received yet are together exactly what the peer has sent, in order |
| WorkerReasons.RecvLeavesExactlyWhen | src/NetUtils/services/tcp/multi_threads/ThreadsTcpBroWorker.cpp:102-123 | Over any run of all threads, the receive thread is leaving if and only if it was, or a recv() call of it in the run was on INVALID_FD, failed or found the peer closed, or it passed its interruption point with a request pending, or its cast failed |
| WorkerReasons.SendLeavesExactlyWhen | src/NetUtils/services/tcp/multi_threads/ThreadsTcpBroWorker.cpp:173-199 | The same for the send thread and its send() calls: a would-block takes neither thread out of its loop |
| WorkerReasons.OwnDescriptor | src/NetUtils/services/tcp/multi_threads/ThreadsTcpBroWorker.cpp:103-103 | Over any run, recv() and send() are called on the descriptor accepted for the connection or on INVALID_FD, and mClientFd shows no other number |
| WorkerTurns.ReceivesAlone | src/NetUtils/services/tcp/multi_threads/ThreadsTcpBroWorker.cpp:85-139 | Left alone with its gate open, for every sequence of answers, the receive thread ends as the loop over these answers ends, with the same request, the same bytes left and the same number of steps to an answer |
| WorkerTurns.NewWorkerReceives | src/NetUtils/services/tcp/multi_threads/ThreadsTcpBroWorker.h:23-26 | A new worker does so without any client: its read gate starts open |
| WorkerTurns.SendsAlone | src/NetUtils/services/tcp/multi_threads/ThreadsTcpBroWorker.cpp:170-200 | Left alone with its gate open, for every sequence of answers, the send thread takes the current response and ends its turn as send_bytes ends, at its next turn or in its exit handler |
| WorkerTurns.LeavesAlone | src/NetUtils/services/tcp/multi_threads/ThreadsTcpBroWorker.cpp:155-168 | Left alone, either exit handler closes the descriptor and sets INVALID_FD, opens the other thread's gate, interrupts it and wakes it if it sleeps, and changes nothing else |
| WorkerSafety.TransmissionShape | src/NetUtils/services/tcp/multi_threads/ThreadsTcpBroWorker.cpp:188-199 | The wire is a concatenation of complete mResponse snapshots, the last possibly cut to a proper prefix, and cut only while it is being sent or once the thread is leaving |
| WorkerSafety.NothingAfterFailure | src/NetUtils/services/tcp/multi_threads/ThreadsTcpBroWorker.cpp:192-199 | Once the send thread is leaving, no schedule puts another byte on the wire |
| WorkerSafety.GateAccounting | src/NetUtils/services/tcp/multi_threads/ThreadsTcpBroWorker.cpp:182-190 | Gate passes plus one if the flag is up never exceed the completed enablings, and snapshots never exceed passes |
| GateLedger.WriteLedger | src/NetUtils/services/tcp/multi_threads/ThreadsTcpBroWorker.cpp:41-57 | Over every run, the enablings that found the write flag down are, one for one, passes of the gate, disablings that found it up, or the flag still standing: an enabling withdrawn is not spent |
| GateLedger.PassingsSnap | src/NetUtils/services/tcp/multi_threads/ThreadsTcpBroWorker.cpp:182-190 | Each pass of the write gate takes one snapshot, the last perhaps still to come |
| GateLedger.DisabledWriteStaysShut | src/NetUtils/services/tcp/multi_threads/ThreadsTcpBroWorker.cpp:53-57 | After a client's disbaleWriteEvent, in every run in which nobody raises the flag, the send thread does not pass its gate and takes at most the snapshot it had passed for |
| GateLedger.ReadFlagExactly | src/NetUtils/services/tcp/multi_threads/ThreadsTcpBroWorker.cpp:35-51 | Over every run the read flag stands as the last enabling or disabling left it, and passing the gate does not change it |
| GateLedger.OneCallPerPass | src/NetUtils/services/tcp/multi_threads/ThreadsTcpBroWorker.cpp:97-109 | Over every run each recv() call has its own test of the gate that found it open, and one answer: a call that would block is not repeated without passing the gate again |
| GateLedger.DisabledReadStaysShut | src/NetUtils/services/tcp/multi_threads/ThreadsTcpBroWorker.cpp:47-51 | After a client's disbaleReadEvent, in every run in which nobody opens the gate, the receive thread makes at most the one recv() call it had passed for |
| GateLedger.LogIsTrue | src/NetUtils/services/tcp/multi_threads/ThreadsTcpBroWorker.cpp:41-57 | The accounts kept beside the state are those of the run: enablings and passes are counted one for one, and an early consumption or withdrawal is noted if and only if it happened |
| WorkerSafety.SnapshotsAreWhole | src/NetUtils/services/tcp/multi_threads/ThreadsTcpBroWorker.cpp:188-190 | Although clients may rewrite mResponse piecemeal under its mutex, every snapshot is the initial empty response or one that some client asked to set, in full |
| Freshness.SnapshotsAreCurrent | src/NetUtils/services/tcp/multi_threads/ThreadsTcpBroWorker.cpp:188-190 | Over every run, the snapshots are one for one the responses that were the last completely set when they were taken, the empty one before any was |
| Freshness.ResponseStands | src/NetUtils/services/tcp/multi_threads/ThreadsTcpBroWorker.cpp:188-192 | From a completed setting of the response on, until the next is completed, every snapshot is that response |
| WorkerInvariants.StepKeepsInv | src/NetUtils/services/tcp/multi_threads/ThreadsTcpBroWorker.h:15-27 | Every step of every thread keeps the joint invariant of lock table, gates, interrupts, wire and snapshots |
| WorkerInvariants.StepKeepsLocks | src/NetUtils/services/tcp/multi_threads/ThreadsTcpBroWorker.cpp:97-100 | Every step keeps the lock table in agreement with the threads' positions |
| WorkerSafety.NoConflictingAccess | src/NetUtils/services/tcp/multi_threads/ThreadsTcpBroWorker.cpp:35-57 | In every reachable state, while a client is at the request, the response or a gate, no thread of the worker is at the same field, and no other client is |
| SendPath.TransmitsLikeSendBytes | src/NetUtils/services/tcp/multi_threads/ThreadsTcpBroWorker.cpp:192-199 | For every script and every descriptor, INVALID_FD included, the send thread's steps end as send_bytes does, with the same bytes on the wire after the same number of calls |
| LiteralWorker.TransmitsLikeLiteralLoop | src/NetUtils/services/tcp/multi_threads/ThreadsTcpBroWorker.cpp:192-199 | With the size_t result, for every script and descriptor the send thread's steps end as the literal loop does, with the same bytes on the wire after the same number of calls |
| LiteralWorker.AgreesExactlyWhen | src/NetUtils/IOHelper.cpp:29-31 | In any run of the worker with the size_t result and responses shorter than 2^63, every step is the intended worker's if and only if no send() in it returns -1 |
| LiteralWorker.ShapedIfNoneFails | src/NetUtils/services/tcp/multi_threads/ThreadsTcpBroWorker.cpp:188-199 | In such runs the state is one the intended worker reaches, and the wire has the transmission shape |
| LiteralWorker.ResponseLost | src/NetUtils/IOHelper.cpp:29-50 | A state of the worker with the size_t result in which a response counts as sent, the send thread is at its next turn, and the wire is empty: the shape fails |
| WorkerThreads.ThreadsTcpBroWorker.PassGate | src/NetUtils/services/tcp/multi_threads/ThreadsTcpBroWorker.cpp:170-186 | In place, the cast, the interruption point and the wait at a gate are the machine's gate step for either thread |
| WorkerThreads.ThreadsTcpBroWorker.Leave | src/NetUtils/services/tcp/multi_threads/ThreadsTcpBroWorker.cpp:155-168 | In place, each action of the exit handler is the machine's exit step for either thread |
| WorkerThreads.ThreadsTcpBroWorker.HandleReadEvent | src/NetUtils/services/tcp/multi_threads/ThreadsTcpBroWorker.cpp:59-142 | Each action of the receive thread is the machine's step, and waits exactly when the step cannot be taken |
| WorkerThreads.ThreadsTcpBroWorker.HandleWriteEvent | src/NetUtils/services/tcp/multi_threads/ThreadsTcpBroWorker.cpp:144-203 | Each action of the send thread is the machine's step, and waits exactly when the step cannot be taken |
| WorkerThreads.ThreadsTcpBroWorker.DoWork | src/NetUtils/services/tcp/multi_threads/ThreadsTcpBroWorker.cpp:21-33 | Under any schedule the worker follows the machine, keeps its invariant and loses no received byte |
| Echo.Conservation | src/NetUtils/services/tcp/multi_threads/IPV4ThreadsTcpServer.cpp:32-75 | At every point of every run what the peer has sent is the wire, the unsent rest of the message in flight, the queue, the chunk not pushed and what is not received, in order; so the output is a prefix of the input |
| Echo.NoLostWakeups | src/NetUtils/services/tcp/multi_threads/IPV4ThreadsTcpServer.cpp:66-70 | If the queue is non-empty and the writer sleeps with no wake pending, the reader is between its push and its notify, and the queue holds exactly one message |
| Echo.NeverPopsEmpty | src/NetUtils/services/tcp/multi_threads/IPV4ThreadsTcpServer.cpp:96-107 | Whenever the writer pops, it holds the mutex and the queue is non-empty, spurious wakeups and late notifications included |
| Echo.QuiescentCompleteness | src/NetUtils/services/tcp/multi_threads/IPV4ThreadsTcpServer.cpp:73-77 | If the reader has finished and the writer sleeps, everything received is on the wire |
| Echo.StepKeepsInv | src/NetUtils/services/tcp/multi_threads/IPV4ThreadsTcpServer.cpp:94-157 | Every step of either thread keeps mutual exclusion, no lost wakeup, the writer's shape and conservation |
| EchoLoop.ReaderLeavesExactlyWhen | src/NetUtils/services/tcp/multi_threads/IPV4ThreadsTcpServer.cpp:32-53 | Over any run, the read thread is past its loop if and only if it was, or a recv() call of it in the run was on INVALID_FD, failed or found the peer closed; would-blocks, however many, keep it there |
| EchoLoop.WriterLeavesExactlyWhen | src/NetUtils/services/tcp/multi_threads/IPV4ThreadsTcpServer.cpp:94-157 | Over any run, the write thread is leaving if and only if it was, or a send() call of it in the run was on INVALID_FD, failed or moved nothing, or one of its two tests found the descriptor closed |
| EchoLoop.ReadsAlone | src/NetUtils/services/tcp/multi_threads/IPV4ThreadsTcpServer.cpp:32-71 | Left alone, for every sequence of answers, the read thread queues a message for each that brings bytes, notifies, and ends as the loop over these answers ends |
| EchoLoop.ReaderEndsAlone | src/NetUtils/services/tcp/multi_threads/IPV4ThreadsTcpServer.cpp:73-77 | Having left its loop it sets INVALID_FD and notifies the write thread |
| EchoLoop.TransmitsLikeSendBytes | src/NetUtils/services/tcp/multi_threads/IPV4ThreadsTcpServer.cpp:109-150 | For every progress, script and descriptor, the write thread ends a message as the exact-length loop ends, with the same bytes on the wire after the same number of calls, and closes exactly if that loop fails |
| EchoLoop.TakesAlone | src/NetUtils/services/tcp/multi_threads/IPV4ThreadsTcpServer.cpp:96-107 | With a message queued and the descriptor open the write thread pops the first message; with it closed it pops none and ends; with nothing queued it sleeps |
| EchoLoop.EndsMessageAlone | src/NetUtils/services/tcp/multi_threads/IPV4ThreadsTcpServer.cpp:126-156 | After a failed sending the descriptor is INVALID_FD and the thread ends; after a message it is back at its wait, or ends if the descriptor has been closed |
| EchoLoop.NothingPoppedOnceClosed | src/NetUtils/services/tcp/multi_threads/IPV4ThreadsTcpServer.cpp:99-103 | Once the descriptor is closed and no message is being sent, no run pops or sends another |
| EchoLoop.TestsAfterLastNotify | src/NetUtils/services/tcp/multi_threads/IPV4ThreadsTcpServer.cpp:73-75 | If the write thread is found asleep after the read thread's last notification, it has tested the queue since |
| EchoShutdown.WriterFate | src/NetUtils/services/tcp/multi_threads/IPV4ThreadsTcpServer.cpp:96-103 | Once the reader has finished the writer can still exit if and only if it is not at its wait with an empty queue |
| EchoShutdown.WriterExits | src/NetUtils/services/tcp/multi_threads/IPV4ThreadsTcpServer.cpp:109-156 | Not stranded, the writer never sleeps again, always has a step, and exits within a computed number of steps plus two per would-block |
| EchoShutdown.StrandedForEver | src/NetUtils/services/tcp/multi_threads/IPV4ThreadsTcpServer.cpp:97-97 | Stranded, the writer stays at its wait under every schedule, with everything received on the wire |
| EchoShutdown.StrandedWitness | src/NetUtils/services/tcp/multi_threads/IPV4ThreadsTcpServer.cpp:73-75 | A reachable state with the reader finished and the writer asleep for good |
| EchoHandle.IPV4ThreadsClientHandle.HandleReadEvent | src/NetUtils/services/tcp/multi_threads/IPV4ThreadsTcpServer.cpp:32-77 | Each action of the read thread, in place, is the machine's step and keeps the invariant |
| EchoHandle.IPV4ThreadsClientHandle.HandleWriteEvent | src/NetUtils/services/tcp/multi_threads/IPV4ThreadsTcpServer.cpp:94-157 | Each action of the write thread, in place, is the machine's step, keeps the invariant and never pops an empty queue |
| EchoHandle.IPV4ThreadsClientHandle.Run | src/NetUtils/services/tcp/multi_threads/IPV4ThreadsTcpServer.cpp:7-16 | Under any schedule the handle follows the machine, and what it has received is what it has sent, has in flight, queued or in hand |
| IOHelper.Connection.SendBytes | src/NetUtils/IOHelper.cpp:22-61 | Done: the whole buffer is on the wire; failed or waiting: a proper prefix is; and the verdict is the loop's on that script |
| IOHelper.Connection.RecvBytes | src/NetUtils/IOHelper.cpp:63-100 | Done: the buffer's first len bytes are the next len of the stream; otherwise a proper prefix of them is, and the rest of the buffer is untouched |
| IOHelper.SendsExactlyWhen | src/NetUtils/IOHelper.cpp:26-48 | send_bytes succeeds if and only if the kernel accepts enough bytes before it reports an error or a closed peer, however it cuts them and however often it would block |
| IOHelper.ReceivesExactlyWhen | src/NetUtils/IOHelper.cpp:67-86 | recv_bytes succeeds if and only if enough bytes have arrived and are delivered before an error or a closed peer |
| IOHelper.StreamComposition | src/NetUtils/IOHelper.cpp:22-100 | For any successful sends and any successful receives under independent scripts, the received buffers are the sent stream cut at the receiver's lengths, whatever the message boundaries |
| IOHelper.Connection.SendAll | src/NetUtils/IOHelper.cpp:22-61 | Calls of send_bytes one after the other succeed exactly when the run of calls that StreamComposition is about does, with that run's bytes on the wire |
| IOHelper.Connection.RecvAll | src/NetUtils/IOHelper.cpp:63-100 | Calls of recv_bytes one after the other succeed exactly when the run of calls that StreamComposition is about does, with that run's buffers |
| LiteralSend.SendBytesLiteral | src/NetUtils/IOHelper.cpp:25-60 | The loop with a size_t result, tied to the literal loop function |
| LiteralSend.Accounting | src/NetUtils/IOHelper.cpp:26-50 | At every loop test total_send is (bytes accepted - failed calls) mod 2^64, and with no failed call the wire is the buffer's prefix |
| LiteralSend.AgreesExactlyWhen | src/NetUtils/IOHelper.cpp:29-31 | The literal loop has the signed loop's verdict, calls, wire and total if and only if no call of the signed loop returns -1 |
| LiteralSend.LiteralTrueMeans | src/NetUtils/IOHelper.cpp:26-60 | If the literal loop returns true, either len + failures bytes were accepted or one fewer than failures; exactly len bytes were accepted if and only if no call failed, or len + 1 did and len were accepted; with no failure the wire is the buffer |
| LiteralSend.TrueWithNothingSent | src/NetUtils/IOHelper.cpp:29-50 | For every non-empty buffer, a first call that returns -1 makes the literal loop return true with an empty wire |
| HexDump.HexDump | src/NetUtils/IOHelper.cpp:102-114 | The loop prints the dump of the bytes |
| HexDump.DumpHex | src/NetUtils/services/tcp/multi_threads/ThreadsClientHandle.cpp:11-22 | The signed-char printer prints the dump of the same memory read as unsigned bytes |
| HexDump.CellShape | src/NetUtils/IOHelper.cpp:108-108 | Each byte prints as 0x, two lower-case hex digits and a space |
| HexDump.Layout | src/NetUtils/IOHelper.cpp:106-111 | n bytes print as 5n + n/16 characters, byte i starts at 5i + i/16, and between cells there is a line break after every sixteenth byte and nothing else |
| HexDump.RoundTrip | src/NetUtils/IOHelper.cpp:102-114 | A reader that skips line breaks recovers every byte sequence from its dump |
| HexDump.DumpInjective | src/NetUtils/IOHelper.cpp:102-114 | Two byte sequences with the same dump are equal |

## Left out

- TransmitsLikeSendBytes: uses the signed reading of send()'s result, as the worker and echo models do; LiteralWorker has the worker in the size_t reading, and the echo pipeline is in the signed reading only.
- RecvBytes: recv()'s result is an int here; the narrowing of a count above the int maximum is not modelled (Linux caps one call below it).
- HexDump: lengths are at most the int maximum, as the loop counter is an int.
- NoDeadlock: is about mutexes; a thread blocked in a system call, or asleep on a condition variable, is the subject of the shutdown results.
- DoWork: assumes, as the code needs, that both thread handles are assigned before either thread runs, and that no client uses a worker after doWork has returned.
- SenderEnds: bounds the send thread's own steps; that a thread which can move is eventually scheduled, and that recv() and send() return, is not modelled.
- ThreadsTcpBroServer: accept() errors end the loop, and a worker object is kept after its thread has returned; the address and port of a context, and its textual form, are not part of the context.
- Reads and writes of mClientFd outside the mutex are single steps; no other meaning is given to the data race. Nothing is claimed about which descriptor a recv() or send() in progress touches after its number has been closed and reused.
- Waking a thread that is blocked inside recv() or send() by closing its descriptor, and SIGPIPE, are kernel behaviour.
- The echo handle's descriptor is followed through mClientFd only; the effect of its unlocked close() calls on the descriptor table is not modelled, nor is its failed cast, which throws.
- The real socket, bind, listen and setsockopt calls, and address conversion.
- ITcpBrokerServerEngine and TcpServer start and stop: a server that stops stays stopped, and its queue is released afterwards.
- The IPv6 echo handle, whose writer waits without a predicate.
- Trace logging inside send_bytes and recv_bytes, AsyncClient, protocol names, the programs' main functions, configuration and build files.
