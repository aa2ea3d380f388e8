# A verified model of the task system

The repository is a small distributed task system in C++. Clients send tasks to a server, the
server hands them to workers with enough free cores, and workers compute determinants and matrix
products. All of it talks over STIP, a message protocol on top of UDP. This project models three
parts of it in Dafny and proves what they promise.

**STIP message transfer** (`Stip*.dfy`). A message is announced with INIT, sent in parts, and asked
after until the receiver reports that everything arrived; a RESEND answer lists what is missing. The
two sides count the parts with different formulas. `StipSessions` and `StipRouting` give every
branch of the sessions and of the packet thread as a function, `StipClasses` and `StipConnection`
have the objects that update their fields in place, proved against those functions, and
`StipSystem` joins two peers, each sending any number of messages at once, by a network that loses,
duplicates and reorders packets. `StipArrivals` says what one session makes of any series of events,
`StipTheorems`, `StipRounds` and `StipExpiries` hold over every run of the two peers,
`StipInvitation`, `StipApproval` and `StipVerdicts` are about the sender's two loops, and
`StipScenarios` and `StipRoundScenarios` build the runs that show where the promises end.

**The worker's integer kernels** (`Determinants`, `Euclid`, `Elimination`, `Products`, `CellThreads`,
`WorkerHandlers`). `Determinants` defines the determinant by cofactor expansion and proves the laws
of rows; `Elimination` is the worker's in-place algorithm, proved to return that determinant.
`Products` defines the matrix product and proves the laws that fix it, among them that determinants
multiply. `CellThreads` lets the scheduler interleave the handlers' threads in any way.

**The task scheduler** (`Scheduler*.dfy`). `SchedulerTables` gives the handlers as functions of the
server's tables, `SchedulerServices` has the service and server objects, proved against them, and
`SchedulerSystem` runs all connection and task threads together, their handlers interleaved freely.
`SchedulerTheorems` holds over every run; `SchedulerScenarios` builds runs that reach the bounds.

## Findings

- The server gives a worker more than its cores. `checkTaskQueue` compares a pending task with the
  copy of the worker that the connection thread made at registration, and that copy is never updated.
  `OverloadExactly` names the steps that overload a worker and no others do; `LoadBound` gives the
  bound that does hold, n(n + 1) used cores for n cores, and `BoundReached` a run that reaches it for
  every n.
- `sendMessage` of an empty message can return true although the peer is never handed it: an empty
  message has no part for the receiver to wait for, and only the branch for data parts dispatches.
  By `UnseenExactlyWhenEmpty` this happens for messages of size zero modulo 2^32 and no others;
  `NonEmptyDelivered` is a run that acknowledges and delivers any other message. The empty message is
  handed out exactly when its one part, which is empty and not waited for, arrives after a question
  (`EmptyDispatchedExactly`).
- Above 16363 * 65455 bytes the list of missing parts may not fit a packet. By
  `FaultsExactlyWhenLarge` that is the only way either side leaves a buffer.
- A confirmation of INIT counts only if it is the last answer after `initSend` has reset the status,
  in a try that does not expire (`AcceptedExactly`). One that arrives earlier is lost
  (`EarlyAnswersAreLost`), and as the peer confirms a session once and never answers a repeated INIT
  (`ConfirmedOnce`), `sendMessage` can then give up although the peer holds the session: for every
  message there is such a run (`EarlyConfirmationLost`).
- A RESEND gives the try back to the approval loop. Its six tries bound its rounds exactly for
  messages of size zero modulo 2^32 (`TriesBoundExactlyWhenEmpty`); for any other there are runs with
  any number of rounds on the first try (`ApprovalUnbounded`). If a part is newly received between any
  two RESENDs acted on, however old those RESENDs are, there are at most as many rounds as tries and
  parts, and one more, where no more parts count than one RESEND can list (`ApprovalTerminates`); for
  every message there is a run that takes exactly that many (`RoundsReached`).
- A task without an id is stored under a made-up one, but its thread keeps the empty id. The thread
  throws exactly when a worker is free for the task, and otherwise queues it (`EmptyIdThrows`); the
  look at the queue that takes it then throws in a worker's thread, with the task gone and its cores
  booked (`EmptyIdInQueueThrows`).
- A task sent to a worker can still be finished exactly when that worker is connected and the request
  or its answer is not lost (`ReadyExactlyWhenAnswerable`). Otherwise it stays as it is for the rest
  of the run (`StrandedForever`), and by `CoreConservation` so do its cores on a worker that is still
  there. Both causes occur (`LeftBehind`, `RequestLost`).

The header documents `waitApproval` as returning status 5 (src/protocol/Session.h:169-174); the code
returns whichever status ended the wait, and the model follows the code.

## Assumptions

STIP: a packet on the network was produced by the peer's own code, so its size field is the header
plus its data; a side does not use one session id for two of its own messages on a connection; the
bytes `malloc` returns are a parameter. Message sizes are arbitrary: the sender's 32-bit truncation is
modelled (`U32`), and theorems about delivery speak of the bytes it keeps. A packet once sent may be
delivered late, many times or never.

Kernels: `int` is a mathematical integer, that is, no intermediate value overflows. Division rounds
toward zero, as in C++.

Scheduler: tasks arrive with ids that are not empty and not in use and ask for at least one core;
workers register under ids that are not empty and were never used, with no used cores; a worker
answers only requests it was sent, each at most once; a handler runs as one step, except that a
worker's thread looks at the queue in a step of its own. Messages on the wire may be lost and
connections may end at any receive. What a worker computes is not part of the scheduler's model.

## Model

| member | source | states |
|---|---|---|
| `StipPackets.ValueOfLittleEndian` | src/protocol/Session.cpp:98 | The size stored in an INIT packet is the size read from it. |
| `StipPackets.LowBytesFirst` | src/protocol/Session.cpp:98 | The size is stored least significant byte first, and what it does not need is zero. |
| `StipPackets.IndexAtEncoded` | src/protocol/Session.cpp:246 | Reading the i-th 32-bit index of a packed array gives the i-th index packed, and it lies at the i-th place. |
| `StipPackets.CountsDiffer` | src/protocol/Session.h:127 | The sender counts one part more than the receiver exactly when the size is a multiple of the part size, and that part is empty. |
| `StipPackets.PartInside` | src/protocol/Session.cpp:166-167 | A part lies inside the message exactly when its index is below the sender's count, and then its 32-bit offset does not wrap. |
| `StipPackets.PartsTile` | src/protocol/Session.cpp:302-303 | Buffers of one size that agree on every part the receiver waits for are equal. |
| `StipPackets.WritePartSlices` | src/protocol/Session.cpp:302-303 | Copying a part into the buffer sets that part's slice and leaves every other slice as it was. |
| `StipSessions.CountFalseShrinks` | src/protocol/Session.cpp:354-356 | With no mark taken back, the count of missing parts falls exactly when a mark is new. |
| `StipSessions.MissingIsExact` | src/protocol/Session.cpp:335-342 | The RESEND list is strictly increasing, holds exactly the unmarked indices, and is as long as the count says. |
| `StipSessions.ResendPacketRoundTrip` | src/protocol/Session.cpp:328-343 | The sender reads from a RESEND packet exactly the list the receiver wrote. |
| `StipClasses.SendMessageSession.constructor` | src/protocol/Session.h:117-128 | A new sender truncates the size to 32 bits, counts its parts from that, and is in its initial status. |
| `StipClasses.SendMessageSession.SendPart` | src/protocol/Session.cpp:160-171 | The packet sent carries the session's id, the index and exactly that part of the message. |
| `StipClasses.SendMessageSession.DoResend` | src/protocol/Session.cpp:240-249 | The parts listed are sent, in the order listed. |
| `StipClasses.SendMessageSession.ProcessIncomingPacket` | src/protocol/Session.cpp:54-90 | Each answer sets its status, RESEND also sends the parts it lists, and other packets change nothing. |
| `StipClasses.SendMessageSession.InitSend` | src/protocol/Session.cpp:92-111 | INIT announces the sender's part count and the size, the status is reset after it is sent, and success is what the status says when the wait is over. |
| `StipClasses.SendMessageSession.InitSendWrappedTimeout` | src/protocol/Session.cpp:113-149 | Against any sequence of arrivals and timeouts the loop ends as the function `Invite` says, after as many tries, having sent the same packets. |
| `StipClasses.SendMessageSession.SendData` | src/protocol/Session.cpp:151-158 | Every part is sent once, in order, after the status is set. |
| `StipClasses.SendMessageSession.WaitApproval` | src/protocol/Session.cpp:173-184 | The status that ended the wait is returned, and a RESEND is consumed. |
| `StipClasses.SendMessageSession.WaitApprovalWrappedTimeout` | src/protocol/Session.cpp:186-233 | Against any sequence of arrivals and timeouts the loop ends as the function `Approval` says, in as many rounds, having sent the same packets. |
| `StipClasses.ReceiveMessageSession.constructor` | src/protocol/Session.h:209-220 | A new receiver has the announced count of unmarked parts and a buffer of the announced size. |
| `StipClasses.ReceiveMessageSession.CountUnreceivedParts` | src/protocol/Session.cpp:354-356 | The number of unmarked parts. |
| `StipClasses.ReceiveMessageSession.ListUnreceivedParts` | src/protocol/Session.cpp:335-342 | The loop collects exactly the unmarked indices in increasing order. |
| `StipClasses.ReceiveMessageSession.CopyPart` | src/protocol/Session.cpp:302-303 | The payload lands at its part's offset, computed in 32-bit arithmetic, and no other byte changes. |
| `StipClasses.ReceiveMessageSession.ProcessIncomingPacket` | src/protocol/Session.cpp:274-348 | INIT resizes once and is always confirmed, a new part is copied and marked, a known or out-of-range part is ignored, and the question is answered ALL_RECEIVED or with the list. |
| `StipConnection.SessionManager.AddReceiving` | src/protocol/Session.cpp:376-383 | Adding fails exactly when the id is taken, and then changes nothing. |
| `StipConnection.SessionManager.AddSending` | src/protocol/Session.cpp:376-383 | Adding fails exactly when the id is taken, and then changes nothing. |
| `StipConnection.SessionManager.DeleteSession` | src/protocol/Session.cpp:394-401 | The id is free afterwards and no other session is touched. |
| `StipConnection.Connection.SettlePart` | src/protocol/Connection.cpp:245-255 | A finished session is pushed on the message queue unless it was pushed before. |
| `StipConnection.Connection.ProcessInit` | src/protocol/Connection.cpp:201-235 | An INIT with a new id creates a session that confirms it; one with a known id is ignored. |
| `StipConnection.Connection.ProcessPart` | src/protocol/Connection.cpp:237-256 | A data part goes to the receive session of its id, which is dispatched once when complete. |
| `StipConnection.Connection.ProcessOther` | src/protocol/Connection.cpp:274-282 | Any other packet goes to the session of its id, of either kind. |
| `StipConnection.Connection.ProcessPacket` | src/protocol/Connection.cpp:182-288 | One turn of the packet thread over objects and buffers does what `ConnStep` does to their values. |
| `StipConnection.Connection.ReceiveMessage` | src/protocol/Connection.cpp:167-179 | The oldest dispatched session is handed out and leaves the queue; without one the result is null and nothing changes. |
| `StipRouting.OtherIdUndisturbed` | src/protocol/Connection.cpp:274-282 | An event with another id leaves a session as it was. |
| `StipRouting.SessionIsolation` | src/protocol/Connection.cpp:201-282 | What becomes of a session, all it sends and how often it is dispatched depend only on the events that carry its id. |
| `StipArrivals.ConfirmedOnce` | src/protocol/Connection.cpp:201-220 | Over any events, genuine or not, INIT of a session is confirmed once if it becomes a receive session in them, and never otherwise: a session already held is never confirmed again. |
| `StipArrivals.ConfirmedExactlyWhenAnnounced` | src/protocol/Connection.cpp:201-220 | Unless this side sends under the same id, a session becomes a receive session exactly when some INIT of it arrives. |
| `StipArrivals.InitTwice` | src/protocol/Session.cpp:277-294 | At the session itself a second INIT changes nothing, whatever it announces, and is confirmed again. |
| `StipArrivals.InitKeepsMarks` | src/protocol/Session.cpp:283-286 | INIT takes no mark back, whatever count was announced before it. |
| `StipArrivals.AnswersOnlyItsOwn` | src/protocol/Session.cpp:278-317 | A session answers under its own id and only what names it; a data part it takes whatever id it names. |
| `StipArrivals.MarkedExactly` | src/protocol/Session.cpp:295-304 | Over any events a part of a session is marked afterwards exactly when it was before or has arrived. |
| `StipArrivals.FirstCopyStays` | src/protocol/Session.cpp:299-303 | The first copy of a part is the one kept; another, whatever it holds, leaves the buffer. |
| `StipArrivals.QuestionAnswered` | src/protocol/Session.cpp:315-346 | A question gets one answer: ALL_RECEIVED exactly when every part is marked, else the list of exactly the parts that are not. |
| `StipArrivals.EmptyIsPartless` | src/protocol/Session.cpp:283-287 | An INIT makes a session that waits for no part exactly when it announces size zero; the session is not dispatched by it. |
| `StipArrivals.EmptyDispatchedExactly` | src/protocol/Connection.cpp:237-256 | Over any events an empty message is handed out, once, exactly when a data part of it arrives after a question of it. |
| `StipInvariant.PartKeepsReceiver` | src/protocol/Session.cpp:295-313 | Every marked part of the buffer stays the sender's part, including when the sender's extra empty part arrives. |
| `StipInvariant.CompleteIsMessage` | src/protocol/Session.cpp:306-308 | With no part unmarked the buffer is the message. |
| `StipInvariant.Invariant` | src/protocol/Connection.cpp:182-288 | In every run, every packet, session, queue and result on both sides is as the protocol means it to be. |
| `StipTheorems.EndToEnd` | src/protocol/Connection.cpp:98-160 | If `sendMessage` of a message that is not empty returned true, the peer has dispatched a session, of status 5, whose `getData` is the sent bytes and size; exactly so below 2^32 bytes. |
| `StipTheorems.ReceivedIsSent` | src/protocol/Connection.cpp:237-256 | Every session dispatched is one the peer opened, complete and true to its message, and is on the record once. |
| `StipTheorems.DeliveredIsFrozen` | src/protocol/Connection.cpp:245-255 | After its dispatch no later step of the run changes a session's size, buffer or marks, or dispatches it again. |
| `StipTheorems.NoFault` | src/protocol/Session.cpp:331-343 | While no message exceeds 16363 * 65455 bytes, no step reads or writes outside a buffer: asked-for parts exist, copies are in range, lists fit. |
| `StipTheorems.ResendRoundIsExact` | src/protocol/Session.cpp:327-344 | A RESEND asks for every missing part once, in increasing order, and for nothing the sender cannot serve. |
| `StipTheorems.ResendRoundSuffices` | src/protocol/Session.cpp:240-249 | If what the sender resends arrives, in any order, repeated and mixed with other traffic, the session is complete, and the next question is answered ALL_RECEIVED and leaves it in status 5. |
| `StipTheorems.LaterListIsShorter` | src/protocol/Session.cpp:315-346 | Between two questions the list never grows, and it shrinks exactly when a part was newly received. |
| `StipScenarios.FaultsExactlyWhenLarge` | src/protocol/Session.cpp:331-343 | A message can drive a peer outside a buffer exactly when its 32-bit size exceeds 16363 * 65455. |
| `StipScenarios.UnseenExactlyWhenEmpty` | src/protocol/Session.cpp:320-326 | An acknowledged message can go unseen by the peer exactly when its 32-bit size is zero. |
| `StipScenarios.NonEmptyDelivered` | src/protocol/Connection.cpp:98-160 | For every message that is not empty there is a run in which `sendMessage` returns true and the peer has dispatched the session. |
| `StipInvitation.AcceptedExactly` | src/protocol/Session.cpp:113-149 | The loop accepts exactly when, every earlier try having expired, a try does not expire and its last answer after the reset confirms; it is refused likewise. |
| `StipInvitation.EarlyAnswersAreLost` | src/protocol/Session.cpp:101-105 | What arrives between sending INIT and resetting the status has no say in how the loop ends. |
| `StipInvitation.TriesBounded` | src/protocol/Session.cpp:118-148 | The loop makes at most its tries, and gives up exactly when every one of them expired. |
| `StipInvitation.InitLoopIsThread` | src/protocol/Connection.cpp:108-114 | With three tries the loop has the same outcome, status and packets as the sending thread of the step system. |
| `StipScenarios.EarlyConfirmationLost` | src/protocol/Session.cpp:101-105 | For every message there is a run in which the peer confirms, the confirmation arrives before the reset, and `sendMessage` gives up while the peer holds the session. |
| `StipVerdicts.ApprovedExactly` | src/protocol/Session.cpp:186-223 | The loop says yes exactly when some round that it reaches does not expire and the last answer heard by then, even in an earlier round that expired, is ALL_RECEIVED; it never says no. |
| `StipVerdicts.OutOfTriesExactly` | src/protocol/Session.cpp:189-231 | It runs out of tries exactly when as many waits expire as it has tries, every other round before that ending with a RESEND. |
| `StipVerdicts.AsksOnceARound` | src/protocol/Session.cpp:194-197 | The questions sent are the rounds counted, and the one it may still wait in. |
| `StipVerdicts.AnnouncesOnceATry` | src/protocol/Session.cpp:118-148 | The INITs sent are the tries counted, and the one it may still wait in. |
| `StipVerdicts.DataPhaseIsThread` | src/protocol/Session.cpp:151-158 | Between INIT and the first question the sending thread of the step system sends every part once, in order, as `sendData` does. |
| `StipExpiries.FalseExactlyWhenExpired` | src/protocol/Connection.cpp:108-153 | In every run `sendMessage` has returned false exactly when three waits for the answer to INIT expired, before any question, or else six waits for the answer to a question. |
| `StipApproval.RoundsAreTriesAndResends` | src/protocol/Session.cpp:186-233 | Against any arrivals the loop takes at most one round for each try and each RESEND acted on, and fewer while it still waits. |
| `StipRounds.RoundsAreTriesAndResends` | src/protocol/Session.cpp:189-227 | In every run a session's rounds are at most its tries and the RESENDs acted on. |
| `StipRounds.ApprovalTerminates` | src/protocol/Session.cpp:186-233 | In every run where the peer newly receives a part between any two RESENDs acted on, a session has at most as many rounds as it has tries and the receiver has parts that a RESEND can list, and one more; none more than the tries when the message is empty. |
| `StipRounds.EmptyNeedsOnlyTries` | src/protocol/Session.cpp:320-326 | In every run a session with an empty message has at most as many rounds as it has tries. |
| `StipRoundScenarios.ApprovalUnbounded` | src/protocol/Session.cpp:224-225 | For every message that is not empty and every n there is a run of the two peers with n rounds and the thread still on its first try. |
| `StipRoundScenarios.TriesBoundExactlyWhenEmpty` | src/protocol/Session.cpp:189-225 | Some run takes more rounds for a message than it has tries exactly when the message's 32-bit size is not zero. |
| `StipRoundScenarios.RoundsReached` | src/protocol/Session.cpp:186-233 | For every message there is a run with a part newly received between any two RESENDs that takes exactly the most rounds `ApprovalTerminates` allows. |
| `StipApproval.LoopIsThread` | src/protocol/Connection.cpp:141-149 | With six tries the loop has the same outcome, status and packets as the sending thread of the step system. |
| `Determinants.SwapNegates` | src/rabbitCore/worker/RabbitWorker.cpp:140-141 | Exchanging two rows changes the sign of the determinant. |
| `Determinants.RowLinear` | src/rabbitCore/worker/RabbitWorker.cpp:137-139 | The determinant is linear in each row. |
| `Determinants.AddRowMultiple` | src/rabbitCore/worker/RabbitWorker.cpp:136-139 | Adding a multiple of another row keeps the determinant. |
| `Determinants.TriangularProduct` | src/rabbitCore/worker/RabbitWorker.cpp:144 | The determinant of a triangular matrix is the product of its diagonal. |
| `Euclid.RemainderShrinks` | src/rabbitCore/worker/RabbitWorker.cpp:135-138 | Under truncating division the remainder is smaller than the divisor, and less than half of a dividend at least as large. |
| `Euclid.FloorLog2IsFloor` | src/rabbitCore/worker/RabbitWorker.cpp:135 | The logarithm used in the bound is the floor of the base-2 logarithm. |
| `Euclid.StepsLogarithmic` | src/rabbitCore/worker/RabbitWorker.cpp:135-142 | The loop from a divisor b that is not zero runs at most 2 * floor(log2 abs(b)) + 2 times. |
| `Euclid.StepKeepsDivisors` | src/rabbitCore/worker/RabbitWorker.cpp:136-140 | One round keeps the common divisors of the pair of entries. |
| `Elimination.SubtractRow` | src/rabbitCore/worker/RabbitWorker.cpp:137-139 | Updating only the columns from i on is the full row operation, because the columns to the left are already zero. |
| `Elimination.EuclidRound` | src/rabbitCore/worker/RabbitWorker.cpp:136-141 | One round negates the determinant and takes the pair of entries to divisor and remainder. |
| `Elimination.ClearEntry` | src/rabbitCore/worker/RabbitWorker.cpp:135-142 | The loop ends with the entry zero, the sign accounted for, the common divisors in the pivot, and at most the logarithmic number of rounds. |
| `Elimination.ClearColumn` | src/rabbitCore/worker/RabbitWorker.cpp:134-143 | After the stage the column is zero below the pivot, earlier columns stay zero, and the pivot is a gcd of the column's entries from row i down. |
| `Elimination.StageKeepsFactor` | src/rabbitCore/worker/RabbitWorker.cpp:144 | The running factor stays the product of the finished pivots, negated exactly when the matrix has changed sign. |
| `Elimination.Determinant` | src/rabbitCore/worker/RabbitWorker.cpp:129-149 | For every square integer matrix the result is its mathematical determinant. |
| `Products.UnitRowPicks` | src/rabbitCore/worker/RabbitWorker.cpp:151-158 | A row of the left matrix that is 1 at one place and 0 elsewhere picks that row of the right one. |
| `Products.EntryLinear` | src/rabbitCore/worker/RabbitWorker.cpp:151-158 | An entry of the product is linear in its row of the left matrix. |
| `Products.ProductOfDeterminants` | src/rabbitCore/worker/RabbitWorker.cpp:129-158 | For square matrices what the product handler computes has as determinant the product of what the determinant handler computes. |
| `CellThreads.EverySchedule` | src/rabbitCore/worker/RabbitWorker.cpp:244-254 | In every schedule each cell has one thread, at most the given number of threads live, and all are joined with every cell finished when the result is read. |
| `CellThreads.SchedulesFinish` | src/rabbitCore/worker/RabbitWorker.cpp:249-252 | No schedule is longer than its work, and one that has not finished can go on. |
| `WorkerHandlers.MatrixMultiplication` | src/rabbitCore/worker/RabbitWorker.cpp:151-158 | The thread adds the dot product to its own cell and changes no other. |
| `WorkerHandlers.MatrixMultiplicationHandler` | src/rabbitCore/worker/RabbitWorker.cpp:234-254 | No answer when the dimensions differ; otherwise every entry is the dot product, for any number of cores. |
| `WorkerHandlers.CellIndex` | src/rabbitCore/worker/RabbitWorker.cpp:244-247 | No two cells share a thread. |
| `WorkerHandlers.EveryScheduleMultiplies` | src/rabbitCore/worker/RabbitWorker.cpp:242-254 | Whatever the interleaving of the threads' single updates, the handler reads the matrix product. |
| `WorkerHandlers.DeterminantHandler` | src/rabbitCore/worker/RabbitWorker.cpp:192-205 | The results are the matrices' determinants, in order, for any number of cores. |
| `WorkerHandlers.EveryScheduleFindsDeterminants` | src/rabbitCore/worker/RabbitWorker.cpp:195-205 | Whatever the interleaving, the handler reads the determinants in order. |
| `SchedulerTables.BestIndex` | src/services/UserDBService/UserDBService.cpp:37-51 | The worker chosen is the first with the most free cores among those with enough, and none is chosen exactly when none has enough. |
| `SchedulerTables.ChoiceIsFree` | src/services/UserDBService/UserDBService.cpp:39-46 | Whatever a task asks for, even less than nothing, the worker chosen has it free and is not overloaded, and none is chosen exactly when no worker is such. |
| `SchedulerTables.LookupsExactly` | src/services/TaskService/TaskService.cpp:21-54 | Finding and updating a task succeed exactly for an id in the table, and reach its first task. |
| `SchedulerTables.RemovesFirst` | src/services/UserDBService/UserDBService.cpp:17-25 | One row of that id leaves, the first, if there is one, and the others stay in their order. |
| `SchedulerTables.ModifiesOneRow` | src/services/UserDBService/UserDBService.cpp:85-104 | Whatever the table, a change of used cores reaches the first row of that id alone, by exactly the cores given unless that would leave less than zero, and then to zero. |
| `SchedulerTables.StoredId` | src/services/TaskService/TaskService.cpp:11-19 | A task with an id keeps it; one without is stored under the number of tasks before it, so under another id than every other task stored so. |
| `SchedulerServices.UserDBService.RemoveClient` | src/services/UserDBService/UserDBService.cpp:17-25 | The first row of that id is removed, if there is one, and no other. |
| `SchedulerServices.UserDBService.RemoveWorker` | src/services/UserDBService/UserDBService.cpp:27-35 | The first row of that id is removed, if there is one, and no other. |
| `SchedulerServices.UserDBService.FindMostFreeWorker` | src/services/UserDBService/UserDBService.cpp:37-51 | The scan with a running best returns the worker `BestIndex` describes, or the empty one. |
| `SchedulerServices.UserDBService.FindClientByID` | src/services/UserDBService/UserDBService.cpp:53-61 | The client of that id is found, or the call fails exactly when there is none. |
| `SchedulerServices.UserDBService.ModifyWorkerUsedCores` | src/services/UserDBService/UserDBService.cpp:85-104 | The first worker of that id gets the new used cores, reset to zero when negative; without one it fails and changes nothing. |
| `SchedulerServices.TaskService.AddTask` | src/services/TaskService/TaskService.cpp:11-19 | The task is appended as Queued, under a made-up id when it has none. |
| `SchedulerServices.TaskService.UpdateTask` | src/services/TaskService/TaskService.cpp:21-30 | The first task of that id is replaced; without one it fails and changes nothing. |
| `SchedulerServices.TaskService.FindTaskByID` | src/services/TaskService/TaskService.cpp:47-54 | The first task of that id, or failure. |
| `SchedulerServices.TaskQueue.TryDequeue` | src/services/TaskQueue/TaskQueue.h:26-35 | The front task leaves exactly when it asks for no more than the given cores. |
| `SchedulerServices.RabbitServer.AcceptTask` | src/rabbitCore/server/RabbitServer.cpp:236-254 | The request is stored as a task, and the thread gets a copy with the id as it came. |
| `SchedulerServices.RabbitServer.ProcessTask` | src/rabbitCore/server/RabbitServer.cpp:323-361 | The objects end in the tables, request and exception of the function `ProcessTask`, on every path. |
| `SchedulerServices.RabbitServer.CheckTaskQueue` | src/rabbitCore/server/RabbitServer.cpp:279-320 | The objects end in the tables, request and exception of the function `CheckTaskQueue`, on every path. |
| `SchedulerServices.RabbitServer.HandleResult` | src/rabbitCore/server/RabbitServer.cpp:163-176 | The objects end in the tables and exception of the function `HandleResult`, on every path. |
| `SchedulerInvariant.RunOutcome` | src/rabbitCore/server/RabbitServer.cpp:323-339 | In every state of a run `processTask` sends the task to the eligible worker with the most free cores, the first of them, or queues it exactly when none has enough. |
| `SchedulerInvariant.CheckOutcome` | src/rabbitCore/server/RabbitServer.cpp:286-307 | In every state of a run `checkTaskQueue` takes the front task exactly when it fits all the worker's cores, however many are in use. |
| `SchedulerInvariant.ReceiveOutcome` | src/rabbitCore/server/RabbitServer.cpp:163-176 | In every state of a run a result marks its own task Ready and takes exactly its cores off the worker that ran it. |
| `SchedulerInvariant.Invariant` | src/rabbitCore/server/RabbitServer.cpp:130-361 | In every run tables, threads, queue and wire agree. |
| `SchedulerTheorems.CoreConservation` | src/services/UserDBService/UserDBService.cpp:85-104 | In every run a worker's used cores are the sum over the tasks in flight at it. |
| `SchedulerTheorems.ClampNeverFires` | src/services/UserDBService/UserDBService.cpp:95-98 | In every run a result's cores come off without going below zero, so the reset to zero does nothing. |
| `SchedulerTheorems.DispatchPicksMostFree` | src/rabbitCore/server/RabbitServer.cpp:323-355 | In every run a task's thread sends it to the first of the workers with the most free cores, and books its cores there, or queues it exactly when every worker has fewer free cores than it asks for. |
| `SchedulerTheorems.LooksArePaid` | src/rabbitCore/server/RabbitServer.cpp:130-191 | In every run a connected worker's thread has looked at the queue, or still owes the look, once since it registered and once for every result whose client was told. |
| `SchedulerTheorems.ClientsArePresent` | src/services/UserDBService/UserDBService.cpp:9-25 | In every run the client table has as many rows of an id as that client has joined and not left. |
| `SchedulerTheorems.LoadBound` | src/rabbitCore/server/RabbitServer.cpp:174-190 | In every run the tasks in flight at a worker, with the look at the queue it may owe, are at most its cores plus one, none larger than the worker, and used cores are at most n(n + 1). |
| `SchedulerTheorems.OverloadComesFromQueue` | src/rabbitCore/server/RabbitServer.cpp:286-303 | In every run what exceeds a worker's cores came from the queue; where nothing was taken from the queue, nothing exceeds them. |
| `SchedulerTheorems.OverloadExactly` | src/rabbitCore/server/RabbitServer.cpp:286 | With all workers within their cores, a step takes one beyond exactly when it is a look at the queue whose front task fits the worker but not its free cores. |
| `SchedulerScenarios.BoundReached` | src/rabbitCore/server/RabbitServer.cpp:282-303 | For every n there is a run after which a worker of n cores uses n(n + 1). |
| `SchedulerTheorems.Lifecycle` | src/rabbitCore/server/RabbitServer.cpp:247-262 | In every run every accepted task is in exactly one place: its thread, the queue, in flight with a worker named, or Ready. |
| `SchedulerTheorems.NoneLost` | src/rabbitCore/server/RabbitServer.cpp:247-262 | In every run the task table holds exactly the accepted ids in order, and what waits is exactly what is Queued, each once. |
| `SchedulerTheorems.StatusOnlyAdvances` | src/rabbitCore/server/RabbitServer.cpp:169-173 | Over any stretch of a run a task's request never changes, its status only moves from Queued to SentToWorker to Ready, its worker stays, and a Ready task is frozen. |
| `SchedulerTheorems.SentOnce` | src/rabbitCore/server/RabbitServer.cpp:333-352 | In every run no task is sent twice, and the requests sent are those of the tasks no longer Queued, to the worker the table names. |
| `SchedulerTheorems.FirstInFirstOut` | src/services/TaskQueue/TaskQueue.h:17-35 | In every run the ids taken from the queue followed by those in it are the ids enqueued, each once. |
| `SchedulerTheorems.ReadyExactlyWhenAnswerable` | src/rabbitCore/server/RabbitServer.cpp:163-173 | In every run a task sent to a worker can still become Ready exactly when that worker is connected and the request or its answer is under way. |
| `SchedulerTheorems.StrandedForever` | src/rabbitCore/server/RabbitServer.cpp:109-118 | A sent task whose worker has left, or whose request or answer is lost, keeps its state for the rest of the run. |
| `SchedulerScenarios.LeftBehind` | src/rabbitCore/server/RabbitServer.cpp:115-117 | A run strands a task because its worker leaves, with the request still under way. |
| `SchedulerScenarios.RequestLost` | src/rabbitCore/server/RabbitServer.cpp:352-355 | A run strands a task because its request is lost, with the worker still connected. |
| `SchedulerTheorems.DispatchNeverThrows` | src/services/TaskService/TaskService.cpp:29 | In every run neither a task's thread nor a look at the queue throws. |
| `SchedulerTheorems.ResultThrowsExactlyWhenClientGone` | src/rabbitCore/server/RabbitServer.cpp:109-176 | In every run handling a result throws, and ends the worker's thread, exactly when no connection of the task's client is open, counted from the steps in which it joined and left. |
| `SchedulerTheorems.ResultThrowsExactly` | src/rabbitCore/server/RabbitServer.cpp:163-176 | Whatever the tables, handling a result throws exactly when its task, that task's worker or its client is missing, and a task that is found is Ready with the output all the same. |
| `SchedulerTheorems.EmptyIdThrows` | src/services/TaskService/TaskService.cpp:12-14 | Right after a task is accepted, its thread throws exactly when the task has no id and a worker is free for it; with none free the task is queued as it is. |
| `SchedulerTheorems.EmptyIdInQueueThrows` | src/rabbitCore/server/RabbitServer.cpp:286-307 | With such a task at the front, a look at the queue throws exactly when the task fits the thread's copy of the worker; the task has then left the queue unsent, and its cores are booked on the worker if it is in the table. |

## Left out

- Sockets, threads, condition variables and clocks as mechanisms: delivery, loss, timeouts and scheduling are free choices of the step systems.
- JSON, console prompts, arguments, logging and the markdown state files, including the exceptions these may throw.
- Ping, the SYN handshake, `Timer`, `SessionKiller` and MSG_KILLED, which nothing in the repository sends.
- Liveness of INIT: a repeated INIT gets no answer and `initSend` may overwrite an answer already there; for this phase the theorems are about safety.
- `sendMessage` as a method: its thread is `StipSessions.Advance` in the step system, where packets come between any two of its steps; its two loops are methods.
- `getDataAsString`, which reads a C string before resizing: delivery is stated over `getData`.
- How session ids are drawn: any id not in the map may be chosen.
- Object lifetime and deletion, including the doubly deleted connection in `processConnection`.
- The session map is two maps, one for each kind of session, in place of one map and a dynamic cast.
- `simpleMath` and `doWait`, `updateWorker`, `findWorkerByID` and `changeTaskStatus`: they would only add easy members.
- The end of the whole process when an exception leaves a task's thread, or when a client's thread ends with task threads not joined: a client that leaves only leaves the table.
- Elimination.Determinant: does not model 32-bit overflow of the entries or of the product; `int` is a mathematical integer.
- WorkerHandlers.MatrixMultiplicationHandler: runs each batch's threads one after the other where it joins them; every other interleaving is covered by `EveryScheduleMultiplies`.
- WorkerHandlers.DeterminantHandler: runs each batch's threads one after the other where it joins them; every other interleaving is covered by `EveryScheduleFindsDeterminants`.
- SchedulerServices.RabbitServer.HandleResult: does not model the message to the client, whose failure is a choice of the step system.
- SchedulerServices.RabbitServer.ProcessTask: is one atomic step, so two task threads do not interleave between choosing a worker and booking its cores.
