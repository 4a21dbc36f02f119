# The microphone manager, the ARCS protocol and the AVDECC codecs of the conference host

This project models four parts of a conference system's controller and proves how they behave.

**The microphone manager** (`words`, `com_queue`, `mic_*`). A connector and a disconnector, each a machine of
four states (finish, wait, success, failed), are fed by three priority queues of requests each and share one
queue of ACMP events. A periodic routine gives the ACMP event to both machines and then, for each manager,
pops one request, dispatches it, and answers it by callback or puts it back.

- `MicHistory` says, of a history of requests, cancellations, dispatches, results and answers alone, when that
  history is *safe*. It knows nothing of machines or queues.
- `MicModel` is the transition system. A step is one region that the code runs under one lock, so the calls of
  other threads and of the callbacks may fall between any two steps of a pass. What the environment answers
  (system state, link state, whether a command was accepted) is a `Reading`, any value at every dispatch.
- `MicSafety` proves that every step keeps an invariant from which every history is safe; `MicTheorems` draws
  the conclusions about every run.
- `MicResults` asks whose result a result is: an ACMP event carries the ids of talker and listener, which the
  machines never read; and whom an answer reaches. `MicProgress` says how passes move the managers on, and when
  they do not. `MicEffects` says of the fields themselves what each step does in every reachable state.
- `MicStore` and `MicManager` are the program: deques of 32-bit addresses, allocated events whose counters and
  permissions are changed in place, two states and two start indices. Every method is proved to take the
  abstract state through the step it stands for, so the theorems speak of the program.
- `ComQueue` is the array deque, proved to be a bounded sequence.

**The ARCS byte-stream protocol** (`ring_buffer`, `user_timer`, `arcs_*`). A ring of octets, a parser of one
octet at a time with two timers, duplicate suppression, a query that reports all endpoints three to a report,
a bounded queue of reports, a pump that waits after each report, and the frames in flight that await an answer.
`ArcsReplies` says what the host answers.

**The expiry of end stations** (`adp_expiry`). Timers on a clock that wraps, against a reference in real time.

**The AVDECC wire formats** (`wire`, `pdus`, `adpdu`, `aecpdu`, `layouts`, `avdecc_forms`, `avdecc_wire`, `appdu`,
`eth_frame`, `eui_text`). The control header of clause 5.3 of IEEE Std 1722-2011; ADPDU, ACMPDU and AECPDU of
clauses 6.2.1, 8.2.1 and 9.2.1 and the proxy PDU of Annex C.4 of IEEE Std 1722.1-2013; Ethernet frames; the
messages the controller forms and the checks it makes; EUI-64 text.

`dafny verify dfyconfig.toml` verifies the whole project.

## Where the code is not what its names or comments say

The model follows the code; each point is a lemma below.

- The retry budget of a microphone request bounds refused commands only. An accepted command steps the
  eight-bit counter down without looking at it, so accepted commands that then fail can go on for ever
  (`RetriesNeedNotEnd`); `BudgetBoundsExactly` says when the budget does bound the commands, and
  `RefusalsUseTheBudget` and `ExhaustionIsModular` what holds of refused ones. For the same reason a
  command that succeeds when the counter shows 0 is judged by the link state instead (`SuccessIsNotBelieved`;
  `CallbacksTellTheTruth` says exactly when a success is believed).
- A machine that waits believes the next response of its kind, whatever terminal it names. Other parts of the
  controller command disconnects past the manager (`controller/lib/conference_host_with_endstation/terminal_pro.c`,
  lines 1339 and 1455), and the responses to those reach the same queue; so a terminal can be reported
  disconnected because another one was (`AnothersResultIsBelieved`). Results are the request's own exactly when
  the events consumed name its terminal (`ResultsAreOwn`). Own means: for the terminal of the request. Two
  commands for one terminal cannot be told apart by what an event carries.
- The ARCS parser counts data octets in a variable that is not initialised when a call starts. A frame split
  between two calls behind its header is received as sent when that variable holds the right value, and for a
  greater value exactly when the octets hide the difference (`SplitFrame`, `Rejoins`); otherwise it is lost, or
  received wrongly (`SplitIsMisread`).
- Any response to a report frees the pump of reports, whatever number it bears, so a stale one lets the next
  report go while the last is unanswered (`StaleAnswerFrees`, `StopAndWaitExactly`). And a response to another
  command takes a report out of flight without freeing the pump, which then waits until the host answers a report
  again (`StrayAnswerSticks`, `StuckExactly`, `StuckForEver`).
- The remembered number of the last ARCS command starts at 0, so a first command with number 0 is taken for a
  retransmission (`FirstCommand`).
- The queue of reports has room for the maximum number of endpoints, but for three more only when the maximum
  is a multiple of three (`RoomForHostUnits`).
- The field reserved0 of an ADPDU overlaps its neighbours (`Reserved0Survives`, `AdpOctetsBack`).
- An untagged Ethernet frame of type 8100, or with tag fields set, is not read back, nor is any frame that does
  not begin at the start of the buffer (`FrameReadAfterWrite`).
- The identifier printers ask for one place more than they need (`PrintedInFull`).

## Model

| member | source | states |
|---|---|---|
| `MicTheorems.EveryRunIsSafe` | controller/lib/conference_host_with_endstation/terminal_disconnect_connect_manager.c:185-1101 | Every run of requests, cancellations, ACMP events, passes and callbacks, whatever the environment answers, has a safe history: one dispatch per manager and pass, strict priority, one command outstanding, callbacks that say what happened. |
| `MicTheorems.NothingLost` | controller/lib/conference_host_with_endstation/terminal_disconnect_connect_manager.c:717-806 | In every run and for every queue, the answered requests followed by the waiting ones are the accepted requests in order, each exactly once. |
| `MicTheorems.AnswersInOrder` | controller/lib/conference_host_with_endstation/terminal_disconnect_connect_manager.c:884-1101 | In every safe history the answers of a queue are a prefix of its accepted requests: in order, none twice, none made up. |
| `MicTheorems.PutBackFits` | controller/lib/conference_host_with_endstation/terminal_disconnect_connect_manager.c:959-970 | In every run a visit that answers nothing leaves its queue with the same requests in the same places: the post back to the head never meets a full queue. |
| `MicTheorems.BetweenPasses` | controller/lib/conference_host_with_endstation/terminal_disconnect_connect_manager.c:874-1091 | Between passes a waiting machine waits for the command of the head of the queue its next scan starts at; any other machine starts at the chairman queue; no machine is in the success state. |
| `MicResults.CallbacksTellTheTruth` | controller/lib/conference_host_with_endstation/terminal_disconnect_connect_manager.c:892-957 | In every run a callback for a request whose last result was a success says true if and only if its counter is not 0 or the terminal is in the wanted state at that moment; any other callback says what the state is; none says false of a terminal in the wanted state. If the events of the run are named, the success it rests on was reported for the terminal of its own request. The callback is given that report, the terminal the request was accepted for, and its permissions, none if it was cancelled. |
| `MicResults.ResultsAreOwn` | controller/lib/conference_host_with_endstation/terminal_disconnect_connect_manager.c:269-351 | In every run every result is credited to a request for the terminal it was reported of if and only if every event that a waiting machine consumes names the terminal of the request it waits for: the machines never compare. |
| `MicResults.WaitingFor` | controller/lib/conference_host_with_endstation/terminal_disconnect_connect_manager.c:185-258 | In every reachable state a machine that waits has the command of the head of its current queue in flight, and that request's terminal is the one the history knows. |
| `MicResults.BeginHears` | controller/lib/conference_host_with_endstation/terminal_disconnect_connect_manager.c:269-351 | The head of a pass credits an event to the command in flight, and keeps results own exactly when the event names its terminal. |
| `MicResults.AnothersResultIsBelieved` | controller/lib/conference_host_with_endstation/terminal_disconnect_connect_manager.c:269-326 | For any two terminals there is a run from the start in which one is reported disconnected, while it is connected, because a response for the other arrived. |
| `MicResults.SuccessIsNotBelieved` | controller/lib/conference_host_with_endstation/terminal_disconnect_connect_manager.c:328-351 | There is a run from the start in which the only command of a request of budget 1 is answered with status 0 for its own terminal, and the callback says false. |
| `MicResults.AnswersReachTheLast` | controller/lib/conference_host_with_endstation/terminal_disconnect_connect_manager.c:158-183 | In every run an answer goes to the function registered last for its queue, or to none if that was null or has been removed. |
| `MicProgress.RefusalsSettle` | controller/lib/conference_host_with_endstation/terminal_disconnect_connect_manager.c:185-258 | In any run between two moments outside a pass, from a reachable state in which a machine waits for nothing: if the commands of its first request, of budget b, are refused, then after n passes that request is in front with its counter at b-n when n is at most b, and has been answered if and only if n is greater. Client calls, calls of callbacks, ACMP events and the other manager are arbitrary, but for calls that put a request in front of it or cancel it. |
| `MicProgress.PassMoves` | controller/lib/conference_host_with_endstation/terminal_disconnect_connect_manager.c:841-1105 | A pass whose callbacks make no calls acts on each manager by itself: each deals with its first request. |
| `MicProgress.WaitsForEver` | controller/lib/conference_host_with_endstation/terminal_disconnect_connect_manager.c:185-258 | From any reachable state, a machine that waits while no event for it is queued or arrives commands nothing and answers nothing, however the run goes on. |
| `MicTheorems.CommandAccount` | controller/lib/conference_host_with_endstation/terminal_disconnect_connect_manager.c:185-447 | In a safe history, commands taken minus results and timeouts consumed is 1 while a command is in flight and 0 otherwise. |
| `MicTheorems.WaitingAccount` | controller/lib/conference_host_with_endstation/terminal_disconnect_connect_manager.c:185-447 | In every run that account is 1 exactly when the machine is in the wait state. |
| `MicTheorems.AcmpReachesOne` | controller/lib/conference_host_with_endstation/terminal_disconnect_connect_manager.c:874-880 | An ACMP event moves at most one machine, and only one that it is addressed to and that waits; the other keeps its state, its queues and the command it has in flight. |
| `MicTheorems.ScanVisitsFirstBusy` | controller/lib/conference_host_with_endstation/terminal_disconnect_connect_manager.c:884-992 | A scan visits the first non-empty queue from its start on, finds the earlier ones empty, and visits no other. |
| `MicTheorems.RefusalsUseTheBudget` | controller/lib/conference_host_with_endstation/terminal_disconnect_connect_manager.c:238-248 | A request of budget b whose command is refused every time has been tried at most b times while it is unsettled, and exactly b+1 times once it is settled. |
| `MicTheorems.ExhaustionIsModular` | controller/lib/conference_host_with_endstation/terminal_disconnect_connect_manager.c:396-409 | In every run a refused command settles its request if and only if the number of its earlier commands equals its budget modulo 256. |
| `MicTheorems.BudgetBoundsExactly` | controller/lib/conference_host_with_endstation/terminal_disconnect_connect_manager.c:218-248 | In every run no more commands have left a request waiting than its budget allows if and only if none of its commands was accepted while its counter showed 0; then all its commands are at most one more than the budget, and otherwise they are more than the budget. |
| `MicTheorems.BudgetAccount` | controller/lib/conference_host_with_endstation/terminal_disconnect_connect_manager.c:218-248 | In a safe history the commands a request was left waiting with and what its eight-bit counter shows make up its budget and 256 for every command accepted at 0. |
| `MicTheorems.RetriesNeedNotEnd` | controller/lib/conference_host_with_endstation/terminal_disconnect_connect_manager.c:218-236 | For every n there is a run in which a request of any budget has had n commands accepted, none successful, and is still not answered: the budget does not bound accepted commands. |
| `MicTheorems.RoundKeepsTrying` | controller/lib/conference_host_with_endstation/terminal_disconnect_connect_manager.c:357-446 | One timeout, one pass and one more accepted command: the request stays at the head, and its eight-bit counter steps down, wrapping around. |
| `MicTheorems.CancelledForEver` | controller/lib/conference_host_with_endstation/terminal_disconnect_connect_manager.c:1212-1274 | Once a queued request was cancelled, no later step of any run commands it, and it stays among the accepted requests. |
| `MicTheorems.CancelledIsQuiet` | controller/lib/conference_host_with_endstation/terminal_disconnect_connect_manager.c:204-257 | In a safe history no command follows a cancellation of its request. |
| `MicTheorems.PassesArePaced` | controller/lib/conference_host_with_endstation/terminal_disconnect_connect_manager.c:863-872 | Without an ACMP event a pass begins exactly when 100 ms of real time have gone by since the last clock-driven one, across a wrap-around of the tick. |
| `MicTheorems.PassIsRun` | controller/lib/conference_host_with_endstation/terminal_disconnect_connect_manager.c:841-1105 | A whole pass, with both scans and the calls of both callbacks, is a run of single steps. |
| `MicTheorems.PassesAreSafe` | controller/lib/conference_host_with_endstation/terminal_disconnect_connect_manager.c:841-1105 | From any reachable state between passes, the next pass keeps the history safe. |
| `MicSafety.RunKeepsInv` | controller/lib/conference_host_with_endstation/terminal_disconnect_connect_manager.c:841-1105 | The invariant tying machines, queues and history holds after every run. |
| `MicSafety.StepKeepsInv` | controller/lib/conference_host_with_endstation/terminal_disconnect_connect_manager.c:717-1297 | Every step keeps it: client calls, the head of a pass, a visit of one queue, a return from a callback. |
| `MicSafety.RequestKeepsInv` | controller/lib/conference_host_with_endstation/terminal_disconnect_connect_manager.c:717-806 | A request keeps it, accepted or not. |
| `MicSafety.CancelKeepsInv` | controller/lib/conference_host_with_endstation/terminal_disconnect_connect_manager.c:1212-1249 | A cancellation of one request keeps it. |
| `MicSafety.CancelQueueKeepsInv` | controller/lib/conference_host_with_endstation/terminal_disconnect_connect_manager.c:1252-1274 | A cancellation of a whole queue keeps it. |
| `MicSafety.BeginKeepsInv` | controller/lib/conference_host_with_endstation/terminal_disconnect_connect_manager.c:863-880 | The head of a pass keeps it, with or without an ACMP event. |
| `MicSafety.VisitIsSafe` | controller/lib/conference_host_with_endstation/terminal_disconnect_connect_manager.c:884-992 | The dispatch of the head of a visited queue is one that may follow the history. |
| `MicSafety.VisitKeepsInv` | controller/lib/conference_host_with_endstation/terminal_disconnect_connect_manager.c:884-1101 | A visit of a queue keeps it, whether the queue is empty, the request is answered, or it is put back. |
| `MicSafety.AnswerIsSafe` | controller/lib/conference_host_with_endstation/terminal_disconnect_connect_manager.c:892-957 | The answer of a settled request says what the history says. |
| `MicSafety.PutBackKeepsManager` | controller/lib/conference_host_with_endstation/terminal_disconnect_connect_manager.c:959-981 | A request put back keeps its place, and the machine waits for it or starts afresh. |
| `MicEffects.VisitEffect` | controller/lib/conference_host_with_endstation/terminal_disconnect_connect_manager.c:185-447 | In every reachable state a visit of a queue with a request: a waiting machine stays as it is; a machine that waits for nothing issues a command if and only if the system state and the request share a permission bit and the terminal is not where it should be; taken, it waits, with the counter one lower; refused, the request stays with its counter one lower, or is answered at 0; a success is answered, as is a request no command may be issued for. The last entry of the history, and the call of the callback, carry what is told, the terminal and the permissions of that request. |
| `MicEffects.AcmpEffect` | controller/lib/conference_host_with_endstation/terminal_disconnect_connect_manager.c:265-351 | In every reachable state a pass takes the oldest ACMP event: a waiting machine ends in success if and only if it is the response of its own kind with status 0, in failure on any other status and on its own timeout, and is unmoved by the two signals of the other kind; a machine that does not wait is unmoved. |
| `MicEffects.AcmpResult` | controller/lib/conference_host_with_endstation/terminal_disconnect_connect_manager.c:265-351 | The history then knows of the command in flight exactly whether the machine is in success, and for which terminal the event spoke. |
| `MicEffects.SuccessesAreEarned` | controller/lib/conference_host_with_endstation/terminal_disconnect_connect_manager.c:265-351 | In every run the success an answer rests on was a response of the machine's own kind, with status 0, that was posted to the manager and named the terminal credited. |
| `MicEffects.EventsInOrder` | controller/lib/conference_host_with_endstation/terminal_disconnect_connect_manager.c:874-880 | In every run the ACMP events taken, followed by those waiting, are those that found room when they were posted, in order. |
| `MicEffects.TickEffect` | controller/lib/conference_host_with_endstation/terminal_disconnect_connect_manager.c:863-872 | Without an event a pass begins if and only if 100 ms have gone by on the wrapping tick since the tick of the last such pass, which is then remembered; otherwise nothing changes. |
| `MicEffects.RequestEffect` | controller/lib/conference_host_with_endstation/terminal_disconnect_connect_manager.c:717-806 | In every reachable state a request is accepted if and only if there are terminal, priority, memory and room; it is then the last of its queue with its terminal, its permissions and its count up to 5, and nothing else changes; otherwise nothing changes at all. |
| `MicEffects.CancelEffect` | controller/lib/conference_host_with_endstation/terminal_disconnect_connect_manager.c:1212-1249 | In every reachable state a cancellation takes the permissions of the first queued request of the user and nothing else, and from that call on no step of any run commands that request. |
| `MicEffects.CancelNothing` | controller/lib/conference_host_with_endstation/terminal_disconnect_connect_manager.c:1212-1249 | With no queued request of the user, or no such queue, nothing changes. |
| `MicEffects.CancelQueueEffect` | controller/lib/conference_host_with_endstation/terminal_disconnect_connect_manager.c:1256-1273 | The cancellation of one queue takes the permissions of all its requests, leaves them queued, and leaves the other five queues alone. |
| `MicEffects.CancelAllEffect` | controller/lib/conference_host_with_endstation/terminal_disconnect_connect_manager.c:1252-1274 | After all tasks are cancelled every request of all six queues is still queued, has no permissions, and is cancelled in the history; the machines are as they were. |
| `MicEffects.EmptyVisitEffect` | controller/lib/conference_host_with_endstation/terminal_disconnect_connect_manager.c:884-992 | An empty queue sends the scan on to the next; behind the disconnector comes the connector, behind the connector the pass ends. |
| `MicEffects.ReturnEffect` | controller/lib/conference_host_with_endstation/terminal_disconnect_connect_manager.c:884-1101 | When a callback of the disconnector returns, the scan of the connector begins; when one of the connector does, the pass is over. |
| `MicManager.MicTask.MicManagerTask` | controller/lib/conference_host_with_endstation/terminal_disconnect_connect_manager.c:841-1105 | The periodic routine on deques of addresses and events changed in place takes the abstract state through exactly one pass, and calls exactly the callbacks that pass reports, with their arguments. |
| `MicManager.MicTask.ScanQueues` | controller/lib/conference_host_with_endstation/terminal_disconnect_connect_manager.c:884-992 | The loop over one manager's queues does what the abstract scan does and reports how it ended. |
| `MicManager.MicTask.VisitQueue` | controller/lib/conference_host_with_endstation/terminal_disconnect_connect_manager.c:884-992 | Pop, dispatch, and answer or put back are one abstract visit; the result carries the callback's arguments, which are what the last entry of the history says, and the terminal and permissions of the request that was at the head. |
| `MicManager.MicTask.BeginPass` | controller/lib/conference_host_with_endstation/terminal_disconnect_connect_manager.c:863-880 | The head of the routine is the abstract head of a pass; it goes on exactly when that changes the state. |
| `MicManager.MicTask.Keep` | controller/lib/conference_host_with_endstation/terminal_disconnect_connect_manager.c:959-981 | The post back to the head restores the queue. |
| `MicManager.MicTask.Release` | controller/lib/conference_host_with_endstation/terminal_disconnect_connect_manager.c:949-956 | A settled event is freed and the next scan starts at the chairman queue. |
| `MicManager.MicTask.DispatchMic` | controller/lib/conference_host_with_endstation/terminal_disconnect_connect_manager.c:185-447 | A dispatch of a microphone event changes the machine state and the event's counter in place as the transition function says. |
| `MicManager.MicTask.DispatchAcmp` | controller/lib/conference_host_with_endstation/terminal_disconnect_connect_manager.c:265-326 | A dispatch of an ACMP event moves a waiting machine it is addressed to, and nothing else. |
| `MicManager.MicTask.RequestEvent` | controller/lib/conference_host_with_endstation/terminal_disconnect_connect_manager.c:717-806 | A request is accepted exactly when terminal, priority, allocation and queue allow it, and is then the last of its queue. |
| `MicManager.MicTask.CancelTask` | controller/lib/conference_host_with_endstation/terminal_disconnect_connect_manager.c:1212-1249 | The first queued request of the user loses its permissions, if manager and priority are in range; found or not is reported. |
| `MicManager.MicTask.CancelQueue` | controller/lib/conference_host_with_endstation/terminal_disconnect_connect_manager.c:1256-1273 | The walk from head to trail clears the permissions of every queued event. |
| `MicManager.MicTask.CancelAllTask` | controller/lib/conference_host_with_endstation/terminal_disconnect_connect_manager.c:1252-1274 | All six queues are cancelled, row by row. |
| `MicManager.MicTask.PostAcmpEvent` | controller/lib/conference_host_with_endstation/terminal_disconnect_connect_manager.c:1277-1297 | An event is queued exactly when there is one and the ACMP queue is not full. |
| `MicManager.MicTask.RegisterCallBack` | controller/lib/conference_host_with_endstation/terminal_disconnect_connect_manager.c:809-823 | The function becomes the one called for a manager and priority, exactly when both are in range; a null function leaves none. |
| `MicManager.MicTask.DelRegisterCallback` | controller/lib/conference_host_with_endstation/terminal_disconnect_connect_manager.c:826-838 | It is removed under the same condition. |
| `MicManager.MicTask.HasEventTask` | controller/lib/conference_host_with_endstation/terminal_disconnect_connect_manager.c:1177-1209 | True exactly when manager and priority are in range and some request queued there is of the user. |
| `MicManager.MicTask.HasTask` | controller/lib/conference_host_with_endstation/terminal_disconnect_connect_manager.c:1138-1174 | True exactly when either manager has such a request. |
| `MicManager.MicTask.HasTaskInQueue` | controller/lib/conference_host_with_endstation/terminal_disconnect_connect_manager.c:1108-1135 | True exactly when some queue of the manager is not empty, or there is no such manager. |
| `MicManager.FirstEvent` | controller/lib/include/system_work_tool_uits/queue_com.h:39-42 | The walk macro finds the first event of a user and no earlier one. |
| `MicStore.PostedIsRequest` | controller/lib/conference_host_with_endstation/terminal_disconnect_connect_manager.c:738-752 | Allocating an event and queueing its address is an abstract request, and leaks nothing. |
| `MicStore.ChangedIsCancel` | controller/lib/conference_host_with_endstation/terminal_disconnect_connect_manager.c:1238-1241 | Clearing the permissions behind one address is an abstract cancellation of one request. |
| `MicStore.ReleasedSound` | controller/lib/conference_host_with_endstation/terminal_disconnect_connect_manager.c:947-951 | Popping and freeing an event removes exactly the first request of its queue and leaks nothing. |
| `ComQueue.TComQueue.PostFifo` | controller/lib/system_work_tool_uits/queue_com.c:41-53 | Succeeds exactly when fewer than size-1 elements are queued, and appends. |
| `ComQueue.TComQueue.PostLifo` | controller/lib/system_work_tool_uits/queue_com.c:56-84 | Succeeds exactly when fewer than size-1 elements are queued, and prepends, in every position of the indices. |
| `ComQueue.TComQueue.PopFifo` | controller/lib/system_work_tool_uits/queue_com.c:87-99 | Removes the first element; an empty queue leaves everything as it was. |
| `ComQueue.TComQueue.IsEmpty` | controller/lib/system_work_tool_uits/queue_com.c:31-33 | Empty exactly when the sequence is, exactly when the count is 0. |
| `ComQueue.TComQueue.IsFull` | controller/lib/system_work_tool_uits/queue_com.c:36-38 | Full exactly when size-1 elements are queued. |
| `ComQueue.TComQueue.CountIsModular` | controller/lib/system_work_tool_uits/queue_com.c:26-28 | The count is the distance of the indices modulo the size. |
| `RingBuffer.TCharRingBuf.SaveChar` | controller/lib/system_work_tool_uits/ring_buffer.c:56-81 | Succeeds exactly when fewer than bufSize octets wait, and appends: all slots are usable. |
| `RingBuffer.TCharRingBuf.GetChar` | controller/lib/system_work_tool_uits/ring_buffer.c:84-108 | Reads the oldest octet, if any. |
| `RingBuffer.TCharRingBuf.IsFull` | controller/lib/system_work_tool_uits/ring_buffer.c:37-53 | The flag tells a full ring from an empty one. |
| `RingBuffer.TCharRingBuf.ReadsArePrefix` | controller/lib/system_work_tool_uits/ring_buffer.c:56-108 | After any calls the octets read are a prefix of the octets accepted. |
| `RingBuffer.TCharRingBuf.SaveAll` | controller/lib/arcs/arcs_common.c:234-239 | Of the octets of one packet exactly those that still fit are kept, in order. |
| `ArcsCommon.TArcsPro.RecvPacketPro` | controller/lib/arcs/arcs_common.c:223-246 | What the port received goes to the ring, as far as it fits, while no registration is under way; otherwise, or when nothing was received, the port is closed and the ring left alone. |
| `UserTimer.TUserTimer.Timeout` | controller/lib/system_work_tool_uits/usertimer.c:105-119 | A poll changes the timer as the poll function says and returns whether it is up. |
| `UserTimer.SinceIsReal` | controller/lib/system_work_tool_uits/usertimer.c:105-119 | Within 2^32 ms of the start the 32-bit difference is the real time that has gone by. |
| `UserTimer.PollsTellTheTruth` | controller/lib/system_work_tool_uits/usertimer.c:93-119 | Polled at any times within 2^32 ms of its start, a timer is up exactly when one of the polls came later than its duration. |
| `UserTimer.StoppedStays` | controller/lib/system_work_tool_uits/usertimer.c:97-119 | A stopped timer never runs out. |
| `ArcsFrame.ProtocalQtFill` | controller/lib/include/arcs/protocal_qt.h:150-185 | Refuses exactly the lengths out of range; otherwise leaves header, data, zeros and the check octet, which for the message's own length is its frame. |
| `ArcsFrame.CheckCrc` | controller/lib/include/arcs/protocal_qt.h:113-136 | Zero exactly when the octet is the exclusive-or of header and data. |
| `ArcsFrame.OneErrorShows` | controller/lib/include/arcs/protocal_qt.h:113-136 | One changed octet always changes the check octet. |
| `ArcsFrame.FrameLayout` | controller/lib/include/arcs/protocal_qt.h:150-185 | Head, type, number, command, length, data and check octet stand where the send buffer has them, numbers with the low octet first; every bit of the whole frame is set an even number of times. |
| `ArcsFrame.XorAllIsParity` | controller/lib/include/arcs/protocal_qt.h:113-136 | A bit of the check octet is set exactly when an odd number of the octets before it have it. |
| `ArcsParser.Feed` | controller/lib/arcs/arcs_common.c:361-423 | Every store of a data octet is below the data length and so below 256, whatever the uninitialised count was, and every octet keeps that so. |
| `ArcsParser.FrameIsReceived` | controller/lib/arcs/arcs_common.c:361-423 | In one drain, octets without the head octet and then one frame leave the encoded message complete, whatever the buffers and the count held. |
| `ArcsParser.JunkIsIgnored` | controller/lib/arcs/arcs_common.c:361-423 | Octets before a head octet leave no trace. |
| `ArcsSplits.CompletedIsAFrame` | controller/lib/arcs/arcs_common.c:361-423 | A drain that begins between messages and ends with one complete has drained the whole frame of that message, followed by nothing but repeats of its check octet. |
| `ArcsSplits.RestIsReceived` | controller/lib/arcs/arcs_common.c:342-427 | A frame of which j octets are taken when a drain ends is complete as sent after the next drain if and only if j is inside the header or the octets rejoin: the places the count skips hold the right octets, the data repeats with that distance, and the data octets too many equal the check octet. |
| `ArcsSplits.SplitFrame` | controller/lib/arcs/arcs_common.c:342-431 | A frame cut anywhere and read by two calls arrives as sent if and only if the interval does not run out at the end of the first and the cut is inside the header or the octets rejoin; the condition speaks of the buffer before the calls, the frame and the starting count. |
| `ArcsSplits.SplitForEveryCount` | controller/lib/arcs/arcs_common.c:342-431 | It arrives for every starting count if and only if the cut is inside the header and in time, or nothing came in the first call. |
| `ArcsSplits.SplitIsMisread` | controller/lib/arcs/arcs_common.c:402-420 | A count in between can complete a message with other data than was sent: sent A8 00, received 00 A8. |
| `ArcsRuns.EveryRunIsSafe` | controller/lib/arcs/arcs_common.c:342-431 | In every run, for any count at every call, a message handed over passed its test, was completed by the event just before, more than the silence time ago, with no octet in between; so no completion is handed over twice. |
| `ArcsRuns.FrameIsDelivered` | controller/lib/arcs/arcs_common.c:342-431 | Junk and one frame in a call, calls with nothing to read, and a call after the silence time: the last hands over the encoded message. |
| `ArcsRuns.QuietCalls` | controller/lib/arcs/arcs_common.c:342-431 | Calls with nothing to read before the silence time keep a complete message and hand over nothing. |
| `ArcsRuns.LateCall` | controller/lib/arcs/arcs_common.c:345-358 | The call after the silence time hands the message over and leaves the parser between messages. |
| `ArcsRuns.QuietKeepsPlace` | controller/lib/arcs/arcs_common.c:345-358 | A call with nothing to read restarts the interval while a message waits to be handed over. |
| `ArcsCommon.TArcsPro.QtCharMsgPro` | controller/lib/arcs/arcs_common.c:342-431 | The routine on its fields and its ring does what the abstract call does, and leaves the ring empty. |
| `ArcsCommon.TArcsPro.TakeChar` | controller/lib/arcs/arcs_common.c:361-423 | One turn of the drain is the abstract octet. |
| `ArcsCommon.TArcsPro.DrainRing` | controller/lib/arcs/arcs_common.c:361-423 | The loop drains exactly the octets waiting, in order. |
| `ArcsReplies.AllAnswered` | controller/lib/arcs/arcs_process.c:66-192 | A query for all gets exactly one reply without data, with its own number and command: busy if and only if reports are waiting, and then nothing is queued; otherwise the reports of all endpoints that find memory are queued, as far as there is room. |
| `ArcsReplies.OneAnswered` | controller/lib/arcs/arcs_process.c:194-322 | A query for one terminal gets exactly one reply: busy if and only if reports are waiting; else the address echoed, with no such id if and only if there is no such terminal; its report is queued exactly when it is found, with memory and room. |
| `ArcsReplies.RetransmissionAnswered` | controller/lib/arcs/arcs_common.c:462-478 | A command with the number of the last one executed is answered with its own number and command, and changes nothing. |
| `ArcsReplies.ResponseTaken` | controller/lib/arcs/arcs_common.c:443-467 | A response gets no answer, and frees the pump exactly when it answers a report. |
| `ArcsReplies.OtherCommand` | controller/lib/arcs/arcs_process.c:62-65 | A message of the query command that is not a query queues nothing and is not answered. |
| `ArcsReplies.ReportsBear` | controller/lib/arcs/arcs_process.c:168-179 | Every report is of the report type and bears the query command. |
| `ArcsReplies.AllRecordsQueued` | controller/lib/arcs/arcs_process.c:86-192 | With an empty queue, memory and room a query for all queues the records of all endpoints in list order. |
| `ArcsApp.ReportsCount` | controller/lib/arcs/arcs_process.c:86-192 | For any list of endpoints there are a third as many reports, rounded up, each within the buffer and its octet of length. |
| `ArcsApp.ReportsCarryTheList` | controller/lib/arcs/arcs_process.c:86-192 | The payloads of the reports together are the records of the endpoints in list order. |
| `ArcsApp.ReportsInSequence` | controller/lib/arcs/arcs_process.c:168-179 | All reports but the last hold three records; their numbers follow one another modulo 2^16. |
| `ArcsApp.NoReportIsDropped` | controller/lib/arcs/arcs_common.c:321-335 | In every run in which no query meets more endpoints than the exact bound of the queue, the reports asked for that found memory are those sent and those waiting, in order. |
| `ArcsApp.RoomIsExact` | controller/lib/arcs/arcs_common.c:63-70 | That no run drops a report holds for queries of up to n endpoints if and only if n is at most the maximum plus three less its remainder by three. |
| `ArcsApp.SendsArePaid` | controller/lib/arcs/arcs_common.c:264-335 | In every run the reports sent are at most one more than the responses to reports and the last timeouts of reports that came, and no more than those while the pump is free. |
| `ArcsApp.StopAndWaitExactly` | controller/lib/arcs/arcs_common.c:264-335 | In a run the pump is free only when the last report was answered or given up under its own number, if and only if everything that frees it bears the number of the last report sent: the code compares no numbers. |
| `ArcsApp.StaleAnswerFrees` | controller/lib/arcs/arcs_common.c:443-448 | In a run of seven endpoints the answer to the first report arrives twice and lets the third report go, while nothing answered the second. |
| `ArcsFlight.FlightRefines` | controller/lib/arcs/arcs_common.c:130-302 | Around the list of frames in flight the application makes one of its runs, so what holds of every run holds here. |
| `ArcsFlight.StuckExactly` | controller/lib/arcs/arcs_common.c:248-335 | In every run the pump never waits with no frame left to time out, if and only if the one frame it waits for is never taken by a response to another command and never lacks memory. |
| `ArcsFlight.StrayAnswerSticks` | controller/lib/arcs/arcs_common.c:443-467 | In a run a response to another command that bears the number of the report in flight takes it and leaves the pump waiting. |
| `ArcsFlight.StuckForEver` | controller/lib/arcs/arcs_common.c:248-335 | From then on nothing is sent, however the run goes on, until the host answers a report. |
| `ArcsFlight.TwoTimeoutsFree` | controller/lib/arcs/arcs_common.c:264-300 | While a frame is in flight, two timeouts of the first one free the pump. |
| `ArcsFlight.LandedIs` | controller/lib/arcs/arcs_common.c:449-467 | A response takes exactly the first frame of its number from flight, if there is one; no other message takes any. |
| `ArcsFlight.ExpiredIs` | controller/lib/arcs/arcs_common.c:264-300 | A timeout touches one frame: the first keeps it in flight once more, the second gives it up. |
| `ArcsFlight.TransmittedIs` | controller/lib/arcs/arcs_common.c:130-221 | The sending thread takes the reports in the order they were handed to it; each is the last in flight then, or lost for want of memory. |
| `ArcsApp.AskedIsQueued` | controller/lib/arcs/arcs_process.c:72-84 | A query is answered with reports only when none is waiting, and then all of them that find memory are queued. |
| `ArcsApp.RoomForReports` | controller/lib/arcs/arcs_common.c:63-70 | The queue holds the reports of n endpoints exactly up to the maximum plus three less its remainder by three. |
| `ArcsApp.RoomForHostUnits` | controller/lib/arcs/arcs_common.c:63-70 | Room for three endpoints beyond the maximum, as the comment has it, exists only when the maximum is a multiple of three. |
| `ArcsApp.OneTooMany` | controller/lib/arcs/arcs_common.c:520-522 | With more endpoints than the bound the queue is left full and reports are lost. |
| `ArcsApp.RetransmissionsRunOnce` | controller/lib/arcs/arcs_common.c:462-478 | A command and any number of retransmissions of it, with responses in between, are executed once together, unless the number is the last one executed. |
| `ArcsApp.NeighboursDiffer` | controller/lib/arcs/arcs_common.c:462-478 | No two commands executed one after the other bear the same number. |
| `ArcsApp.FirstCommand` | controller/lib/arcs/arcs_common.c:462-478 | A first command is executed exactly when its number is not 0. |
| `ArcsCommon.TArcsApp.PostEndpoints` | controller/lib/arcs/arcs_process.c:86-192 | The loop over the endpoints, filling one buffer in place, numbers exactly the reports of the list and posts those that find memory; a report without memory is lost and its number used. |
| `ArcsCommon.TArcsApp.AddEndpoint` | controller/lib/arcs/arcs_process.c:160-191 | A record joins the buffer behind the others; a full or last report is posted. |
| `ArcsCommon.TArcsApp.QueryAll` | controller/lib/arcs/arcs_process.c:66-192 | A query for all is answered, and rejected while reports wait. |
| `ArcsCommon.TArcsApp.QueryOne` | controller/lib/arcs/arcs_process.c:194-322 | A query for one terminal is answered with its report, with no such id, or rejected while reports wait. |
| `ArcsCommon.TArcsApp.QueryId` | controller/lib/arcs/arcs_process.c:48-325 | The query does what the abstract query does. |
| `ArcsCommon.TArcsApp.AppDataPro` | controller/lib/arcs/arcs_common.c:433-518 | A message handed over is acknowledged, answered again or executed, as the abstract step says; a response takes the first frame of its number from flight. |
| `ArcsCommon.TArcsApp.SearchFlight` | controller/lib/arcs/arcs_common.c:449-455 | The walk finds the first frame of a number. |
| `ArcsCommon.TArcsApp.SendPacket` | controller/lib/arcs/arcs_common.c:130-221 | A frame that is no response joins those in flight, as the abstract transmission of a report does, if there is memory and a list; without memory it is not sent. A response joins nothing. |
| `ArcsCommon.TArcsApp.QrPro` | controller/lib/arcs/arcs_common.c:321-335 | The pump sends the first waiting report when none is outstanding, and no other. |
| `ArcsCommon.TArcsApp.PacketTimeout` | controller/lib/arcs/arcs_common.c:248-301 | The first timeout of a frame keeps it in flight once more; the second removes it and, for a report, frees the pump. |
| `ArcsCommon.Process` | controller/lib/arcs/arcs_common.c:303-306 | One turn of the ARCS routine: parser, the message handed over, and the pump. |
| `AdpExpiry.RunTellsTheTruth` | controller/lib/end_station_manager/adp_controller_machine.c:31-105 | Over any run of ticks and advertisements on a list of any length, across wrap-arounds of the clock, a station is marked disconnected exactly when a tick came later than its advertised time, at the first such tick, once per expiry. |
| `AdpExpiry.FreshStaysConnected` | controller/lib/end_station_manager/adp_controller_machine.c:52-72 | A station advertised again before its time is up is never marked. |
| `AdpExpiry.SilentIsMarkedOnce` | controller/lib/end_station_manager/adp_controller_machine.c:52-72 | A silent station is left alone by every tick in time, marked by the first late one, and by no other. |
| `AdpExpiry.TimeTick` | controller/lib/end_station_manager/adp_controller_machine.c:52-72 | The loop over the list ticks every station once, each with its own reading of the clock. |
| `AdpExpiry.EndStation.StateAvail` | controller/lib/end_station_manager/adp_controller_machine.c:31-37 | An advertisement connects a known station again and restarts its timer. |
| `Wire.HeaderWrite` | lib/jdksavdecc/jdksavdecc_pdu.c:65-83 | A header that fits becomes twelve octets, whatever the buffer held; nothing else changes. |
| `Wire.HeaderRead` | lib/jdksavdecc/jdksavdecc_pdu.c:45-63 | A header that fits is read as those octets say. |
| `Wire.HeaderTrip` | lib/include/jdksavdecc/jdksavdecc_pdu.h:342-423 | The fields in their widths and the octets of a header determine each other, in both directions. |
| `Wire.SettersReplaceAll` | lib/include/jdksavdecc/jdksavdecc_pdu.h:163-271 | The bit-field setters together replace every bit of the first four octets. |
| `Wire.Uint32There` | lib/include/jdksavdecc/jdksavdecc_util.h:189-218 | A 32-bit number stored is read back. |
| `Wire.Uint16Trip` | lib/include/jdksavdecc/jdksavdecc_util.h:150-175 | 16-bit numbers and pairs of octets determine each other. |
| `Pdus.AcmpWrite` | lib/include/jdksavdecc/jdksavdecc_acmp.h:630-649 | The fields of an ACMPDU written in order are its 56 octets; nothing else changes, and nothing at all when they do not fit. |
| `Pdus.AcmpRead` | lib/include/jdksavdecc/jdksavdecc_acmp.h:595-616 | The fields are read as the octets say, or left alone when the buffer is too short. |
| `Pdus.AcmpTrip` | lib/include/jdksavdecc/jdksavdecc_acmp.h:595-649 | ACMPDUs with header fields in range and 56 octets determine each other. |
| `Pdus.AcmpReadAfterWrite` | lib/include/jdksavdecc/jdksavdecc_acmp.h:595-649 | At any position of any buffer, reading after writing is the identity on in-range fields. |
| `Layouts.AcmpLayout` | lib/include/jdksavdecc/jdksavdecc_acmp.h:595-649 | Which of the 56 octets holds which field, numbers with the high octet first. |
| `Layouts.HeaderLayout` | lib/include/jdksavdecc/jdksavdecc_pdu.h:342-423 | Which bits of the first four octets hold which field of the header. |
| `Adpdus.AdpWrite` | lib/include/jdksavdecc/jdksavdecc_adp.h:830-853 | The fields of an ADPDU written in order, with the four octets of reserved0 partly overwritten by its neighbour. |
| `Adpdus.AdpRead` | lib/include/jdksavdecc/jdksavdecc_adp.h:791-815 | The fields are read as the octets say. |
| `Adpdus.AdpReadAfterWrite` | lib/include/jdksavdecc/jdksavdecc_adp.h:791-853 | Reading after writing is the identity on every field but reserved0, whose low octet is the high octet of identify_control_index. |
| `Adpdus.Reserved0Survives` | lib/include/jdksavdecc/jdksavdecc_adp.h:607-613 | reserved0 is read back exactly when it has 24 bits and its low octet equals that high octet. |
| `Adpdus.AdpOctetsBack` | lib/include/jdksavdecc/jdksavdecc_adp.h:791-853 | Writing what was read gives the 68 octets back but for the one in front of reserved0, which becomes the first octet of the PDU: all of them exactly when those two agree. |
| `Layouts.AdpLayout` | lib/include/jdksavdecc/jdksavdecc_adp.h:791-853 | Which of the 68 octets holds which field, the overlap of reserved0 included. |
| `Aecpdus.AemWrite` | lib/include/jdksavdecc/jdksavdecc_aecp_aem.h:237-246 | Header, controller, sequence and command type become 24 octets. |
| `Aecpdus.AemRead` | lib/include/jdksavdecc/jdksavdecc_aecp_aem.h:210-221 | They are read as the octets say. |
| `Aecpdus.AemTrip` | lib/include/jdksavdecc/jdksavdecc_aecp_aem.h:210-246 | AEM PDUs with header fields in range and 24 octets determine each other. |
| `Aecpdus.CommonTrip` | lib/include/jdksavdecc/jdksavdecc_aecp.h:231-271 | So do AECPDUs and 22 octets. |
| `Layouts.AemLayout` | lib/include/jdksavdecc/jdksavdecc_aecp_aem.h:210-246 | Which of the 24 octets holds which field. |
| `AvdeccForms.AcmpFormMsg` | controller/lib/avdecc/acmp.c:30-74 | The frame formed carries the filled-in PDU and nothing of the caller's but what is left alone. |
| `AvdeccForms.AcmpCheckListener` | controller/lib/avdecc/acmp.c:76-156 | Zero exactly for an ACMP frame of a receiver response whose ids agree, null and zero ids being wildcards. |
| `AvdeccForms.AcmpFormedIsAccepted` | controller/lib/avdecc/acmp.c:30-156 | A formed frame is accepted if and only if it is one of the three receiver responses and controller, sequence, listener and unique id agree. |
| `AvdeccWire.AcmpDecoded` | controller/lib/avdecc/acmp.c:30-74 | What the reader makes of a formed ACMP frame, field by field: talker, listener, their numbers, connection count, sequence and type are the arguments; the controller is the sender's address with FF FE in the middle; stream id, destination address, flags, VLAN and the reserved field are the caller's; the frame goes to the multicast address. |
| `AvdeccWire.AcmpOnWire` | controller/lib/avdecc/acmp.c:30-74 | The same frame octet by octet; behind the 56 octets the payload is as it was. |
| `AvdeccWire.AcmpAcceptedMeans` | controller/lib/avdecc/acmp.c:76-156 | Of any frame, in terms of its octets: accepted if and only if it is an ACMP message to the multicast address, long enough, one of the three responses a listener sends, with the ids and numbers asked for at their places. |
| `AvdeccForms.AemFormMsg` | controller/lib/avdecc/aecp.c:29-77 | The frame formed carries the PDU and the command payload; a payload that does not fit is reported and left out. |
| `AvdeccForms.AemCheck` | controller/lib/avdecc/aecp.c:234-270 | Zero exactly for an AEM response with the expected ids and sequence. |
| `AvdeccForms.AemFormedIsAccepted` | controller/lib/avdecc/aecp.c:29-270 | A formed frame is accepted if and only if it is an AEM response and controller, target and sequence agree, unless the payload length overflows eleven bits. |
| `AvdeccWire.AemOnWire` | controller/lib/avdecc/aecp.c:29-77 | A formed AEM frame octet by octet: the arguments and the sender in 24 octets, then the command payload if it fits, which the length of the frame counts then. |
| `AvdeccWire.AemAcceptedMeans` | controller/lib/avdecc/aecp.c:234-270 | Of any frame, in terms of its octets: accepted if and only if it is long enough, an AEM response of version 0 whose length counts twelve octets at least, with the three ids asked for. |
| `AvdeccForms.FittingLength` | controller/lib/avdecc/aecp.c:66-71 | A payload that fits the frame never overflows them. |
| `Appdus.AppWrite` | lib/jdksavdecc/jdksavdecc_app.c:102-153 | The return code and the buffer in every case, the late errors included. |
| `Appdus.AppRead` | lib/jdksavdecc/jdksavdecc_app.c:36-100 | The return code and the fields in every case. |
| `Appdus.AppReadAfterWrite` | lib/jdksavdecc/jdksavdecc_app.c:36-153 | At any position a message that could be written is read back with its fields exactly when its version is 0, and its payload with them exactly when the octets twelve from the start of the buffer coincide with it, as they do at position 0 and for an empty payload. |
| `Layouts.AppLayout` | lib/jdksavdecc/jdksavdecc_app.c:102-153 | Which octet of a proxy PDU holds which field, and the payload behind them. |
| `Layouts.AppWritable` | lib/jdksavdecc/jdksavdecc_app.c:102-153 | A PDU can be written if and only if it fits, its type is known, and its payload is there and not too long. |
| `Layouts.AppReadable` | lib/jdksavdecc/jdksavdecc_app.c:36-100 | A PDU can be read if and only if it fits and version, type and length are known; otherwise which error it is. |
| `Layouts.AppFieldsMean` | lib/jdksavdecc/jdksavdecc_app.c:36-100 | What a reader leaves in the structure in every case, errors included. |
| `EthFrame.FrameWrite` | lib/jdksavdecc/jdksavdecc_frame.c:85-120 | The return code and the buffer in every case, tagged and untagged, at any position, which the last range check counts twice. |
| `EthFrame.FrameRead` | lib/jdksavdecc/jdksavdecc_frame.c:36-83 | The return code and the fields in every case. |
| `EthFrame.FrameReadAfterWrite` | lib/jdksavdecc/jdksavdecc_frame.c:36-120 | A frame that could be written is read back exactly when it begins at the start of the buffer and is tagged, or has no tag field set and a type other than 8100. |
| `Layouts.FrameLayout` | lib/jdksavdecc/jdksavdecc_frame.c:85-120 | Which octet of a frame holds addresses, tag, type and payload. |
| `Layouts.FrameWritten` | lib/jdksavdecc/jdksavdecc_frame.c:85-120 | A frame that can be written stands at its position; of another the header is written as far as it fits; nothing else is touched. |
| `Layouts.FrameCode` | lib/jdksavdecc/jdksavdecc_frame.c:85-120 | It can be written if and only if twice the position, the header and the payload fit. |
| `Layouts.FrameFieldsMean` | lib/jdksavdecc/jdksavdecc_frame.c:36-83 | What a reader makes of the octets, tagged or untagged, and which of the payload it keeps. |
| `EuiText.ParsesSpellings` | lib/jdksavdecc/jdksavdecc_util.c:86-96 | The parser succeeds exactly on spellings of an identifier, in either case and with either delimiter, and yields what is spelled, whatever the identifier held. |
| `EuiText.InitFromCstr` | lib/jdksavdecc/jdksavdecc_util.c:86-96 | The chain of calls parses octet by octet and stops at the first fault. |
| `EuiText.ParseByte` | lib/jdksavdecc/jdksavdecc_util.c:36-68 | Two digits replace what the octet held. |
| `EuiText.Printer.PrintEui64` | lib/jdksavdecc/jdksavdecc_print.c:182-199 | The chain of bounded prints appends what has room, and writes nothing beyond the buffer's size. |
| `EuiText.Printer.PrintHexdigits` | lib/jdksavdecc/jdksavdecc_print.c:87-95 | Two digits are appended when more than three places are left, and a final zero behind them. |
| `EuiText.Printer.Printc` | lib/include/jdksavdecc/jdksavdecc_print.h:122-129 | A character is appended when more than two places are left. |
| `EuiText.PrintedInFull` | lib/jdksavdecc/jdksavdecc_print.c:182-199 | An identifier is printed in full exactly when 25 places are left. |
| `EuiText.PrintedSpells` | lib/jdksavdecc/jdksavdecc_print.c:201-218 | What is printed, as an EUI-64 or as a stream id, is a spelling of it. |
| `EuiText.PrintedIs` | lib/jdksavdecc/jdksavdecc_print.c:182-218 | Eight pairs of upper-case digits, the high digit first, with the separators of an EUI-64 or of a stream id in between. |
| `EuiText.DigitsAre` | lib/jdksavdecc/jdksavdecc_util.c:36-60 | The sixteen digits have the values 0 to 15 in either case. |
| `EuiText.OnlyDigits` | lib/jdksavdecc/jdksavdecc_util.c:36-60 | Nothing else is a digit. |
| `EuiText.PrintsFit` | lib/jdksavdecc/jdksavdecc_print.c:87-95 | A character is printed exactly when three places are left, two digits exactly when four are. |
| `EuiText.FaultLeaves` | lib/jdksavdecc/jdksavdecc_util.c:36-68 | What a fault in either digit leaves of the octet. |
| `EuiText.FaultStops` | lib/jdksavdecc/jdksavdecc_util.c:86-96 | When parsing fails there is a first group at fault: those before it are spelled, the octets behind it are as they were. |
| `EuiText.PrintThenParse` | lib/jdksavdecc/jdksavdecc_print.c:182-218 | Printing with room enough and then parsing gives the identifier back. |

## Left out

- Threads inside a locked region: a region under one lock is one atomic step. The scan holds one queue's lock
  from the pop to the post back, which is one step of the model.
- `MicManager.MicTask.MicManagerTask`: within one call of the routine only the callbacks make calls; the calls
  other threads make between its regions are steps of `MicModel`, and are not interleaved with the method. The
  event is freed before the callback rather than after it, which lets a callback's allocation reuse its address.
- `MicManager.MicTask.DispatchMic`: the link state, the system state and the answer of the command function are
  parameters; the calls themselves, and the log messages, are not modelled.
- `MicManager.MicTask.RequestEvent`: a queued request holds its terminal as a value. The code keeps a pointer and
  reads the entity id and the address behind it at every dispatch and walk, so a change of either while the
  request is queued is not modelled.
- `MicManager.MicTask.PostAcmpEvent`: ACMP events are values; their allocation and release are not modelled.
- `MicManager.MicTask.RegisterCallBack`: a negative owner, which the code does not look for, is excluded.
- `MicResults.ResultsAreOwn`: the commands that other parts of the controller issue are not modelled; their
  responses are events like any others.
- `ArcsCommon.TArcsApp.PostEndpoints`: reports are queued as values. The list of endpoints is a sequence, so a list
  that ends in a null pointer instead of its guard, whose last report the code forgets, does not occur.
- `ArcsCommon.TArcsApp.QueryAll`: the lookups that fill the 78 octets of a record are not modelled; a record is
  given. Numbers in packed structures are little-endian, as on the machine the program runs on.
- `ArcsCommon.TArcsApp.QueryOne`: whether the terminal is found, and its record, are given.
- `ArcsCommon.TArcsApp.QueryId`: as for the two queries; a null message, which its caller never passes, is excluded.
- `ArcsCommon.TArcsApp.AppDataPro`: what the other four commands do is not modelled.
- `ArcsCommon.TArcsApp.SendPacket`: the sending thread that calls it is not modelled. The list holds the frames of
  this protocol only; those of others are never found by its head octet. A command without a time to wait, which
  the program never sends, is excluded.
- `ArcsCommon.TArcsApp.PacketTimeout`: when a timeout comes is not modelled; any frame may time out at any moment.
- `ArcsFrame.ProtocalQtFill`: a data length beyond the buffer, which the code does not compare with the buffer's
  size, is excluded for the caller; null arguments are not modelled here or elsewhere.
- `AdpExpiry.EndStation.StateAvail`: it includes the one assignment its caller, the packet handler in
  `controller/lib/packet_events/handle_1722_packet_from_raw.c`, makes just before: a disconnected station counts
  as connected again. New stations, departing stations and the rest of the packet handler are not
  modelled.
- `AdpExpiry.RunTellsTheTruth`: a tick that comes 2^32 ms or more after the advertisement it judges is excluded;
  the 32-bit difference cannot tell.
- `EthFrame.FrameRead`: only buffers that reach as far as the code copies, and whose payload fits the 640 octets
  of the structure; the code compares neither. The time stamp is left out.
- `EuiText.Printer.PrintEui64`: the other printers, and the EUI-48 parser, which asks for a delimiter behind the last
  octet, are left out.
- `Wire.HeaderTrip`: the getter of the control data length in the subtype data, which adds two octets instead of
  joining them, is not used by the header and is left out. Negative positions are left out.
- Sockets, raw Ethernet, serial ports, menus, files, databases, descriptors, cameras, votes and the waiting of
  the sending thread: input and output around the modelled parts.
