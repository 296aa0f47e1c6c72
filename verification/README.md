# A verified model of the load-balancing TCP client library

The library sends requests to one of several peers and hands each reply to the callback registered
for its transaction id. This project models its stateful core in Dafny and proves what the code
promises about it.

- The **session table and message queue** of `task.c`. `IdList` and `MsgList` are the two linked lists
  on the heap, relinked in place as the C code does it, each routine proved against a function of the
  list's contents. `SessionTable` and `MessageQueue` are those functions, with the map the id list
  stands for and the per-connection queues the message list stands for. `RoundRobin` is the probe loop
  over the peers, `PushPath` the push that ties the three together, `SessionRuns` whole runs of pushes,
  pops, sweeps and removals. `Timeval` is the clock arithmetic.
- The **receive workers** of `work.c` (`Dispatch`): lookup, callback and removal as separate steps,
  interleaved with pushes and sweeps. `DispatchConditions` says exactly when these steps do what their
  callers want.
- The **thread pool** of `tpool.h` (`ThreadPool`) over the **blocking queue** of `safeqtempl.h`
  (`SafeQueue`).
- The **work queue** of `workev.c` (`WorkQueue`), and its intrusive job list (`JobList`).
- The **wire format**: `Decimal` and `Framing` for the length header, `send_to_fd` and
  `receive_from_fd`; `XmlFields` for `parse_xml_attribute`.
- `Sums` and `Options` are shared helpers.

Sequential code that changes state is imperative Dafny: classes with the C structures' fields, methods
with loops. Code whose point is the interleaving of threads is a state machine with one action for
each atomic step; a theorem about it quantifies over all runs, which are arbitrary sequences of enabled
actions. What a mutex protects is one step, except in `WorkQueue`, where the flags are read under the
mutex but written without it and each test is a step of its own. Clock readings, peer states and the
outcomes of system calls are parameters.

`dafny verify dfyconfig.toml` checks everything.

## Where the code and its purpose part

The model keeps the code as it is. Where that breaks a property, the exact condition is proved.

- `pop_from_msgq` hands out a matching tail behind the head without unlinking it (both link updates
  are guarded by `temp->next`). `MsgQueue.Pop` proves that the list stays well formed exactly
  otherwise; `LiteralPopConservesIffNoTail` and `LiteralPopConservesIffOnePeer` say what that means
  for runs. `MsgQueue.PopRepaired` unlinks the tail too; it differs from the code in that branch only,
  and `RepairedPopConserves` is about it.
- The mutex is released between a reply's lookup and its removal. A second lookup in between leads to
  two callbacks of one entry (`OverlappingLookupCallsTwice`), a push in between is forgotten with the
  entry (`PushDuringDispatchIsForgotten`). `LookupSafeIffNotDispatching` and
  `PushHonouredIffNotDispatching` prove the exact condition for both: no worker is dispatching the id.
- `update_entry_idq` refreshes an expired entry's times but not its mark. The timeouts reported after a
  push are honest exactly if the entry was not marked before it (`RepushHonestIffUnmarked`, and
  `TimeoutsHonestIffUnmarked` for everything that can follow).
- `LL_ADD` never sets the old head's predecessor link, so `LL_REMOVE` takes out the head only; that is
  all the worker asks of it (`JobStack.Remove`, `JobStack.TakeHead`).
- `start` on a pool that is already running waits forever (`RestartNeverReturns`).
- A field with an empty value is reported as not found, since the character after a start tag is
  skipped unread (`ParseReadsFields`).
- A short header read that fails the errno test is parsed as it is. `HeaderReading` says from the
  outcomes of recv when that happens (`Cut`); a message is recovered exactly if it does not (`ReceiveNext`).
- With all peers down the probe loop goes on for ever (`ProbesForeverIffAllDown`).

## Model

| member | source | states |
|---|---|---|
| Timeval.ElapsedRounding | mod_tcpclient/src/task.c:183 | the formula rounds the true difference down when the reading's microseconds are not below the access time's, and up when they are not above: seconds in full, microseconds truncated toward zero as in C |
| Timeval.ElapsedIsDetermined | mod_tcpclient/src/task.c:183 | no other value meets that |
| Timeval.ElapsedWithinOneMsec | mod_tcpclient/src/task.c:183 | so it is within one millisecond of the true difference, for all times |
| Timeval.ElapsedMonotone | mod_tcpclient/src/task.c:182-184 | a later clock reading never gives a smaller elapsed time, across second boundaries too |
| Timeval.ElapsedNonNegative | mod_tcpclient/src/task.c:182-184 | with the clock not before the access time the result is not negative |
| Timeval.BeforeComparesMicros | mod_tcpclient/src/task.c:286 | the sweep's field-by-field test is the comparison of the times |
| Timeval.ExpiredMeansElapsed | mod_tcpclient/src/task.c:240-242 | an entry a sweep finds expired has at least 30000 ms behind it at every later lookup |
| Timeval.NotExpiredBoundsElapsed | mod_tcpclient/src/task.c:286-289 | an entry a sweep leaves alone has at most 30000 ms, the time since the sweep and the rounding behind it |
| RoundRobin.Balancer.Assign | mod_tcpclient/src/task.c:247-260 | with a peer up, the probe loop ends after at most num_peers probes at the first up peer in cyclic order, and leaves the cursor one past it |
| RoundRobin.SuccIsNextAroundTheRing | mod_tcpclient/src/task.c:258-260 | the increment with its wrap is the next position modulo num_peers |
| RoundRobin.ProbesForeverIffAllDown | mod_tcpclient/src/task.c:248-257 | however long it probes, the loop meets no peer that is up, if and only if every peer is down |
| RoundRobin.FairRound | mod_tcpclient/src/task.c:247-260 | for a fixed set of up peers, as many consecutive assignments as there are up peers hit each of them exactly once, from any cursor |
| RoundRobin.FairWindow | mod_tcpclient/src/task.c:247-260 | in any window an up peer gets one id for each full round or one more, a peer that is down none |
| RoundRobin.LoadsDifferByAtMostOne | mod_tcpclient/src/task.c:247-260 | in any window the loads of two up peers differ by at most one |
| SessionTable.AddRefinesMap | mod_tcpclient/src/task.c:261-271 | appending an entry for an absent id is map insertion and keeps ids unique |
| SessionTable.UpdateRefinesMap | mod_tcpclient/src/task.c:200-220 | refreshing a present id is map update: times and callback change, connection and mark do not, nor any other id |
| SessionTable.RemoveRefinesMap | mod_tcpclient/src/task.c:296-328 | removal is map removal, whether or not the id is present |
| SessionTable.SweepRefinesMap | mod_tcpclient/src/task.c:274-293 | a sweep sets exactly the marks of entries expired at the reading taken at them, and changes nothing else |
| IdList.IdTable.IsPresent | mod_tcpclient/src/task.c:138-161 | the walk finds an id exactly if it is nonempty and in the list, with its connection; otherwise the caller's connection stays |
| IdList.IdTable.Lookup | mod_tcpclient/src/task.c:163-197 | a found id gives its elapsed time and the snapshot of its mark and callback pair; otherwise 0 |
| IdList.IdTable.Update | mod_tcpclient/src/task.c:200-220 | the list afterwards is the refreshed one; the three return values are told apart |
| IdList.IdTable.Add | mod_tcpclient/src/task.c:222-272 | an empty id is refused without a probe; any other is appended with the chosen connection, and the next chain stays well formed |
| IdList.IdTable.ListExpired | mod_tcpclient/src/task.c:274-293 | the list afterwards is the swept one |
| IdList.IdTable.Remove | mod_tcpclient/src/task.c:296-328 | unlinks the first node with the id, or none, on the next chain alone |
| MsgList.MsgQueue.Append | mod_tcpclient/src/task.c:360-369 | the node becomes the tail; prev and next stay inverse to each other |
| MsgList.MsgQueue.Pop | mod_tcpclient/src/task.c:373-409 | returns the first node of the connection, detached; the list stays well formed, and the node leaves it, if and only if the match is not a tail behind the head |
| MsgList.MsgQueue.PopRepaired | mod_tcpclient/src/task.c:373-409 | with the tail unlinked as well the list always stays well formed and the node is gone |
| MessageQueue.WithoutFirstPerConn | mod_tcpclient/src/task.c:387-405 | taking a connection's first message takes the head of its own sequence and leaves every other connection's sequence alone |
| PushPath.Session.ConnectionFor | mod_tcpclient/src/task.c:350-358 | a known id keeps its connection and is refreshed, a new one gets the round-robin choice; the jump back to adding is never taken |
| PushPath.Session.PushToMsgq | mod_tcpclient/src/task.c:330-370 | the whole push on the heap does what the push on values does (`PushQueuesMessage`), and drops an empty id; the nodes of both lists are the old ones or new ones |
| PushPath.Session.PopFromMsgq | mod_tcpclient/src/work.c:271-273 | the sender's pop takes the connection's oldest message; the session stays well formed exactly if it is no tail behind the head |
| PushPath.Session.Sweep | mod_tcpclient/src/work.c:534-536 | the sweep changes the table only, to the swept one, and the session stays good |
| PushPath.Session.RemId | mod_tcpclient/src/work.c:145-147 | the removal changes the table only, and the session stays good |
| PushPath.PushKeepsOk | mod_tcpclient/src/task.c:330-370 | a push keeps ids unique and nonempty, connections and cursor in range |
| PushPath.PushQueuesMessage | mod_tcpclient/src/task.c:330-370 | a push of any nonempty id, known or new, puts exactly one message behind the queue, with the id, length and data given and the connection of the id's entry after the push; as a map the table changes at the id only, to the fresh or refreshed entry |
| SessionRuns.StepKeepsOk | mod_tcpclient/src/work.c:270-293 | so does every operation, hence every run |
| SessionRuns.Execute | mod_tcpclient/src/task.c:330-409 | the heap routines called one after the other carry out every run: final table, queue, cursor and popped messages are the run's, and the lists stay well formed unless a pop takes a tail |
| SessionRuns.ExecuteFromStart | mod_tcpclient/src/task.c:330-409 | so it is from a new session, where the theorems about runs from the start apply |
| SessionRuns.RoutedIsRequested | mod_tcpclient/src/task.c:360-369 | over every run the routed messages are, in order and with their ids, lengths and data, the pushes of nonempty ids among the operations, all of them unless a pop has taken a tail |
| SessionRuns.PopHandsOutOldest | mod_tcpclient/src/task.c:373-409 | a pop, as written or repaired, hands out the connection's oldest queued message if there is one, and no other connection's |
| SessionRuns.StepOnTable | mod_tcpclient/src/task.c:274-328 | in a run, sweeps mark, removals remove, and pops leave the table alone, as a map |
| SessionRuns.LiteralPopConservesIffNoTail | mod_tcpclient/src/task.c:389-405 | over every run of the code as written, each connection's popped messages followed by its queued ones are what was routed to it, in order, if and only if no pop took a tail behind the head; what was routed is what the pushes asked for |
| SessionRuns.LiteralPopConservesIffOnePeer | mod_tcpclient/src/task.c:389-405 | all runs with n peers are conserved if and only if n is one |
| SessionRuns.LiteralPopCanDuplicate | mod_tcpclient/src/task.c:394-397 | with two peers or more, two pushes and a pop hand out a message that stays queued |
| SessionRuns.RepairedPopConserves | mod_tcpclient/src/task.c:330-409 | with the tail unlinked too, everything the pushes of a run ask for is handed out or queued, once and in order per connection |
| SessionRuns.OneConnectionPerLife | mod_tcpclient/src/task.c:350-358 | from the push that creates an id's entry until its removal every message of the id goes to one connection, whatever else is pushed, popped, swept or removed and however peer states change |
| Dispatch.StepKeepsInv | mod_tcpclient/src/work.c:132-147 | as long as no lookup finds an id being dispatched, an entry being dispatched stays live and with one worker until that worker removes it |
| Dispatch.AtMostOneCallbackPerEntry | mod_tcpclient/src/work.c:132-147 | under that guard every created entry gets at most one callback over every interleaving |
| Dispatch.AtMostOneCallbackWhenRouted | mod_tcpclient/src/work.c:132-147 | replies that arrive on the connection of their entry meet the guard, so each entry gets at most one callback |
| Dispatch.EachFindCallsOnce | mod_tcpclient/src/work.c:132-147 | over every run, each lookup that finds an entry leads to exactly one callback with what it found, made or still owed by its worker, and there is no other callback |
| Dispatch.RegisteredAlong | mod_tcpclient/src/task.c:210-217 | the registrations of a run are its pushes of nonempty ids, in order, with function, parameter and time |
| Dispatch.CallbackWasRegistered | mod_tcpclient/src/work.c:215-230 | over every run, on whatever connection replies arrive, a callback uses the function and parameter of one push of its id, the entry's access time is that push's, and no push of the id lies between it and the lookup |
| Dispatch.ReportedTimesAreTruthful | mod_tcpclient/src/work.c:139-144 | over every run and for both outcomes, the elapsed time is that from the latest push to the lookup within one millisecond, and a timeout is reported if and only if the entry was marked when it was last pushed or found expired by a sweep since; in the second case at least 30000 ms have passed. A reply in time comes within 30000 ms, the time since the sweep that left its entry alone and the rounding, or, for an entry pushed after the last sweep, the time since that sweep and the rounding |
| Dispatch.LastReadingAlong | mod_tcpclient/src/work.c:526-540 | the sweep these bounds speak of is the latest one of the run since the push, with the reading taken at the entry |
| Dispatch.LastSweepAlong | mod_tcpclient/src/work.c:526-540 | and the last sweep of all is the latest one of the run |
| Dispatch.StepKeepsLife | mod_tcpclient/src/task.c:350-358 | an entry keeps its life until its removal, and a created one gets a new one |
| DispatchConditions.LookupSafeIffNotDispatching | mod_tcpclient/src/work.c:132-147 | after a lookup, calls stay one to an entry in every continuation that meets the guard, if and only if no worker is dispatching the id at the lookup, before or after its own callback |
| DispatchConditions.OverlappingLookupCallsTwice | mod_tcpclient/src/work.c:132-147 | the continuation with two callbacks of one entry, after any lookup of an id being dispatched |
| DispatchConditions.PushHonouredIffNotDispatching | mod_tcpclient/src/work.c:141-147 | whatever follows short of another push of the id, the pushed function and parameter stay live or are called back, if and only if no worker is dispatching the id at the push |
| DispatchConditions.PushDuringDispatchIsForgotten | mod_tcpclient/src/work.c:141-147 | otherwise the dispatching worker's remaining steps leave no entry and no callback of the push |
| DispatchConditions.RepushHonestIffUnmarked | mod_tcpclient/src/task.c:210-214 | after a push of a live id a lookup at any reading reports no timeout before 30000 ms, if and only if the entry was not marked before the push |
| DispatchConditions.TimeoutsHonestIffUnmarked | mod_tcpclient/src/task.c:210-214 | the same for every later lookup before another push of the id, whatever else happens, and for new ids |
| Dispatch.ListPushNewRefines | mod_tcpclient/src/task.c:357-358 | the list append is the step for a new id |
| Dispatch.ListPushKnownRefines | mod_tcpclient/src/task.c:351-355 | the list refresh is the step for a known id |
| Dispatch.ListSweepRefines | mod_tcpclient/src/work.c:526-540 | the list sweep is the sweep step |
| Dispatch.ListRemoveRefines | mod_tcpclient/src/work.c:145-147 | the list removal is the removal step |
| Dispatch.ListLookupRefines | mod_tcpclient/src/task.c:163-197 | a lookup of a live id gives the worker exactly the list lookup's elapsed time, mark and callback pair at that reading; one of an absent id leaves it waiting; the table stays as it is |
| Dispatch.LookupOnList | mod_tcpclient/src/work.c:132-134 | so the heap routine's results are what the worker goes on with |
| SafeQueue.ThreadsafeQueue.PushBack | mod_tcpclient/include/safeqtempl.h:120-129 | in whatever state the consumers are, it is the push step of the protocol, and keeps the queue first in, first out |
| SafeQueue.ThreadsafeQueue.PopFront | mod_tcpclient/include/safeqtempl.h:82-94 | one turn of its loop is the test step of the protocol: it waits exactly if all that came in has left, and otherwise the k-th item to leave is the k-th that came in |
| SafeQueue.ThreadsafeQueue.Clear | mod_tcpclient/include/safeqtempl.h:148-157 | is the clearing step; all that came in has left |
| SafeQueue.StepKeepsInv | mod_tcpclient/include/safeqtempl.h:83-94 | while a consumer sleeps, every queued item has a consumer about to test or a notification on its way, for any number of consumers and with spurious wakeups; items leave in the order they came |
| SafeQueue.FirstInFirstOut | mod_tcpclient/include/safeqtempl.h:82-129 | over every run with any number of consumers, what has left the queue followed by what is in it is what was pushed, in order |
| SafeQueue.SoleConsumerIsWoken | mod_tcpclient/include/safeqtempl.h:120-129 | with one consumer, as in a pool worker, a pop asleep over a queued item has its notification still to come |
| ThreadPool.StepKeepsInv | mod_tcpclient/include/tpool.h:74-173 | the protocol's invariant: queue discipline of every worker, who has a thread at which point of start and end, placement of tasks by hash |
| ThreadPool.EveryPushIsAccountedFor | mod_tcpclient/include/tpool.h:154-173 | over every run and for each task and hash, the calls of push are those refused for want of threads, those still to send their task, and the tasks accepted by the workers |
| ThreadPool.EveryPushHasRunOnce | mod_tcpclient/include/tpool.h:143-152 | when end() has returned, each call of push has run exactly once, but for those refused and those that have just come in and will be |
| ThreadPool.EndLeavesNothingBehind | mod_tcpclient/include/tpool.h:143-152 | in every interleaving, when end() has returned the tasks sent to a worker have all run there, once each and in the order sent, no thread is left and a queue holds at most one no-op |
| ThreadPool.StartGivesNThreads | mod_tcpclient/include/tpool.h:125-141 | when start(n) returns the pool has n threads, all in their loops |
| ThreadPool.EndGivesNoThreads | mod_tcpclient/include/tpool.h:143-152 | when end() returns it has none, and the flag is set |
| ThreadPool.LateNoopStaysQueued | mod_tcpclient/include/tpool.h:99-103 | a thread done before its no-op was pushed leaves the no-op behind |
| ThreadPool.RunsInPushOrder | mod_tcpclient/include/tpool.h:80-90 | at every moment a worker's runs are a prefix of its pushes, and the tasks among them of those sent to it by the pushers' steps |
| ThreadPool.SameHashSameWorker | mod_tcpclient/include/tpool.h:163-173 | between a start and the next end, tasks with the same hash are at the same worker |
| ThreadPool.NeverStuck | mod_tcpclient/include/tpool.h:99-103 | while start or end holds the lock it can step, or the thread it joins can: no pop of that thread blocks |
| ThreadPool.MeasureDecreases | mod_tcpclient/include/tpool.h:80-90 | every step of anyone then lowers a measure over queue lengths and program counters |
| ThreadPool.StartAndEndReturn | mod_tcpclient/include/tpool.h:125-152 | start of a stopped pool and end return within that many steps under every schedule |
| ThreadPool.RestartNeverReturns | mod_tcpclient/include/tpool.h:134-140 | start of a running pool never returns |
| WorkQueue.StepKeepsInv | mod_tcpclient/withlibev/src/workev.c:23-50 | mutual exclusion, what the mutex holder knows, flags, wakeups and jobs are kept by every step |
| WorkQueue.SleepersLeaveEnoughAwake | mod_tcpclient/withlibev/src/workev.c:25-43 | before shutdown, in every reachable state with a sleeper, at least as many workers are on their way to the stack as jobs wait, spurious wakeups included |
| WorkQueue.JobsNeverWaitForSleepers | mod_tcpclient/withlibev/src/workev.c:102-108 | then one of those workers can step |
| WorkQueue.TakeFindsAJob | mod_tcpclient/withlibev/src/workev.c:39-46 | `worker_function`'s test for a null job never succeeds |
| WorkQueue.EveryJobIsSomewhere | mod_tcpclient/withlibev/src/workev.c:39-49 | over every run each job handed to workqueue_add_job, counted from the calls, is in exactly one of waiting, running, finished and dropped |
| WorkQueue.LastInFirstOut | mod_tcpclient/withlibev/src/workev.c:102-108 | while no fewer jobs wait than at some state, its jobs lie untouched and in order below those added since |
| WorkQueue.AddedJobIsTaken | mod_tcpclient/withlibev/src/workev.c:39-42 | so the next job taken when the later ones are gone is the one added last |
| WorkQueue.OnlyLaterJobsWait | mod_tcpclient/withlibev/src/workev.c:91-99 | shutdown drops every waiting job; what waits afterwards was added afterwards |
| WorkQueue.AddOnList | mod_tcpclient/withlibev/src/workev.c:102-108 | the job list's LL_ADD is the adding step |
| WorkQueue.TakeFromList | mod_tcpclient/withlibev/src/workev.c:39-46 | the worker's use of LL_REMOVE is the taking step, with the job it runs |
| WorkQueue.CloseOnList | mod_tcpclient/withlibev/src/workev.c:91-99 | and shutdown's reset of the head is the closing step |
| WorkQueue.NobodyLeavesEarly | mod_tcpclient/withlibev/src/workev.c:26-37 | over every run no worker exits before shutdown has set its flag |
| WorkQueue.NothingStartsAfterShutdown | mod_tcpclient/withlibev/src/workev.c:85-100 | after shutdown's critical section no job is dequeued, even one added later, and nobody is or falls asleep |
| WorkQueue.WorkersWindDown | mod_tcpclient/withlibev/src/workev.c:33-37 | the workers then take a bounded number of steps altogether |
| WorkQueue.WindDownNeverStuck | mod_tcpclient/withlibev/src/workev.c:26-37 | and until all have exited one of them can step |
| JobList.JobStack.Add | mod_tcpclient/withlibev/src/workev.c:6-10 | the job becomes the head; no node gets a predecessor link |
| JobList.JobStack.Remove | mod_tcpclient/withlibev/src/workev.c:12-17 | the node leaves the list exactly if it is the head or has its predecessor link; otherwise what is behind it is cut off |
| JobList.JobStack.TakeHead | mod_tcpclient/withlibev/src/workev.c:39-42 | the worker's use of it takes exactly the head |
| Decimal.HeaderFitsIff | mod_tcpclient/src/work.c:278-279 | the header has four characters and reads back as the length exactly for lengths up to 9999 |
| Decimal.ShortHeaderReadsLess | mod_tcpclient/src/work.c:490-500 | a cut header reads as a smaller length, but for zero |
| Framing.Sender.SendToFd | mod_tcpclient/src/work.c:448-470 | result, calls used and bytes sent are determined by the outcomes of send; what is on the wire is a prefix of the buffer, all of it exactly when the length is returned; it fails exactly at the first fatal outcome, and without one only calls can run out |
| Framing.Sender.SendMessage | mod_tcpclient/src/work.c:278-290 | while the connection still counts as up, the whole frame went out; the payload is sent even after the header failed, and either failure marks the connection down |
| Framing.Receiver.ReadHeader | mod_tcpclient/src/work.c:478-498 | exactly the header's characters are consumed; whether the read is whole, cut, closed or waiting, and what is left of calls and bytes, is determined by the outcomes of recv and the bytes that have come in; errno is asked after a short or failed read only |
| Framing.Receiver.ReadPayload | mod_tcpclient/src/work.c:501-521 | the body is the next stretch of the stream, and all of the announced length exactly if neither the connection closes nor a call blocks, for every chunking and whatever errno says |
| Framing.Receiver.ReceiveFromFd | mod_tcpclient/src/work.c:472-524 | the body is the stretch of the stream that the header announces; it was announced by the whole header if and only if no header read is cut |
| Framing.Receiver.ReceiveNext | mod_tcpclient/src/work.c:479-500 | on a stream of frames a received message is the first one, and the next ones are left intact, if and only if its header is not cut, read off the outcomes of recv before the call |
| Framing.RecoveredIffHeaderComplete | mod_tcpclient/src/work.c:479-500 | a message is recovered, and the next ones left intact, if and only if four header characters were read |
| Framing.ReadsBounds | mod_tcpclient/src/work.c:478-521 | a read is whole exactly if it got what it wanted; only a header is ever cut, a read waits only with no calls or bytes left, and every call that delivers brings it at least a byte |
| Framing.GivingUpCuts | mod_tcpclient/src/work.c:487-500 | a short read or an error whose errno test says no, met while the header is incomplete, ends the header read there with the characters read so far |
| Framing.CutIffGivenUp | mod_tcpclient/src/work.c:479-500 | a header is cut if and only if that happens |
| Framing.OrdinaryRunsAreUncut | mod_tcpclient/src/work.c:478-500 | if each header arrives in one piece, no header is cut, whatever chunks and failures the payloads meet and whatever errno is |
| Framing.Transfer | mod_tcpclient/src/work.c:278-286 | any list of messages of length up to 9999 arrives exactly, under arbitrary partial sends, retries and payload chunks, as long as no short or failed header read fails the errno test |
| XmlFields.Scan | mod_tcpclient/src/task.c:418-431 | a found slice lies inside the buffer, for any text and keys |
| XmlFields.ParseXmlAttribute | mod_tcpclient/src/task.c:413-438 | the loop computes that scan; length 0 when nothing is found |
| XmlFields.ScanFindsTagged | mod_tcpclient/src/task.c:420-424 | one tagged stretch is found exactly if it is not empty |
| XmlFields.ParseReadsFields | mod_tcpclient/src/work.c:193-203 | for fields with distinct names and values free of '<', bare or in an outer tag, every key reads exactly its value, and nothing for an absent or empty one |
| XmlFields.ParseDetectsOuterTag | mod_tcpclient/src/work.c:83-84 | the test for the event tag tells wrapped messages from bare ones |

## Left out

- Socket setup, reconnects, keepalive options and name lookup; a peer's state is a flag the environment sets, read as one snapshot per assignment.
- A push of a new id while every peer is down: the probe loop then never ends (`ProbesForeverIffAllDown`), so the push requires one peer up.
- Memory reclamation: freed nodes, leaks, and workers freeing themselves while shutdown walks the worker list. A literal pop that takes the tail ends the modelled run, since the sender frees the node.
- Ids longer than 255 characters and messages longer than 9999: the code's buffers do not hold them.
- Progress of the send path: the push signals one arbitrary waiter and only when the queue has one element, so a message may wait for its sender.
- The end of the stream and zero-length frames at dispatch: a null result does not set the returned length, and length 0 is read as a lost connection.
- The branches of the receive worker that hand requests, rather than replies, to the request callback.
- `start` with no threads or with more than the maximum throws before it touches the pool; it is not a step of the model.
- Acquisition of the pool's exclusive lock under a steady stream of pushers, CPU affinity, random hashes, and what a task computes: a task's run is one step.
- The queue's copy and move operations and `front`, the pipe thread, signal handling, the libevent server, the console tools and the stub programs.
