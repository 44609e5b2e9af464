# A verified model of clamd and its clients

This project models the concurrent core of the clamd scanning daemon and the programs that talk to it:
the thread pool and its job groups, the receive buffer with the command and INSTREAM parsers, the
database reload, the clients `clamdscan` and `clamav-milter`, the race-safe removal of an infected file,
and the small text transformers beside them. Each part is a model of the C code and a set of theorems
about every run, every input or every interleaving.

`dafny verify dfyconfig.toml` checks everything.

| file | what it models |
|---|---|
| `PoolModel.dfy`, `PoolProgress.dfy` | the thread pool as a step system, one step per region under `pool_mutex`: conservation, admission, staffing, the 4:1 picker, lost wake-ups |
| `MultiscanSlots.dfy` | the controller slots of MULTISCAN, who holds them and when a claim is granted |
| `ThreadPool.dfy` | the same pool in place: linked queues and counters; every method is one step of the model |
| `JobGroup.dfy` | reference-counted job groups and the MULTISCAN report |
| `Reload.dfy`, `ReloadOutcomes.dfy` | engine reference counts, the reload stages, jobs that outlive a reload, what STATS reads; which engines are left after a reload |
| `Commands.dfy`, `Session.dfy` | the command table and a bufferless model of one connection, byte by byte |
| `Fragments.dfy` | when the way the bytes are split into packets matters |
| `RecvBuffer.dfy` | the receive buffer in place, refining the bufferless model |
| `StreamCodec.dfy`, `Requests.dfy` | chunks, requests and whole sessions as clients write them, and what the server makes of them |
| `SessionCommands.dfy` | what each command does to a connection, inside and outside a session |
| `Milter.dfy`, `FileStream.dfy` | the two INSTREAM encoders |
| `EndToEnd.dfy` | encoder, packets and receive buffer put together |
| `RecvLine.dfy` | `recvln`, refining a split at NULs |
| `ScanIds.dfy`, `ParallelClient.dfy` | IDSESSION bookkeeping: on values, as a linked list, and against the server's counting |
| `Unlink.dfy` | capture, check, then delete or put back, with an adversarial directory |
| `Formats.dfy` | the RejectMsg compiler and the VirusEvent command line |
| `FdTable.dfy` | the table of watched descriptors and its buffers |

Bytes are `char`; a `seq<char>` is what C holds in a buffer, without the terminator unless the text says so.
Integer widths are written out where the code depends on them (`% 2^32` for `totsz`, for `htonl` and for
request numbers). Everything that comes from outside is a parameter or a free choice: packet sizes, read
sizes, failures of calls, names, the order in which threads get a lock.

## What was found

Twelve properties that one would expect do not hold of the code as it is. Each is stated with a run or an
input that breaks it and with the exact condition under which it holds.

- A dispatcher that sleeps on a full queue can be left asleep with no worker there to signal it, in some run
  (`PoolProgress.StrandingRun`), exactly when `queue_max <= thr_max` (`PoolProgress.StrandedIff`): a retiring
  worker signals no dispatcher. It sleeps for good, short of a spurious wake-up, exactly when the receive loop
  sleeps too or as many MULTISCAN controllers sleep as the queue has places; otherwise it sleeps until another
  connection arrives (`PoolProgress.ForGoodIff`). A controller can be left asleep for good
  (`PoolProgress.StrandedControllerRun`) exactly when there can be one and `1 <= queue_max <= thr_max`
  (`PoolProgress.StrandedControllerIff`).
- A run leaves queued jobs without any thread exactly when the last job it accepted found no thread and
  `pthread_create` failed (`PoolModel.OrphanedIff`, `PoolModel.FailedCreationStrandsJob`).
- A MULTISCAN that runs out of memory returns without giving its controller slot back. A claim is granted exactly
  when the controllers there are and the slots lost so leave one of `thr_max - 1` (`MultiscanSlots.GrantedIff`);
  after `thr_max - 1` losses MULTISCAN is refused for good (`MultiscanSlots.NeverGrantedAgain`), and every pool
  that takes jobs has such a run (`MultiscanSlots.SlotsLost`).
- A reload without concurrency waits until no thread is left and then loads. A job that was left so keeps the old
  engine, so two engines are in memory, exactly in that case (`ReloadOutcomes.AllReleasedIff`,
  `ReloadOutcomes.TwoEngines`, `ReloadOutcomes.OrphanBesideLoad`).
- The race-safe unlink can cost another object its name: when the directory it opened existed before and holds
  an entry of that name, the capture overwrites it. That is the only way
  (`RaceSafeUnlink.TraverseUnlink`), and it takes somebody who moves an earlier private directory to the new
  name in time (`RaceSafeUnlink.OverwritingRun`).
- When `progexit` ends the wait of a MULTISCAN, one error too many is counted, so the virus count is one too
  low, and OK is replied although a file was infected exactly when one was and some file was clean
  (`JobGroups.OkMeansClean`, `JobGroups.FalseOkRun`).
- A reload that fails leaves an engine exactly when reloads are concurrent, or when it failed while setting up
  and there was one (`ReloadOutcomes.FailedReloadKeepsEngine`). Otherwise the engine is gone
  (`ReloadOutcomes.EngineLostRun`) and no later reload brings one back (`ReloadOutcomes.FailedReloadIsFinal`). The
  log message says that the previous instance is kept in all cases.
- The parser goes on after a command that closed the connection, so what is executed depends on the split into
  packets exactly when a complete command follows a closing one and both fit the buffer
  (`Fragments.SplitMattersIff`, `Requests.PingTwice`).
- With `MaxFileSize` below 20 the milter's banner is cut wrongly and one byte of the message takes its place
  (`MilterStream.PromiseKeptIff`, `MilterStream.ShortLimitBreaksPromise`).
- A reply line without a number that is not the first of its batch is taken for an answer to another request
  (`ScanIdModel.BogusReplyRefusedIff`, `ScanIdModel.NumberlessLineSettlesAnother`), and it dereferences null
  exactly when the request just settled was the oldest one outstanding (`ScanIdModel.NumberlessLineCrashesIff`,
  `ScanIdModel.NumberlessLineCrashes`).
- A stream is left open exactly when reading the file fails midway and over-limit files are not rejected
  (`FileStream.SendStream`). That is a soft failure; the client goes on, and the server reads the next request of
  the session as a chunk (`FileStream.AbandonedStream`, `FileStream.AbandonedSession`).
- What a client sends in full is one stream with one terminator exactly when `StreamMaxLength` is positive or the
  file is empty (`FileStream.SendStream`); with limit 0 any other file is sent as two terminators, which are no
  stream (`FileStream.ZeroLimitStream`).

## Model

| member | source | states |
|---|---|---|
| `WorkPicker.TakeFacts` | clamd/thrmgr.c:959-1004 | a pick takes the head of exactly one queue, finds nothing only when both are empty, keeps FIFO order and the counter invariant `single.popped >= 4 ==> bulk.popped == 0` |
| `WorkPicker.AddFacts` | clamd/thrmgr.c:71-96 | adding appends at the end of one queue and keeps everything taken and queued equal to everything accepted |
| `WorkPicker.FifoConserves` | clamd/thrmgr.c:71-115 | what was accepted is, as a multiset, what is queued and what was taken |
| `PoolModel.NewPool` | clamd/thrmgr.c:695-822 | a pool exists exactly when `max_threads` is positive, with its limits, no job and no thread |
| `PoolModel.NewPoolInv` | clamd/thrmgr.c:695-822 | the new pool satisfies the invariant and is staffed for what it holds |
| `PoolModel.StepKeeps` | clamd/thrmgr.c:1006-1165 | every step of a dispatcher or worker keeps the whole pool invariant, and keeps enough workers as long as threads can be created |
| `PoolModel.RunKeeps` | clamd/thrmgr.c:1006-1165 | the same for every sequence of steps |
| `PoolModel.Conservation` | clamd/thrmgr.c:1006-1165 | in every reachable state accepted jobs are exactly queued, running and done ones, each queue is FIFO, unfinished jobs stay within `queue_max` and bulk jobs within its half |
| `PoolModel.QueuedWorkHasWorker` | clamd/thrmgr.c:1006-1099 | in every reachable state the pool is at full strength or has as many free workers as queued jobs, at most `thr_max - 1` workers are MULTISCAN controllers, and queued work has a worker that is not one |
| `PoolModel.NoThreadsNoJobs` | clamd/thrmgr.c:656-693 | when no thread is alive nothing is queued or running and all accepted jobs are done, unless the last accepted job found no thread and got none |
| `PoolModel.FailedCreationStrandsJob` | clamd/thrmgr.c:1145-1155 | one failed creation orphans a job, in every pool that accepts one at all and in no other |
| `PoolModel.OrphanStep` | clamd/thrmgr.c:1134-1156 | a step leaves queued jobs without a thread if and only if it accepts one with no thread alive and none created, or they were already |
| `PoolModel.OrphanedIff` | clamd/thrmgr.c:1134-1156 | a run does so if and only if its last accepted job met no thread and got none |
| `PoolModel.CreatedIsEnough` | clamd/thrmgr.c:1145-1155 | working thread creation rules it out |
| `PoolModel.FullQueueMovesOn` | clamd/thrmgr.c:950-957 | with `queue_max > thr_max` a full queue holds work and a live worker that is no controller will take it or is busy |
| `PoolProgress.ContestedShare` | clamd/thrmgr.c:965-1004 | over any run in which both queues hold work at each pop, bulk jobs get exactly one in five, counted from the present phase |
| `PoolProgress.FourToOne` | clamd/thrmgr.c:965-1004 | any five such pops take four single jobs and one bulk job |
| `PoolProgress.BulkWait` | clamd/thrmgr.c:965-1004 | how many pops a non-empty bulk queue can be passed over from the present phase |
| `PoolProgress.SingleWait` | clamd/thrmgr.c:965-1004 | a non-empty single queue is passed over at most once |
| `PoolProgress.NoStarvation` | clamd/thrmgr.c:965-1004 | a queue that stays non-empty is served within five pops (bulk) or two (single) |
| `PoolProgress.CountersBounded` | clamd/thrmgr.c:965-1004 | the `popped` counters grow by at most one per pop |
| `PoolProgress.NeverStranded` | clamd/thrmgr.c:1101-1165 | with `queue_max > thr_max`, a sleeping dispatcher that nobody has signalled has queued work before it and a live worker that is no controller to pop it; sleeping controllers count as nobody |
| `PoolProgress.StrandingRun` | clamd/thrmgr.c:1065-1084 | for every other setting a run that leaves the receive loop asleep with no pop to come, for good |
| `PoolProgress.StrandedIff` | clamd/thrmgr.c:1065-1138 | a dispatcher can be left asleep with no pop to come in some run, and so for good in some run, if and only if `queue_max <= thr_max` |
| `PoolProgress.ForGoodIff` | clamd/thrmgr.c:1101-1138 | a stranded dispatcher stays asleep in every continuation without a spurious wake-up, the receive loop being the one outside dispatcher, if and only if that loop sleeps too or as many controllers sleep as the queue has places; otherwise a continuation with one more connection signals it |
| `PoolProgress.FullQueueIff` | clamd/thrmgr.c:950-957 | the queue can be full while no worker is going to pop in exactly the same settings |
| `PoolProgress.StrandedControllerRun` | clamd/thrmgr.c:1101-1138 | a run that strands a MULTISCAN controller for good, for every setting in which there is one |
| `PoolProgress.StrandedControllerIff` | clamd/thrmgr.c:1101-1138 | a controller can be stranded, and so for good, if and only if `thr_max >= 2` and `1 <= queue_max <= thr_max` |
| `MultiscanSlots.StepSlots` | clamd/session.c:250-400 | every step keeps the slots taken in balance with the controllers there are, up to the one it leaks |
| `MultiscanSlots.SlotsCounted` | clamd/session.c:250-400 | in every run `thr_multiscan` is the number of controllers there are plus the number that returned without releasing |
| `MultiscanSlots.GrantedIff` | clamd/session.c:250-267 | a claim is granted if and only if that number is below `thr_max - 1`, and otherwise changes nothing |
| `MultiscanSlots.ReleasedIsGranted` | clamd/session.c:396-400 | when every controller releases, a pool without controllers grants a claim if and only if `thr_max >= 2` |
| `MultiscanSlots.NeverGrantedAgain` | clamd/session.c:389-395 | after `thr_max - 1` controllers that did not release, no continuation grants a claim |
| `MultiscanSlots.SlotsLost` | clamd/session.c:272-278 | a run that gets there, in every pool that takes jobs and has room for a controller |
| `WorkQueueList.WorkQueue.constructor` | clamd/thrmgr.c:56-69 | a new list is empty |
| `WorkQueueList.WorkQueue.Add` | clamd/thrmgr.c:71-96 | the linked list after the call is the sequence with the job appended; unchanged when memory is short |
| `WorkQueueList.WorkQueue.Pop` | clamd/thrmgr.c:98-115 | returns the head and leaves the tail, also when it was the last node |
| `ThreadPools.TakeEither` | clamd/thrmgr.c:981-991 | takes from the first queue if it can, else from the second, with both counters moved as the ratio says |
| `ThreadPools.ThreadPool.constructor` | clamd/thrmgr.c:695-822 | the object starts as the model does |
| `ThreadPools.ThreadPool.IsContended` | clamd/thrmgr.c:950-957 | computes the admission condition of the model |
| `ThreadPools.ThreadPool.PickJob` | clamd/thrmgr.c:965-991 | the two lists and counters move as the model's picker |
| `ThreadPools.ThreadPool.PopJob` | clamd/thrmgr.c:965-1004 | ... with the two conditional signals |
| `ThreadPools.ThreadPool.Enqueue` | clamd/thrmgr.c:1140-1143 | appends to the right list, or nothing without memory |
| `ThreadPools.ThreadPool.TryDispatch` | clamd/thrmgr.c:1101-1165 | the arrival of a dispatcher is one step of the model; which of its three outcomes happens is decided exactly |
| `ThreadPools.ThreadPool.RetryDispatch` | clamd/thrmgr.c:1134-1165 | so is its turn after a wait, with the same three outcomes |
| `ThreadPools.ThreadPool.AcceptJob` | clamd/thrmgr.c:1140-1156 | the job is queued and a thread hired as the model says, or nothing without memory |
| `ThreadPools.ThreadPool.WorkerEnter` | clamd/thrmgr.c:1020-1039 | a worker taking the lock is one step of the model and gets the job the model takes |
| `ThreadPools.ThreadPool.WorkerWake` | clamd/thrmgr.c:1029-1039 | the same for a worker woken up |
| `ThreadPools.ThreadPool.WorkerTimeout` | clamd/thrmgr.c:1032-1047 | giving up is one step of the model |
| `ThreadPools.ThreadPool.WorkerDecide` | clamd/thrmgr.c:1056-1096 | a worker retires exactly when both queues are empty, as the model says |
| `ThreadPools.ThreadPool.ClaimMultiscan` | clamd/session.c:239-280 | a controller slot is given exactly while fewer than `thr_max - 1` are taken |
| `ThreadPools.ThreadPool.ReleaseMultiscan` | clamd/session.c:396-400 | the slot goes back, as the model says |
| `JobGroups.JobGroup.constructor` | clamd/thrmgr.c:1262-1284 | a new group has one reference and no counts |
| `JobGroups.JobGroup.BeginDispatch` | clamd/thrmgr.c:1175-1180 | a dispatched job takes a reference before it can run |
| `JobGroups.JobGroup.UndoDispatch` | clamd/thrmgr.c:1181-1187 | a refused dispatch takes it back |
| `JobGroups.JobGroup.Finished` | clamd/thrmgr.c:1194-1230 | counts the exit, drops the reference, and reports the last one exactly |
| `JobGroups.JobGroup.StopWaiting` | clamd/thrmgr.c:1232-1260 | what the owner reads when it is alone or the program shuts down, one error more in the second case, and whether it frees the group |
| `JobGroups.StepKeeps` | clamd/thrmgr.c:1172-1260 | references are the owner and the jobs in flight; a step that frees the group is exactly the one that reports it, and none happens after |
| `JobGroups.GroupLifetime` | clamd/thrmgr.c:1172-1260 | over every run the group is freed exactly when nobody holds it, exactly one drop reports it, and nothing happens afterwards |
| `JobGroups.TallyKeeps` | clamd/thrmgr.c:1194-1230 | the counters are the numbers of jobs that ended in each way |
| `JobGroups.Partition` | clamd/thrmgr.c:1194-1230 | every ended job is in exactly one of the three classes |
| `JobGroups.RunTallies` | clamd/thrmgr.c:1194-1230 | the counters stay right over every run |
| `JobGroups.MultiscanReport` | clamd/session.c:396-411 | without `progexit` the total is the number of accepted jobs and the virus count the number of infected ones; with it the count is one too low; when OK is replied |
| `JobGroups.OkMeansClean` | clamd/session.c:396-411 | OK means that nothing was infected, unless `progexit` was set, one file was infected and one was clean |
| `JobGroups.FalseOkRun` | clamd/session.c:396-411 | a run with an infected, a clean and an unfinished file whose reply is OK |
| `EngineRefs.HeldIsAlive` | clamd/server-th.c:136-157 | with exact counts whoever holds an engine finds it alive |
| `EngineRefs.ConnAddedExact` | clamd/session.c:428-480 | exact reference counts stay exact: a job that takes a reference is one owner more, and no freed engine is revived if and only if the engine was not freed |
| `EngineRefs.ConnDroppedExact` | clamd/server-th.c:136-157 | exact reference counts stay exact: a job that frees its object is one owner less |
| `EngineRefs.PinAddedExact` | clamd/thrmgr.c:499-521 | exact reference counts stay exact: a STATS pin is one owner more, and no freed engine is revived if and only if the pinned one was not freed |
| `EngineRefs.PinDroppedExact` | clamd/thrmgr.c:556-558 | exact reference counts stay exact: a dropped pin is one owner less |
| `EngineRefs.CurrentDroppedExact` | clamd/server-th.c:356-368 | exact reference counts stay exact: dropping the current engine is one owner less |
| `EngineRefs.EngineCreatedExact` | clamd/server-th.c:236-261 | exact reference counts stay exact: a new engine starts with one owner, the loader |
| `EngineRefs.PublishedExact` | clamd/server-th.c:275-285 | exact reference counts stay exact: handing over or freeing the loader's engine keeps the counts |
| `EngineRefs.ActivatedExact` | clamd/server-th.c:1787-1798 | exact reference counts stay exact: taking the new engine over keeps the counts, in both modes |
| `ReloadMachine.SlotsAfterDrop` | clamd/server-th.c:136-158 | a job that frees its connection object with its slot cleared leaves every set slot naming an engine its own job still holds |
| `ReloadMachine.JobSlots` | clamd/thrmgr.c:872-892 | every action of a job, a dispatcher or STATS keeps it: a set slot belongs to a running job that holds the named engine through its own object |
| `ReloadMachine.TakenIsAlive` | clamd/thrmgr.c:499-521 | whoever takes a reference, a connection, a MULTISCAN part or STATS through a slot, takes it to an engine that is alive: counts stay exact and no freed engine comes back |
| `ReloadMachine.ActKeeps` | clamd/server-th.c:1766-1813 | every action of the receive loop, the reload thread, a job or STATS keeps the whole invariant, and no freed engine comes back |
| `ReloadMachine.RunKeeps` | clamd/server-th.c:1766-1813 | the same for every run, with the pool's invariant |
| `ReloadMachine.ReloadSafety` | clamd/server-th.c:219-296 | in every reachable state: at most one reload thread, a new engine only in the stage that announces it, a busy stage only with `reload` set, exact reference counts, every holder's engine alive, a set slot names an engine its job still holds; and in every continuation an engine once freed is never referenced again |
| `ReloadMachine.NoThreadsNoHolders` | clamd/thrmgr.c:656-693 | no thread alive and no job left over means no connection object, pin or slot is left |
| `ReloadMachine.LastAloneOrphans` | clamd/thrmgr.c:1134-1156 | a run of the whole daemon leaves queued jobs without a thread if and only if the last job accepted met no thread and got none |
| `ReloadOutcomes.AtMostOneEngine` | clamd/server-th.c:356-381 | without concurrent reload two live engines are the same one, unless a wait for the threads ended over such a job |
| `ReloadOutcomes.AllReleasedIff` | clamd/server-th.c:356-381 | when the wait for threads is over every engine has been released, and nothing is queued or running, if and only if the last accepted job found a thread or got one |
| `ReloadOutcomes.TwoEngines` | clamd/server-th.c:356-381 | otherwise the next engine is loaded beside the old one |
| `ReloadOutcomes.OrphanBesideLoad` | clamd/thrmgr.c:1145-1155 | a run that does so, in every pool that accepts a job |
| `ReloadOutcomes.FailedReloadKeepsEngine` | clamd/server-th.c:306-381 | after a failed set-up, spawn or load there is an engine if and only if reloads are concurrent, or the set-up failed and there was one; it is the one from before |
| `ReloadOutcomes.NoRecovery` | clamd/server-th.c:306-345 | a daemon without engine and settings stays without engine in every run |
| `ReloadOutcomes.FailedReloadIsFinal` | clamd/server-th.c:1766-1813 | after a non-concurrent reload whose spawn or load failed no run brings an engine back |
| `ReloadOutcomes.EngineLostRun` | clamd/server-th.c:356-381 | a run that loses the engine |
| `ReloadOutcomes.RunExclusive` | clamd/server-th.c:236-285 | in every run the new engine has one owner until it is taken over |
| `ReloadOutcomes.SuccessfulReload` | clamd/server-th.c:1787-1805 | after a load that worked, whatever happens before the take-over, the engine loaded is then current with no other owner, nothing is offered, the stage is idle and the flag down; with concurrency the old engine has one owner less and is freed if and only if no connection object and no pin keeps it |
| `ReloadOutcomes.OldEngineGivenUp` | clamd/server-th.c:356-368 | without concurrency the old engine is given up the same way before the load |
| `ReloadOutcomes.FailedLoad` | clamd/server-th.c:275-285 | after a load that failed its engine is freed and the take-over changes only stage and flag |
| `ReloadOutcomes.ReloadRun` | clamd/server-th.c:1766-1813 | in both modes a run from the start that ends with any other engine current and the first one freed |
| `ReloadOutcomes.EngineForLife` | clamd/session.c:428-480 | a job works with one engine from its dispatch to its end: the one current when it came in, or that of the MULTISCAN it is part of |
| `ReloadOutcomes.PinnedIsSeen` | clamd/thrmgr.c:499-521 | what STATS pins is the engine of the job it looked at |
| `Commands.ParseCommand` | clamd/session.c:103-132 | the loop finds the first entry whose text starts the line, splits the argument off after one separator, and names only commands of the table |
| `Commands.RecognisedBy` | clamd/session.c:75-101 | a line is recognised by the first entry with its first letter when that starts it |
| `Commands.TextMeans` | clamd/session.c:75-132 | every command, written as documented, means that command with that file name, in the old style too if and only if that is supported |
| `Commands.QuitMeans` | clamd/session.c:84 | QUIT means SHUTDOWN |
| `Commands.ScanRecognised` | common/clamdcom.c:427-434 | what `dsresult` writes for a file means that command and that file name to `parse_command`, for every file name |
| `Wire.Be32RoundTrip` | clamd/server-th.c:830-834 | a length survives `htonl` and `ntohl` |
| `SessionModel.LineAppend` | clamd/server-th.c:444-489 | later bytes change neither a complete command nor its size |
| `SessionModel.StepAppend` | clamd/server-th.c:676-814 | a step that is possible stays the same when more bytes arrive |
| `SessionModel.DrainAppend` | clamd/server-th.c:1649-1694 | draining now or after more bytes gives the same state |
| `Fragments.SplitDoesNotMatter` | clamd/server-th.c:1649-1694 | for every legal split the commands, scans, dumped bytes and, on an open connection, the unconsumed rest are those of the unsplit input, unless a command trails a closing one |
| `Fragments.SinglesServe` | clamd/server-th.c:1649-1694 | byte by byte, exactly the steps up to the closing one happen |
| `Fragments.TrailingMatters` | clamd/server-th.c:676-814 | with a trailing command two legal splits execute different numbers of commands |
| `Fragments.SplitMattersIff` | clamd/server-th.c:676-814 | the outcome depends on the split if and only if a command trails a closing one and both fit the buffer |
| `Requests.PingTwice` | clamd/server-th.c:676-814 | two PINGs in one packet are both executed, byte by byte only the first |
| `RecvBuffer.DataSteps` | clamd/server-th.c:881-892 | any part of a chunk can be taken at once |
| `RecvBuffer.FullBuffer` | clamd/clamd_others.c:284-295 | an endless command fails with the byte that finds the buffer full, in the model as in the buffer |
| `RecvBuffer.FdBuf.constructor` | clamd/clamd_others.c:367-404 | a new buffer is a fresh connection |
| `RecvBuffer.FdBuf.Shift` | clamd/server-th.c:798-812 | what is left moves to the front unchanged |
| `RecvBuffer.FdBuf.GetCmd` | clamd/server-th.c:444-489 | finds a complete command exactly when there is one, with its length |
| `RecvBuffer.FdBuf.RunCommand` | clamd/server-th.c:716-783 | the fields after a command are those of the model |
| `RecvBuffer.FdBuf.FindCommand` | clamd/server-th.c:686-712 | the command at a position and its size, exactly when it is complete |
| `RecvBuffer.FdBuf.ExecuteAt` | clamd/server-th.c:685-784 | one turn of the loop is one step of the model, or none is possible |
| `RecvBuffer.FdBuf.ParseDispatchCmd` | clamd/server-th.c:676-814 | leaves a state with the same future, and no complete command in it |
| `RecvBuffer.FdBuf.ReadChunkSize` | clamd/server-th.c:828-872 | the length word: end, over the limit, or a chunk charged to the quota |
| `RecvBuffer.FdBuf.CopyData` | clamd/server-th.c:881-892 | moves as much of the chunk as there is to the dump, and nothing else |
| `RecvBuffer.FdBuf.HandleStream` | clamd/server-th.c:817-903 | same future; ended exactly at the end of the stream; when it asks for more it leaves fewer than four bytes, and none inside a chunk |
| `RecvBuffer.FdBuf.EndOfStream` | clamd/server-th.c:836-861 | the content is scanned once, under the id that is counted up |
| `RecvBuffer.FdBuf.ReadFdData` | clamd/clamd_others.c:284-365 | a packet goes behind what is there; a full buffer is an error |
| `RecvBuffer.FdBuf.ServePacket` | clamd/server-th.c:1609-1694 | a packet in the real buffer has exactly the effect of the model's turn, and nothing more can be done after it |
| `StreamCodec.ServeChunk` | clamd/server-th.c:828-892 | a chunk within the quota is dumped and charged; one beyond it fails |
| `StreamCodec.ServeChunks` | clamd/server-th.c:828-892 | chunks without an end are dumped and charged, and nothing is scanned yet |
| `StreamCodec.ServeStream` | clamd/server-th.c:817-903 | decoding undoes encoding: exactly the chunks' bytes are scanned if they fit the quota, quota and accepted bytes add up; otherwise failure and no scan |
| `Requests.ServeLine` | clamd/server-th.c:676-814 | one command, with the extra byte of FILDES, takes exactly its bytes |
| `Requests.AnySplit` | clamd/server-th.c:1649-1694 | from a fresh connection any legal split has the outcome of the whole |
| `Requests.ScanRoundTrip` | common/clamdcom.c:427-434 | in any pieces the request is understood as that command for that file if and only if it fits the receive buffer; otherwise nothing is executed |
| `Requests.ServeInstream` | clamd/server-th.c:817-903 | INSTREAM with its stream: one scan of the content, or a failure when it does not fit |
| `Requests.StreamRoundTrip` | clamd/server-th.c:817-903 | a stream on its own connection, in any pieces, is scanned with exactly its content if and only if it fits |
| `Requests.RequestStep` | clamd/server-th.c:772-787 | a served request of a session moves it to the next id and nothing else |
| `Requests.SessionRoundTrip` | clamdscan/proto.c:597-656 | a whole IDSESSION, in any pieces: every request is served in order under its own number, up to the first stream beyond the limit |
| `Requests.RequestsAreNumbered` | clamd/server-th.c:855-859 | the k-th request is scanned under number k |
| `SessionCommands.InsideSession` | clamd/session.c:534-679 | for every command inside a session, from its bytes: which ones leave it open under the next id, which opens a stream, which end it when the last job is done, and that every other one ends it at once |
| `SessionCommands.OutsideSession` | clamd/session.c:555-679 | for every command outside a session: IDSESSION starts one, INSTREAM opens a stream, a dispatched command leaves the connection waiting, everything else closes it |
| `SessionCommands.UnknownLine` | clamd/session.c:675-678 | a line that is no command closes the connection and ends a session |
| `SessionCommands.ItemStep` | clamd/server-th.c:700-800 | a request or such a command moves the session to the next id |
| `SessionCommands.MixedRoundTrip` | clamd/server-th.c:700-800 | a whole session with other commands between its requests, in any pieces: everything is done in order, up to the first stream over the limit |
| `SessionCommands.EveryStreamScanned` | clamd/server-th.c:855-859 | every stream of such a session is scanned under its place in it |
| `MilterStream.NextPiece` | clamav-milter/clamfi.c:159-220 | `sendchunk` on a further piece leaves exactly what the message so far calls for, so the cut into pieces does not matter |
| `MilterStream.BodyCutsDoNotMatter` | clamav-milter/clamfi.c:271-295 | two body callbacks have the effect of one with the joined data, whatever comes before and after |
| `MilterStream.MailRendered` | clamav-milter/clamfi.c:222-295 | a mail is rendered as its header lines, one empty line and the joined body pieces |
| `MilterStream.PromiseKeptIff` | clamav-milter/clamfi.c:164-180 | what is sent is the first `maxfilesize` bytes of banner and message if and only if the limit is at least 20 or the byte in the banner's place is the right one |
| `MilterStream.ShortLimitBreaksPromise` | clamav-milter/clamfi.c:164-180 | a message for which every limit below 20 breaks the promise |
| `MilterStream.Clamfi.constructor` | clamav-milter/clamfi.c:79-97 | a new message has nothing sent and nothing held |
| `MilterStream.Clamfi.Keep` | clamav-milter/clamfi.c:196-198 | small data goes to the buffer, whose size stays below 1424 |
| `MilterStream.Clamfi.FillAndSend` | clamav-milter/clamfi.c:199-205 | a full buffer goes out as one chunk and the rest is kept |
| `MilterStream.Clamfi.Flush` | clamav-milter/clamfi.c:334-337 | what is held goes out as one chunk, if anything is |
| `MilterStream.Clamfi.SendPast` | clamav-milter/clamfi.c:206-212 | large data becomes a chunk of its own behind what is held |
| `MilterStream.Clamfi.Transmit` | clamav-milter/clamfi.c:196-217 | whichever way, sent chunks and held bytes together grow by exactly the data |
| `MilterStream.Clamfi.SendCut` | clamav-milter/clamfi.c:177-217 | cuts at the limit |
| `MilterStream.Clamfi.SendChunk` | clamav-milter/clamfi.c:159-220 | the recursive function with its counter trick is the specification `Chunk` |
| `MilterStream.Clamfi.Offer` | clamav-milter/clamfi.c:159-220 | between callbacks the bytes let through are those the whole text calls for |
| `MilterStream.Clamfi.OnHeader` | clamav-milter/clamfi.c:222-269 | a header adds its name, a colon, its value and a line end |
| `MilterStream.Clamfi.OnBody` | clamav-milter/clamfi.c:271-292 | a body piece adds its bytes, and the empty line before the first |
| `MilterStream.Clamfi.OnEom` | clamav-milter/clamfi.c:305-342 | the wire is then a complete stream of good chunks with exactly that content; an empty message is not scanned |
| `MilterStream.StreamMessage` | clamav-milter/clamfi.c:222-342 | for every sequence of callbacks: it goes through when nothing fails, no empty chunk comes before the terminator, and the content is what `Sent` says |
| `MilterStream.StreamInPieces` | clamd/server-th.c:817-903 | clamd scans exactly the chunks' bytes in any pieces |
| `MilterStream.MilterRoundTrip` | clamav-milter/clamfi.c:159-342 | end to end: clamd scans the first `maxfilesize` bytes of banner and mail if and only if the limit leaves room for the banner (or by coincidence of one byte) |
| `FileStream.SendStream` | common/clamdcom.c:238-301 | for every way `read` cuts the file: success means a complete stream of the first min(size, limit) bytes, of the whole file when over-limit files are rejected; when it succeeds; it leaves a stream open if and only if a read fails and over-limit files are not rejected; what is sent in full is one stream if and only if the limit is positive or the file empty |
| `FileStream.ZeroLimitStream` | common/clamdcom.c:268-300 | one terminator is an empty stream, two are no stream of good chunks at all |
| `FileStream.StreamBody` | common/clamdcom.c:268-300 | the loop keeps what was read equal to what was sent, chunk by chunk, and charged to the limit |
| `FileStream.AbandonedStream` | common/clamdcom.c:294-297 | after a soft failure the next request is not executed: the session fails if and only if its first four bytes exceed what the limit leaves, and else they become content |
| `FileStream.AbandonedSession` | common/clamdcom.c:294-297 | one byte, a failed read and the next request: the session is over |
| `FileStream.FileRoundTrip` | clamd/server-th.c:862-871 | with the same limit at both ends clamd scans exactly the file up to the limit, whatever the read sizes and packets |
| `RecvLine.LinesSplit` | common/clamdcom.c:90-140 | the lines are a cut of the stream into pieces that end with their only NUL, and a rest that starts none |
| `RecvLine.SplitUnique` | common/clamdcom.c:90-140 | there is only one such cut |
| `RecvLine.LineReader.constructor` | common/clamdcom.c:74-79 | starts at the front with nothing received |
| `RecvLine.LineReader.Receive` | common/clamdcom.c:95-101 | `recv` behind what is held, retried when interrupted |
| `RecvLine.LineReader.FindNul` | common/clamdcom.c:113-113 | finds the first NUL of the line, looking only at new bytes |
| `RecvLine.LineReader.Slide` | common/clamdcom.c:126-138 | an incomplete line moves to the front unchanged |
| `RecvLine.LineReader.TakeLine` | common/clamdcom.c:113-125 | the line, and what was received behind it |
| `RecvLine.LineReader.More` | common/clamdcom.c:94-112 | keeps line and stream together, and says why there is no more |
| `RecvLine.LineReader.Search` | common/clamdcom.c:113-137 | ends the line, finds it overlong, or makes room |
| `RecvLine.LineReader.Recvln` | common/clamdcom.c:90-140 | for every arrival pattern the next NUL-terminated line; overlong if and only if the first sizeof(buf) bytes hold no NUL; closed only at a line end without failure |
| `RecvLine.LineReader.ReadLines` | common/clamdcom.c:463-467 | all lines are the cut of the stream; a clean end if and only if nothing is left over and nothing failed |
| `ReplyNumbers.NumberRoundTrip` | clamd/session.c:134-168 | a request number survives printing with `%u` and reading with `atoi` |
| `ScanIdModel.SendKeeps` | clamdscan/proto.c:559-573 | a request sent keeps the bookkeeping invariant, given a free action source |
| `ScanIdModel.SettleKeeps` | clamdscan/proto.c:381-409 | a settled request keeps it |
| `ScanIdModel.BatchKeeps` | clamdscan/proto.c:369-411 | a batch of replies keeps it |
| `ScanIdModel.BatchFrees` | clamdscan/proto.c:399-406 | replies only free action sources |
| `ScanIdModel.EveryRun` | clamdscan/proto.c:494-573 | in every run the k-th request is number k, an outstanding number belongs to the request sent under it, and action sources equal the entries that hold one and stay within the limit |
| `ScanIdModel.StatusRoundTrip` | clamd/session.c:134-168 | FOUND, ERROR and OK at the end of a reply are read as what they are, for every text before them |
| `ScanIdModel.ReplySettlesItsOwn` | clamdscan/proto.c:369-409 | a reply to an outstanding request settles that one and reports its file; any other number is refused |
| `ScanIdModel.RepliesInAnyOrder` | clamdscan/proto.c:369-411 | replies to any distinct outstanding requests, in any order, settle exactly those |
| `ScanIdModel.BogusReplyRefusedIff` | clamdscan/proto.c:369-387 | when a reply that names no outstanding request is refused, and when it runs past the end of the list |
| `ScanIdModel.NumberlessLineSettlesAnother` | clamdscan/proto.c:369-382 | two lines that settle a request nobody answered |
| `ScanIdModel.NumberlessLineCrashesIff` | clamdscan/proto.c:369-382 | a line without a number after a reply makes the client follow a null pointer if and only if the request just settled was the oldest outstanding |
| `ScanIdModel.NumberlessLineCrashes` | clamdscan/proto.c:369-382 | two lines that do so, with a request still outstanding |
| `ParallelClients.ParallelClient.constructor` | clamdscan/proto.c:613-623 | the list starts empty |
| `ParallelClients.ParallelClient.Remember` | clamdscan/proto.c:559-573 | the new node goes in front with the next number |
| `ParallelClients.ParallelClient.FindLink` | clamdscan/proto.c:370-375 | the pointer to the link of the entry with that number, or none |
| `ParallelClients.ParallelClient.Unlink` | clamdscan/proto.c:407-409 | the list without that node, through the pointer to its link |
| `ParallelClients.ParallelClient.Locate` | clamdscan/proto.c:369-380 | the link a reply is about, a left-over one included |
| `ParallelClients.ParallelClient.SettleAt` | clamdscan/proto.c:381-409 | counters, report and list after a reply |
| `ParallelClients.ParallelClient.OnReply` | clamdscan/proto.c:369-409 | one turn is one reply of the model, refusals and the null dereference included |
| `ParallelClients.ParallelClient.OneLine` | clamdscan/proto.c:366-409 | the same with the line taken off the stream |
| `ParallelClients.ParallelClient.DspResult` | clamdscan/proto.c:354-412 | the replies are a batch of the model; on success every byte received was part of a settled line; a failure has its exact reason |
| `ParallelClients.ParallelClient.TakeReplies` | clamdscan/proto.c:533-537 | one call as part of a run |
| `ParallelClients.ParallelClient.ScanFile` | clamdscan/proto.c:494-573 | what the callback does is a run of the model that ends with this request |
| `SessionCorrelation.SameNumbers` | clamdscan/proto.c:494-573 | for every split and every order of replies: an entry outstanding at the client under a number is a file that the server scanned under that number, with its content |
| `EndToEnd.Feed` | clamd/server-th.c:1609-1694 | bytes delivered in any pieces through the real buffer have the effect of a legal split on the model |
| `EndToEnd.NeverFull` | clamd/server-th.c:1609-1694 | a stream with its command never fills the buffer |
| `EndToEnd.ServeBytes` | clamd/server-th.c:817-903 | a stream through the real buffer, in any pieces: exactly its content is scanned if and only if it fits |
| `EndToEnd.StreamFile` | common/clamdcom.c:238-301 | from the file through encoder, packets and buffer to the scan: exactly the file up to the limit |
| `EndToEnd.StreamMail` | clamav-milter/clamfi.c:159-342 | from the callbacks through encoder, packets and buffer to the scan: exactly what `Sent` says, and the promised text if and only if the banner fits; of a mail, the banner, its header lines, one empty line and the body, cut at the limit |
| `RaceSafeUnlink.FileSystem.Bind` | common/actions.c:3286-3338 | binding a name records the entry it overwrites |
| `RaceSafeUnlink.FileSystem.MakeDir` | common/actions.c:3203-3267 | a new directory overwrites nothing |
| `RaceSafeUnlink.FileSystem.CaptureInto` | common/actions.c:3489-3492 | whatever stands at the name moves into the private directory; what it overwrites there is recorded and charged as a lost name |
| `RaceSafeUnlink.FileSystem.LinkBack` | common/actions.c:3286-3338 | a captured file gets its name back only when it is free |
| `RaceSafeUnlink.FileSystem.MoveBack` | common/actions.c:3286-3338 | the same by a rename that does not replace |
| `RaceSafeUnlink.FileSystem.ProbeNoReplace` | common/actions.c:341-377 | the probe does not claim support over left-over probe names |
| `RaceSafeUnlink.RemovePrivateDir` | common/actions.c:3145-3161 | removes no directory that holds something, and only the private one while its name is left alone |
| `RaceSafeUnlink.CreatePrivateDir` | common/actions.c:3203-3267 | a result is an empty directory of this user that did not exist before, while others leave the names alone |
| `RaceSafeUnlink.OpenPrivateDir` | common/actions.c:3230-3267 | the directory behind the descriptor is the one that was made |
| `RaceSafeUnlink.RestoreCaptured` | common/actions.c:3286-3338 | the object is back under its name or still held, and nothing was overwritten; undisturbed, it is put back if and only if the name is free and the object can be linked or moved, and otherwise nothing changes |
| `RaceSafeUnlink.CaptureAndDelete` | common/actions.c:3448-3523 | deletes one name of the scanned regular file on success and none otherwise; another object loses a name only if the directory held it under this name; anything else caught is back or held |
| `RaceSafeUnlink.CaptureChecked` | common/actions.c:3457-3492 | captures only while the name leads to the scanned regular file |
| `RaceSafeUnlink.CheckTarget` | common/actions.c:3457-3487 | passes only while the name leads to the scanned regular file, and undisturbed exactly then |
| `RaceSafeUnlink.DeleteOrRestore` | common/actions.c:3494-3522 | deletes the scanned file and nothing else, and puts back or holds whatever else was caught; undisturbed, anything else goes back under its name if that is free |
| `RaceSafeUnlink.OverwritingRun` | common/actions.c:3203-3267 | an interleaving in which another object loses its name |
| `RaceSafeUnlink.RestoringRun` | common/actions.c:3489-3522 | an interleaving in which the file is replaced before the capture: the replacement ends up back under its name and the private directory is gone |
| `RaceSafeUnlink.TraverseUnlink` | common/actions.c:3356-3554 | against every interference: a name of the scanned file goes exactly on success; another object loses one if and only if the opened directory existed before and held it, never when no private directory held the name before the call or while others leave the private names alone; what else was caught is restored or held; and undisturbed the file goes if and only if it is the scanned regular file and a private name is free, or no file was given and the name leads to no directory, and nothing else changes |
| `RejectMessage.CompileMeansSubstitute` | clamav-milter/clamfi.c:559-571 | formatting the compiled message with the virus name gives the message with %v replaced and every other percent doubled, and asks for at most one argument |
| `RejectMessage.CompileReject` | clamav-milter/clamfi.c:660-694 | accepted if and only if everything is printable and %v appears at most once; the result is the compiled message, terminated, within 4 * length + 1 |
| `RejectMessage.SenderReads` | clamav-milter/clamfi.c:559-571 | after `smfi_setreply` has halved the percent signs, the sender reads the option's text with the name in the place of %v |
| `VirusEvent.FindMark` | clamd/clamd_others.c:140-148 | the next mark, with none skipped |
| `VirusEvent.CountMarks` | clamd/clamd_others.c:139-148 | the counting loop counts the marks |
| `VirusEvent.ExpandSize` | clamd/clamd_others.c:149-151 | the size from the counts is enough, by two bytes a mark |
| `VirusEvent.StrCat` | clamd/clamd_others.c:162-167 | appending finds the end where the index is |
| `VirusEvent.BuildCommand` | clamd/clamd_others.c:139-172 | the command line is the option with both marks replaced, within the buffer |
| `VirusEvent.MarkReplaced` | clamd/clamd_others.c:152-170 | wherever they stand, %v gives the one text and %f the other, and what is around them is expanded on its own |
| `VirusEvent.PlainStays` | clamd/clamd_others.c:152-170 | a text without marks stays as it is |
| `FdSlots.SurvivorsAre` | clamd/clamd_others.c:254-282 | compaction keeps every used slot with all its state, in order, and no other |
| `FdSlots.SurvivorsKeep` | clamd/clamd_others.c:254-282 | it keeps descriptors and buffers distinct |
| `FdSlots.RemovedKeeps` | clamd/clamd_others.c:453-466 | so does removing a descriptor |
| `FdSlots.AddedKeeps` | clamd/clamd_others.c:406-437 | so does adding one |
| `FdSlots.AddedStartsFresh` | clamd/clamd_others.c:406-437 | a descriptor that is added, or reused by the kernel, starts with the state of a new connection, in one slot, and no other slot changes |
| `FdSlots.RemovedIsGone` | clamd/clamd_others.c:254-466 | after removing and cleaning up exactly the other used slots are there, with their state |
| `FdSlots.TableInvariant` | clamd/clamd_others.c:254-466 | over every sequence of operations no descriptor and no buffer is in two slots |
| `FdTables.FdTable.constructor` | clamd/clamd_others.c:406-437 | the table starts empty |
| `FdTables.FdTable.Free` | clamd/clamd_others.c:254-268 | only an allocated buffer can be freed |
| `FdTables.FdTable.Compact` | clamd/clamd_others.c:259-268 | in place, the used slots to the front and every other buffer freed once |
| `FdTables.FdTable.Cleanup` | clamd/clamd_others.c:254-282 | the table is the stable filter of the old one, and the allocated buffers are exactly those in it |
| `FdTables.FdTable.Remove` | clamd/clamd_others.c:453-466 | the first slot of the descriptor is marked, nothing else changes |
| `FdTables.FdTable.InitBuffer` | clamd/clamd_others.c:367-404 | the buffer is kept, allocated or freed |
| `FdTables.FdTable.Add` | clamd/clamd_others.c:406-437 | reuses the slot of a known descriptor or appends one; no buffer leaks |

## Left out

- POOL_EXIT: draining and late dispatchers; the pool stays valid throughout.
- `pthread` failures other than `pthread_create`, and wall-clock timeouts: a timeout is a step that may happen at any moment.
- RecvBuffer.FdBuf.GetCmd: finds commands that start with `z` alone, because the other styles end with bytes that another function strips.
- The group reference that the receive loop's error path holds; group lifetime is stated for one drop per holder.
- Commands that start with another letter than `z`: the model of a connection stops there.
- FILDES: when the descriptor itself arrives; the byte that carries it is modelled, the waiting mode is folded into the command.
- Bytes that follow a request outside a session, which the daemon reports as an error; failures of a dispatch or of a write during a stream.
- The content of replies beyond the number and the status at their end.
- `nc_connect_rand`, the n-style INSTREAM command it sends (the theorem starts with the stream) and the fd-passing path of the milter; a failed send ends the message and is only reported.
- Messages with more than 2^32 bytes behind a `MaxFileSize` of at least 2^32: the counter is modelled with its wrap-around, but nothing is claimed of the content then.
- The truncation of the formatted reject message at 1023 bytes.
- `atoi` beyond the range of `int`, and more than 2^31 requests in one session.
- Failed allocations in the descriptor table, in the client's list and in the format compilers.
- The rest of `common/actions.c`: copy, move, destination names, Windows and extended attributes; path traversal to the parent directory is taken as given.
- `thrmgr_setactiveengine` called from the receive loop: that thread has no task descriptor, so the call does nothing.
- Scanning itself, signature databases, option parsing, logging, local networks, allow lists.
- JobGroups.MultiscanReport: does not cover groups of 2^31 jobs and more, because the sums are then beyond `unsigned int`.
- RaceSafeUnlink.FileSystem.ProbeNoReplace: does not model the directories the probe makes, because they are removed again in a directory nobody else can change.
- ParallelClients.ParallelClient.DspResult: does not model running the action on an infected file, because it is foreign to the bookkeeping.
- EndToEnd.StreamMail: starts with the z-style command, because the n-style one that the milter sends belongs to `nc_connect_rand`.
