# AgentRL: protocols and algorithms, verified

AgentRL runs reinforcement learning for agents: a Go controller dispatches tasks to Python task workers, which rent
containers for their environments, and a trainer consumes the results.  This project models the parts of it in which
several functions, processes or goroutines have to agree, and proves what they keep.  `dafny verify dfyconfig.toml`
checks everything.

| part | files |
|---|---|
| controller sessions: load counters, reconciliation with worker reports, dispatch | `SessionProtocol`, `Interactions`, `SessionSync`, `SyncRuns`, `SyncCalls`, `SessionManager` |
| controller registry of tasks and workers | `TaskRegistry` |
| controller locks: four levels, any number of goroutines | `LockOrder`, `ControllerScripts` |
| requests waiting on a worker stream | `PendingRpc` |
| rendezvous of client and environment on a worker, cancellation | `Handshake`, `TaskWorker` |
| container allocation under limits and locks, deletion with dependencies | `Allocation`, `AllocationTurns`, `AllocationSolo`, `Allocator`, `DependentDeletion` |
| state providers: maps of sets, etcd key space, use counter | `StateStore`, `KeyRange`, `UseCounter` |
| configuration: merge, default and overwrite, imports | `ConfigTree`, `ConfigLoader` |
| trainer: reader/writer lock, grouping buffer | `RwLock`, `GroupBuffer` |
| data URLs in trees of results | `Base64`, `DataUrl`, `DataTree` |
| trimming images, advantage estimates | `TrimImages`, `Advantage` |

Concurrent parts are transition systems whose steps are the critical sections (Go) or the code between two `await`s
(Python); their theorems are about every run.  Objects with fields are classes whose methods are proved to take those
steps.

## Assumptions

- A critical section of the controller reads the clock once.  Everything from the start of a sync's loops on happens later
  than the time at which the report was asked for.
- Lock leases do not expire inside a critical section; allocation records may expire at any time.
- Container ids come out of Docker unused, and a container's label names one subtype; request ids (random UUIDs) are never
  drawn twice.  A shuffle may give any order.
- A task takes the trainer's reader/writer lock at most once at a time.  Python versions differ in whether a cancelled
  waiter passes its wake-up on; the model allows either.
- Reals stand for floats, and a payload stands for its own hash.
- What the standard library knows about media types, extensions and digits is a parameter.  Guessed
  extensions are a dot and letters, digits or `._+-`; guessed media types hold no comma, and for
  `DataTree.TypesRoundTripIff` have the usual form with a slash; the dot is no digit.
- Configuration: no override file, Consul override or environment override is set, and keys are strings.

## Where the code falls short of its intent

- A session id adopted from a worker's report can collide with the counter of fresh ids; the unfinished session then
  drops out of the table and the load seen through the table drifts (`SessionProtocol.CollisionDrifts`).
- A sync looks at a session's time stamp without its lock and does not look again before it finishes it: a client that begins
  to interact in between loses its session (`SyncRuns.FinishesTouchedIffOvertaken`, `SyncRuns.InteractionOvertakesSync`).
- The deferred end of an interaction that a finish has cut off can come late and clear the flag of the next one, beside
  which a third is then let in (`Interactions.OverlapNeedsLateEnd`, `Interactions.TwoAtATime`).
- A second removal of a worker object that a failed call brought back to coma can delete a task created anew
  (`TaskRegistry.LateRemovalDeletesNewTask`).
- Cancelling the last waiting writer of the reader/writer lock can leave a reader parked beside a free lock
  (`RwLock.CancelledWriterStrandsReader`).
- Removing a container in etcd deletes by a prefix without a closing colon, so it takes along whatever is recorded under
  a longer id (`StateStore.RemoveRefinesIff`, `StateStore.RemoveTakesLongerIds`).  Docker's container ids all have one
  length, so the case does not arise with them; among pods, named by subtype and eight hexadecimal digits, it takes a
  subtype whose name begins with another pod's name.
- After `cover` or `clear` a reply can lose what the environment said (`Handshake.CoverLosesOutput`).
- A full-async environment that is cancelled before its first step leaves its client waiting for ever
  (`Handshake.StrandedIffKilled`).
- A use is not counted when sixteen attempts in a row are disturbed: the code logs a warning, and the allocation stands
  (`UseCounter.UsesAreCallsLessLost`, `UseCounter.SixteenOvertakesLoseAUse`).
- Full-async environments that were cancelled no longer count against the concurrency limit while they still run
  (`TaskWorker.CoroutinesBoundedIff`).
- Dependency labels that form a cycle send the deletion of a container into endless recursion
  (`DependentDeletion.DeletionEndsIff`, `DependentDeletion.CycleNeverEnds`).
- A subtype asked for twice in one session start can leave the first container recorded after the session has ended:
  always for an exclusive subtype, and for a shared one exactly if a later turn's shuffle puts an eligible candidate
  before the first container, or that container is full with the session on it (`AllocationTurns.EndUndoesStartIff`,
  `AllocationTurns.LimitForgetsFirst`, `AllocationTurns.ShuffleForgetsFirst`, `AllocationTurns.ExclusiveForgetsFirst`).
- A payload that occurs under two media types comes back under the first one, and `image/jpg` comes back as `image/jpeg`
  (`DataTree.TypesRoundTripIff`, `DataTree.TableTypesReturn`).
- A data URL built with a comma in its media type or parameters is cut off there when it is parsed again: the payload
  comes back only by coincidence (`DataUrl.BuildKeepsPayloadIff`, `DataUrl.CommaLosesBase64`).

## Model

| member | source | states |
|---|---|---|
| SessionProtocol.StepKeepsInv | controller/internal/controller/session.go:172-254 | every critical section of the controller that creates, resumes, finishes, cleans or interacts keeps the table well formed and every worker's load exact |
| SessionProtocol.LoadConserved | controller/internal/controller/session.go:290-337 | in every interleaving each worker's `Current` is the number of unfinished session objects bound to it plus the dispatches between their two critical sections, with no assumption on ids |
| SessionProtocol.ExactIffNoOrphan | controller/internal/controller/session.go:165-170 | `Current` equals the count taken over the session table if and only if no unfinished session has dropped out of the table |
| SessionProtocol.OrphansComeFromCollisions | controller/internal/controller/session.go:176-191 | in a state without such sessions, a step makes one if and only if it creates a session under an id that still belongs to an unfinished one |
| SessionProtocol.TableCountConserved | controller/internal/controller/session.go:172-254 | in runs whose fresh ids are unused, the count over the table stays exact in every reachable state |
| SessionProtocol.CollisionDrifts | controller/internal/controller/session.go:235-250 | a concrete run in which a resumed id collides with the counter and the table count is off |
| SessionProtocol.StepKeepsIdsBelow | controller/internal/controller/session.go:176-176 | an id gets above the counter if and only if it is adopted from a report before the counter reaches it, or the 32-bit counter wraps around |
| SessionProtocol.CountedIdsAreFresh | controller/internal/controller/session.go:176-191 | as long as reports bring back only ids that were handed out before, and the counter does not wrap, no session is created under the id of an unfinished one |
| SessionProtocol.OnlyOverloadsExceed | controller/internal/controller/task.go:262-276 | a step takes some worker over its capacity if and only if it lowers that capacity below the load or resumes a session on a full worker |
| SessionProtocol.DispatchRespectsCapacity | controller/internal/controller/task.go:262-276 | every state of a run is within capacity if and only if no step of the run lowers a capacity below the load or adds load to a full worker by resuming |
| Interactions.FlagsIff | controller/internal/controller/session.go:73-101 | in every run: a session is being cancelled exactly if it was finished with notice while unfinished, and its flag is up exactly if nothing has ended or finished on it since some accepted interaction began |
| Interactions.AdmissionIff | controller/internal/controller/session.go:76-90 | at every point of every run an interaction is let in exactly if the session was never finished with notice and none is open, and is refused without effect otherwise |
| Interactions.NoticeIsFinal | controller/internal/controller/session.go:317-327 | after a finish with notice of an unfinished session every later interaction is refused and changes nothing, whatever happens in between |
| Interactions.NewLetsIn | controller/internal/controller/session.go:172-254 | a created or adopted session lets its first interaction in |
| Interactions.EndedLetsIn | controller/internal/controller/session.go:92-101 | a session whose interaction has ended and that was never finished with notice lets the next one in |
| Interactions.OneAtATime | controller/internal/controller/session.go:76-101 | in runs without late ends, no interaction is let in while one is under way that no finish has cut off |
| Interactions.OverlapNeedsLateEnd | controller/internal/controller/session.go:92-101 | in every run, if two interactions are under way and no finish has cut off the first, then one that a finish had cut off has ended late, after another one had begun |
| Interactions.LateEndLetsIn | controller/internal/controller/session.go:92-101 | and once somebody else's end has cleared its flag, the next interaction is let in beside one under way |
| Interactions.TwoAtATime | controller/internal/controller/session.go:304-307 | a concrete run that ends with two interactions under way, neither of them cut off |
| Interactions.BornAsAsked | controller/internal/controller/session.go:172-254 | a session has, for good, the worker and index it was created for or reported with; at first it is unfinished, freshly stamped, and the one its id leads to |
| SyncRuns.RunKeepsSyncInv | controller/internal/controller/worker.go:237-255 | with any controller steps that do not need the worker's lock between the sync's critical sections, loads stay exact and an untouched session is as it was until the sync comes to it and then what the sync makes of it |
| SyncRuns.SyncReconcilesInRuns | controller/internal/controller/worker.go:246-255 | in every interleaving, at the end a session of the worker in the table that was last touched before the report is unfinished if and only if it was reported; sessions created meanwhile are unfinished |
| SyncRuns.OutcomeFixed | controller/internal/controller/worker.go:246-255 | whatever the order of the loops and whatever comes in between, two syncs of one report from one state agree on every session nobody else touched, up to the time they note |
| SyncRuns.ReportedExist | controller/internal/controller/session.go:197-254 | in every interleaving, at the end a reported id exists and is unfinished, unless it belongs to somebody else, was finished or touched after the report, or was cleaned up again |
| SyncRuns.OnlyLateAreCleaned | controller/internal/controller/session.go:364-380 | a clean-up that takes away a reported id during the sync finds it finished, and mismatched or finished after the report |
| SyncRuns.FinishesTouchedIffOvertaken | controller/internal/controller/worker.go:246-250 | a sync finishes a session touched after the report if and only if an interaction touches an unfinished session between the sync's look at its time stamp and the end it puts to it |
| SyncRuns.OwnEventSpares | controller/internal/controller/worker.go:246-255 | apart from that, no critical section of a sync changes a session touched after the report |
| SyncRuns.InteractionOvertakesSync | controller/internal/controller/worker.go:246-250 | from every state with an idle unreported session the overtaking run exists, and finishes the session a client has just begun to use |
| SyncRuns.SyncNeverStuck | controller/internal/controller/worker.go:246-255 | until it is complete a sync can always take its next critical section, whatever the others have done |
| SyncRuns.CompleteIsSettled | controller/internal/controller/worker.go:246-255 | a completed sync settles its report: old unreported sessions are finished and reported ones need nothing |
| SyncRuns.SettledAlong | controller/internal/controller/session.go:172-254 | nothing the controller does later unsettles a report |
| SyncRuns.SecondSyncIsStill | controller/internal/controller/worker.go:246-255 | syncing again with the same report and time, in any interleaving, changes nothing, except that it adopts a reported id that has left the table |
| SyncCalls.SyncCall.constructor | controller/internal/controller/worker.go:242-244 | gathers the worker's sessions of the table as they are at that moment |
| SyncCalls.SyncCall.Check | controller/internal/controller/worker.go:246-248 | one look of the first loop: chooses the session exactly if it is unreported and its time stamp old |
| SyncCalls.SyncCall.FinishChosen | controller/internal/controller/worker.go:249-249 | finishes the chosen session as it is by then |
| SyncCalls.SyncCall.ResumeReported | controller/internal/controller/worker.go:253-255 | one turn of the second loop, from whatever state the controller is in by then |
| SessionSync.SyncReconciles | controller/internal/controller/worker.go:237-255 | an undisturbed sync without mismatch: a session last touched before the report, or new by it, is unfinished exactly when it was reported; every reported id exists and is unfinished unless it was finished after the report was taken |
| SessionSync.SyncLeavesLaterSessions | controller/internal/controller/session.go:225-228 | an undisturbed sync leaves sessions touched after the report, and those of other workers, exactly as they were |
| SessionSync.SyncIdempotent | controller/internal/controller/worker.go:246-255 | an undisturbed second sync with the same report and report time changes no session, no table entry and no load |
| SessionSync.SyncOrderIrrelevant | controller/internal/controller/worker.go:246-255 | two undisturbed syncs that iterate their maps in different orders end in the same table contents, objects and loads, up to the identity of newly made objects |
| SessionSync.SyncKeepsOrphans | controller/internal/controller/session.go:197-254 | a sync makes no unfinished session outside the table and leaves those there were as they are |
| SessionSync.SyncKeepsExact | controller/internal/controller/worker.go:205-255 | a load is exact over the table after a sync if and only if it was before |
| SessionManager.SessionManager.AddWorker | controller/internal/controller/task.go:126-141 | a registered worker enters the bookkeeping with no load |
| SessionManager.SessionManager.SetCapacity | controller/internal/controller/task.go:151-163 | a heartbeat of a known worker sets capacity, visit and status, and no load |
| SessionManager.SessionManager.FinishSessions | controller/internal/controller/session.go:339-352 | starts finishing exactly the unfinished sessions of the worker that the table holds, all of them counted in its load |
| SessionManager.SessionManager.CreateSession | controller/internal/controller/session.go:172-195 | a new object under the next counter value; the state moves by the create step and nothing else changes |
| SessionManager.SessionManager.ResumeSession | controller/internal/controller/session.go:197-254 | the four cases of a reported session: mismatch, keep, revive and adopt, with the hard sync started exactly on a mismatch |
| SessionManager.SessionManager.FinishSession | controller/internal/controller/session.go:290-337 | finishing twice is finishing once; an interaction is cut off; with notice the session is barred for good, as `Interactions.NoticeIsFinal` says of this step, otherwise it is finished and the load drops by one; the background call is the one requested |
| SessionManager.SessionManager.GetSession | controller/internal/controller/session.go:256-267 | finds exactly the unfinished sessions of the table |
| SessionManager.SessionManager.GatherSessions | controller/internal/controller/session.go:269-288 | collects exactly the ids whose session is bound to the worker |
| SessionManager.SessionManager.CleanSessions | controller/internal/controller/session.go:354-380 | deletes exactly the sessions finished before the removal line and expires exactly the idle unfinished ones |
| SessionManager.SessionManager.BeginInteract | controller/internal/controller/session.go:73-90 | admits an interaction exactly when none is under way and none is being cancelled |
| SessionManager.SessionManager.EndInteract | controller/internal/controller/session.go:92-101 | clears the interaction flag and stamps the time of the last update, nothing else |
| SessionManager.SessionManager.Sync | controller/internal/controller/worker.go:196-256 | undisturbed, the two loops in any map order reach the reconciled state; status, last visit and hard syncs are as the answer dictates, also over a removal that came after the last look; the load invariant survives |
| SessionManager.SessionManager.SelectWorker | controller/internal/controller/task.go:224-260 | picks the first worker of greatest free capacity among the eligible ones, and none exactly when none has room; late heartbeats go into coma on the way |
| SessionManager.SessionManager.DispatchTask | controller/internal/controller/task.go:203-277 | undisturbed, it fails exactly when no candidate has room and otherwise reserves and creates on a worker of maximal free capacity |
| TaskRegistry.StepKeepsInv | controller/internal/controller/task.go:83-167 | every step of the registry keeps: registered workers are not dead and are listed under their own task, addresses are unique in a task, and of two workers of different tasks with one address one is about to be removed |
| TaskRegistry.AddressesUnique | controller/internal/controller/task.go:108-123 | whenever no removal is under way, no address is registered twice in whatever tasks |
| TaskRegistry.OnlyRemovalUnlists | controller/internal/controller/task.go:349-375 | no step but its own removal takes a worker off its list |
| TaskRegistry.OnlyHeartbeatLists | controller/internal/controller/task.go:83-147 | a step puts a worker on a list exactly if it is its heartbeat, for a task that exists and has nobody at that address |
| TaskRegistry.RemoveDeletesIff | controller/internal/controller/task.go:349-382 | a removal deletes its task if and only if the worker is not dead and the task lists nobody else, which includes a task with no workers |
| TaskRegistry.RemoveTakesOne | controller/internal/controller/task.go:367-375 | removing a registered worker takes out that worker from everywhere and nobody else from anywhere |
| TaskRegistry.LateRemovalDeletesNewTask | controller/internal/controller/task.go:362-381 | a concrete run in which a second removal of a revived worker object deletes a task created anew |
| TaskRegistry.TaskManager.UpdateWorker | controller/internal/controller/task.go:83-167 | errors exactly on an empty address, a non-positive capacity or an unknown task; otherwise refreshes the worker at the address or registers a new one and starts the removal of its rivals |
| TaskRegistry.TaskManager.CleanWorkers | controller/internal/controller/task.go:384-409 | exactly the silent alive workers of the listing go into coma, and removals start for exactly the idle ones in coma that have been silent for long |
| TaskRegistry.TaskManager.RemoveWorker | controller/internal/controller/task.go:349-382 | takes exactly the removal step |
| LockOrder.RunKeepsInv | controller/internal/controller/task.go:92-149 | goroutines that take locks in level order, with writer-preferring locks, keep mutual exclusion and the order in every run |
| LockOrder.NoWaitCycle | controller/internal/controller/task.go:203-275 | no chain of waiting goroutines ever closes |
| LockOrder.NoDeadlock | controller/internal/controller/task.go:203-275 | in every reachable state that is not finished, some goroutine can take its next action |
| LockOrder.CanFinish | controller/internal/controller/session.go:290-297 | from every reachable state there is a continuation in which every goroutine ends |
| LockOrder.RunsEnd | controller/internal/controller/session.go:290-297 | every run of the goroutines present is bounded by their remaining turns, so none of them can be made to spin |
| LockOrder.CounterRaceFree | controller/internal/controller/session.go:253-253 | a worker's load is never changed while another goroutine changes or reads it |
| ControllerScripts.EveryGoroutineDisciplined | controller/internal/controller/session.go:269-297 | every goroutine of the controller takes its locks in the order registry, worker, session table, session, holds none across a call to a worker, and touches a load only under its worker's lock |
| ControllerScripts.ControllerNeverDeadlocks | controller/internal/controller/worker.go:196-256 | any number of controller goroutines, started at any time, never deadlock: no wait cycle exists and everybody can still finish |
| PendingRpc.StepKeepsInv | controller/internal/controller/worker.go:133-192 | every step of callers and stream readers keeps: at most one response sent per request, with the right id, and entries only for live callers |
| PendingRpc.ReaderNeverStuck | controller/internal/controller/worker.go:182-192 | in every interleaving of send, response, duplicate response, timeout and cancellation, a send under the worker lock meets an open channel with a free place |
| PendingRpc.OneOwnResponse | controller/internal/controller/worker.go:154-158 | a request gets at most one response and it carries the request's own id |
| PendingRpc.NoEntryLeaks | controller/internal/controller/worker.go:141-147 | entries belong to calls that have not yet removed them; when all calls are over none is left |
| PendingRpc.WaitingCallerIsServed | controller/internal/controller/worker.go:182-192 | a response that arrives while its caller waits reaches that caller |
| PendingRpc.LateResponseIsDropped | controller/internal/controller/worker.go:189-191 | a response for an unknown, answered or abandoned request changes nothing |
| PendingRpc.Worker.FinalizeGrpcCall | controller/internal/controller/worker.go:182-192 | puts the response into the right channel and removes the entry; all other channels stay open and empty |
| PendingRpc.Worker.End | controller/internal/controller/worker.go:141-147 | removes the entry and closes the channel, which nobody can reach afterwards |
| Handshake.TranscriptIsHistory | worker/src/agentrl/worker/task.py:29-60 | in plain runs client and environment strictly alternate, and the replies' slices interleaved with the client's messages are the session history exactly, through the final reply |
| Handshake.PlainRunNeverStuck | worker/src/agentrl/worker/task.py:29-60 | until the environment has ended and the client knows, somebody can go on |
| Handshake.ReplyTellsEnd | worker/src/agentrl/worker/task_worker.py:183-188 | in every run: a reply says running exactly if no end comes before it, and otherwise finished with the code of the end |
| Handshake.LastReplyHasCode | worker/src/agentrl/worker/task_worker.py:258-259 | in a plain run in which the session has ended and the client is free, the last reply came after the end and carries its code |
| Handshake.RewrittenTranscriptIff | worker/src/agentrl/worker/task.py:91-99 | in every run without cancellation and full-history mode, `cover` and `clear` allowed: the transcript is the history at every turn of the client if and only if at every output it gets to see the history still begins with what it was at the last exchange |
| Handshake.FullHistoryIff | worker/src/agentrl/worker/task.py:41-45 | in every run without cancellation, with any rewriting and switching of modes: the last reply is the whole history at every turn of the client if and only if full-history mode was on at every output it got to see, or one of the two histories was empty |
| Handshake.CoverLosesOutput | worker/src/agentrl/worker/task.py:97-99 | a concrete run in which `cover` makes a reply lose what the environment said |
| Handshake.CancelIsFinal | worker/src/agentrl/worker/task_worker.py:274-282 | once `_cancel` runs, every later answer of `env_pull` is the cancellation and the next pull finds its signal, whatever was in flight |
| Handshake.StrandedIffKilled | worker/src/agentrl/worker/task_worker.py:153-188 | in every run, a client waits with no way on if and only if the task of its environment was cancelled before its first step |
| Handshake.ClientNeverStranded | worker/src/agentrl/worker/task_worker.py:290-295 | no run strands a client of a session that is not full-async, and one that waits when the environment has ended finds its output ready |
| Handshake.EarlyCancelStrands | worker/src/agentrl/worker/task_worker.py:290-292 | a cancellation handled before a full-async task has begun strands its client |
| Handshake.SplitHistory | worker/src/agentrl/worker/task_worker.py:57-70 | splits a history into its chat items and its reward items |
| Handshake.SplitKeepsOrder | worker/src/agentrl/worker/task_worker.py:57-70 | each side of the split is the history at increasing positions, namely at all positions of its kind |
| Handshake.Respond | worker/src/agentrl/worker/task_worker.py:254-265 | a response holds the chat part of the reply, its status, whether that is an end, and the last reward or zero |
| Handshake.SplitKeepsItems | worker/src/agentrl/worker/task_worker.py:57-70 | the split loses no item and makes none up |
| Handshake.ChatTranscriptIsHistory | worker/src/agentrl/worker/task_worker.py:218-218 | the chat parts of the replies, with the client's messages, are the chat part of the history |
| Handshake.Session.EnvPullEnter | worker/src/agentrl/worker/task.py:39-46 | `env_pull` up to its await takes exactly the asking step |
| Handshake.Session.EnvPullLeave | worker/src/agentrl/worker/task.py:107-114 | the rest of `action`: raises exactly on a cancellation, otherwise appends the messages and moves the pointer base |
| Handshake.Session.EnvFinish | worker/src/agentrl/worker/task.py:50-60 | the final output carries the status with its code, which `Handshake.ReplyTellsEnd` follows to the client, and the whole history with the pointer at what was sent before |
| Handshake.Session.AgentPullEnter | worker/src/agentrl/worker/task_worker.py:239-251 | refuses exactly while a request waits or after a cancellation, and then changes nothing |
| Handshake.Session.AgentPullLeave | worker/src/agentrl/worker/task_worker.py:251-254 | answers the slice of the history behind the pointer |
| Handshake.Session.CancelEnter | worker/src/agentrl/worker/task_worker.py:278-282 | sets the flag, the cancelled input and the signal |
| TaskWorker.RegisteredWithinLimit | worker/src/agentrl/worker/task_worker.py:190-214 | in every interleaving of starts, ends and cancellations at most `concurrency` sessions are registered |
| TaskWorker.CoroutinesBoundedIff | worker/src/agentrl/worker/task_worker.py:288-297 | with fresh ids, the running environments stay within the limit in every run if and only if cancelling waits for the environment |
| TaskWorker.CancelledTasksPileUp | worker/src/agentrl/worker/task_worker.py:290-297 | with full-async tasks any number of cancelled environments can be running at once |
| TaskWorker.TaskWorker.BeginCancel | worker/src/agentrl/worker/task_worker.py:274-286 | accepts exactly the known sessions and remembers which coroutine it concerns |
| TaskWorker.TaskWorker.EndCancel | worker/src/agentrl/worker/task_worker.py:288-297 | drops the session id from the map, whatever is registered under it by then |
| TaskWorker.TaskWorker.EndSample | worker/src/agentrl/worker/task_worker.py:161-182 | drops the ended session and its coroutine |
| TaskWorker.TaskWorker.StartSample | worker/src/agentrl/worker/task_worker.py:190-214 | refuses exactly a known id or a full worker, in that order, and otherwise registers |
| Allocation.StepKeepsInv | worker/src/agentrl/worker/environment/docker.py:151-178 | every await of session start, session end, clean-up and expiry keeps the locks sound, what was read under a lock true, and all limits |
| Allocation.MutualExclusion | worker/src/agentrl/worker/environment/state/redis.py:19-37 | two starts are never in the critical section of one subtype together, given the owner-checked lock |
| Allocation.LimitsHold | worker/src/agentrl/worker/environment/docker.py:158-178 | however starts, ends and clean-ups interleave, recorded users never exceed a positive concurrency limit and recorded uses never a positive reuse limit |
| AllocationTurns.LaterTurnDiffersIff | worker/src/agentrl/worker/environment/docker.py:151-178 | whatever the shuffles, a later turn of a subtype takes another container than its turn before exactly if an eligible candidate stands before the earlier one in that turn's order, or the earlier one has reached a limit once recorded |
| AllocationTurns.NoneDisplacedIff | worker/src/agentrl/worker/environment/docker.py:151-171 | a shared subtype gets one container however often it is asked for exactly if, by the records before the call and the orders alone, no turn passes over the container of the first |
| AllocationTurns.EndUndoesStartIff | worker/src/agentrl/worker/environment/docker.py:134-243 | after start and end the session is recorded nowhere exactly if no exclusive subtype was asked for twice and no shared turn displaced another's container; all other records are as before |
| AllocationTurns.PlacedByLimits | worker/src/agentrl/worker/environment/docker.py:136-171 | by limits, mutability and records alone: a request with reuse limit 1, or a mutable one with any limit, ends up alone on a new container marked for deletion; any other one is on a listed or shared new container, and if asked once, on a listed one with room whenever there is one |
| AllocationTurns.TurnTakesCandidateIff | worker/src/agentrl/worker/environment/docker.py:159-178 | however often a subtype is asked for, a turn takes a candidate with room exactly if there is one at that moment, and creates a container otherwise |
| AllocationSolo.TurnAlone | worker/src/agentrl/worker/environment/docker.py:151-178 | when nobody interferes, the steps of an interleaved start for its next subtype end in exactly the turn of the undisturbed call: same users, uses and candidates, the lock free, nothing else changed |
| AllocationSolo.EndAlone | worker/src/agentrl/worker/environment/docker.py:240-243 | and the steps of an end for one container take the session off it, and nothing else |
| AllocationTurns.DistinctKeepsTrack | worker/src/agentrl/worker/environment/docker.py:134-202 | asking for every subtype once is always undone |
| AllocationTurns.LimitForgetsFirst | worker/src/agentrl/worker/environment/docker.py:155-171 | a legal call that fails this: one shared subtype twice, one session at a time |
| AllocationTurns.ShuffleForgetsFirst | worker/src/agentrl/worker/environment/docker.py:152-171 | a legal call that fails this without any limit, by the shuffle alone |
| AllocationTurns.UnlimitedKeepsTrack | worker/src/agentrl/worker/environment/docker.py:152-171 | a legal call that meets it: one subtype twice, no limits, nothing listed |
| AllocationTurns.ExclusiveForgetsFirst | worker/src/agentrl/worker/environment/docker.py:136-145 | an exclusive subtype asked for twice always fails it |
| Allocator.Controller.FirstEligible | worker/src/agentrl/worker/environment/docker.py:162-168 | the first candidate below both limits, or none |
| Allocator.Controller.AllocateShared | worker/src/agentrl/worker/environment/docker.py:151-178 | run alone, it takes the first eligible candidate of the shuffled order and creates a container exactly when there is none, then exactly one; it ends with the lock free |
| Allocator.Controller.AllocateExclusives | worker/src/agentrl/worker/environment/docker.py:136-145 | one new container for every request of an exclusive subtype, recorded and counted at once; the map keeps the last of each subtype |
| Allocator.Controller.StartSession | worker/src/agentrl/worker/environment/docker.py:128-202 | exclusive subtypes first, then one turn for each shared one in the order of each shuffle; what is stored is the last container of each subtype and the exclusive ones among them |
| Allocator.Controller.EndSession | worker/src/agentrl/worker/environment/docker.py:228-246 | takes the session off the shared containers stored for it, and the exclusive ones stored for it away, and nothing else |
| Allocator.Controller.StartThenEnd | worker/src/agentrl/worker/environment/docker.py:128-246 | ending undoes starting exactly if the stored map kept track of every container, by a condition on the records before and the shuffles; what others have on record is never touched; the container of a request with reuse limit 1, or of a mutable one with any limit, was new and is gone, and any other one is still there |
| DependentDeletion.DeleteTakesReachable | worker/src/agentrl/worker/environment/docker.py:481-527 | a deletion that ends has deleted the container and everything its labels lead to, from Docker and from the store, and nothing else |
| DependentDeletion.CycleNeverEnds | worker/src/agentrl/worker/environment/docker.py:508-513 | two containers that name each other: no stack is deep enough |
| DependentDeletion.DeletionEndsIff | worker/src/agentrl/worker/environment/docker.py:508-513 | the recursion over dependency labels ends, with a deep enough stack, if and only if no cycle of labels is reachable |
| DependentDeletion.DockerController.DeleteContainer | worker/src/agentrl/worker/environment/docker.py:481-527 | the loop over the label, dependencies first, does exactly that deletion, and succeeds only without a cycle |
| KeyRange.RangeEnd | worker/src/agentrl/worker/environment/state/etcd.py:460-468 | the scan from the back finds the end of the range that holds exactly the keys with the prefix |
| KeyRange.RangeIsPrefix | worker/src/agentrl/worker/environment/state/etcd.py:460-468 | a key is in the range from a prefix to its range end if and only if it has the prefix, also for the empty and the all-0xFF prefix |
| StateStore.CountIsUsers | worker/src/agentrl/worker/environment/state/etcd.py:246-254 | the ranged count of allocation keys is the number of sessions recorded |
| StateStore.QueriesAgree | worker/src/agentrl/worker/environment/state/etcd.py:246-278 | current uses, total uses and the containers above a threshold agree with the map of sets |
| StateStore.AllocateRefines | worker/src/agentrl/worker/environment/state/etcd.py:226-237 | allocating in the key space is allocating in the map of sets |
| StateStore.ReleaseRefines | worker/src/agentrl/worker/environment/state/etcd.py:280-286 | releasing in the key space is releasing in the map of sets |
| StateStore.RemoveTakesLongerIds | worker/src/agentrl/worker/environment/state/etcd.py:288-301 | for every id and every longer one: removing the first takes the users of the longer one away in etcd, and not in memory |
| StateStore.RemoveRefinesIff | worker/src/agentrl/worker/environment/state/etcd.py:288-301 | the ranged delete, whose prefix has no closing colon, removes what the map removes if and only if no other container in use has an id that extends the removed one |
| StateStore.EtcdRefinesLocal | worker/src/agentrl/worker/environment/state/local.py:24-73 | after any sequence of updates with colon-free and prefix-free ids, both providers answer every query alike |
| StateStore.LocalTellsHistory | worker/src/agentrl/worker/environment/state/local.py:30-52 | after any updates the users of a container are the sessions recorded on it and neither released nor removed since, and its uses are as many as it was taken since it was last removed |
| StateStore.EtcdTellsHistory | worker/src/agentrl/worker/environment/state/etcd.py:226-301 | the same of the etcd provider, with colon-free and prefix-free ids |
| StateStore.LocalStateProvider.AllocateContainer | worker/src/agentrl/worker/environment/state/local.py:24-30 | adds the session and counts the use |
| StateStore.LocalStateProvider.ReleaseContainer | worker/src/agentrl/worker/environment/state/local.py:38-40 | drops the session and keeps the count |
| StateStore.LocalStateProvider.RemoveContainer | worker/src/agentrl/worker/environment/state/local.py:68-73 | drops the set and the count |
| StateStore.EtcdStateProvider.AllocateContainer | worker/src/agentrl/worker/environment/state/etcd.py:226-237 | fails for an unknown session; otherwise writes the key and counts the use |
| StateStore.EtcdStateProvider.IncrementUses | worker/src/agentrl/worker/environment/state/etcd.py:364-401 | when nobody else writes the counter, it rises by one |
| StateStore.EtcdStateProvider.ContainerTotalUses | worker/src/agentrl/worker/environment/state/etcd.py:256-263 | returns the counter or zero: what the map of counts says, whenever the key space represents it |
| StateStore.EtcdStateProvider.ReleaseContainer | worker/src/agentrl/worker/environment/state/etcd.py:280-286 | deletes the allocation key, and then represents the map of sets without that session |
| StateStore.EtcdStateProvider.RemoveContainer | worker/src/agentrl/worker/environment/state/etcd.py:288-301 | deletes the key range and the counter |
| StateStore.EtcdStateProvider.ContainerCurrentUses | worker/src/agentrl/worker/environment/state/etcd.py:246-254 | returns the number of sessions recorded |
| UseCounter.NoLostIncrement | worker/src/agentrl/worker/environment/state/etcd.py:364-401 | with any number of clients in the compare-and-swap loop, the counter is the number of transactions that succeeded since it was last deleted |
| UseCounter.UsesAreCallsLessLost | worker/src/agentrl/worker/environment/state/etcd.py:364-401 | in every interleaving the recorded uses are the calls that returned since the counter was last deleted, less those that gave up without an error |
| UseCounter.GivingUpTakesSixteenWrites | worker/src/agentrl/worker/environment/state/etcd.py:366-401 | a call gives up only after sixteen attempts in each of which somebody else wrote between its read and its transaction |
| UseCounter.SixteenOvertakesLoseAUse | worker/src/agentrl/worker/environment/state/etcd.py:366-401 | a legal run in which seventeen calls return and sixteen uses are on record |
| UseCounter.Counter.Increment | worker/src/agentrl/worker/environment/state/etcd.py:364-401 | the loop, with others writing in the meantime: counts the use in the first attempt nobody disturbs, on top of what is stored then, and gives up exactly when all sixteen are disturbed |
| ConfigTree.ExpandClean | worker/src/agentrl/worker/config/loader.py:100-121 | expansion leaves no `default` or `overwrite` key on any path of nested dictionaries |
| ConfigTree.ExpandIdempotent | worker/src/agentrl/worker/config/loader.py:100-121 | expanding twice is expanding once |
| ConfigTree.ExpandKeepsKeys | worker/src/agentrl/worker/config/loader.py:100-121 | expansion keeps every other entry of every dictionary, and adds none |
| ConfigTree.MergeGet | worker/src/agentrl/worker/config/loader.py:141-150 | what a merge holds at every path, in terms of what the two sides hold there |
| ConfigTree.MergeOverLeaf | worker/src/agentrl/worker/config/loader.py:141-150 | where the upper side says nothing about a path below a leaf of the lower side, the leaf gives way exactly if the upper side has a dictionary in its place |
| ConfigTree.ExpandPrecedence | worker/src/agentrl/worker/config/loader.py:113-119 | what an expanded dictionary holds at every path of every entry, by overwrite, entry and default alone: a deciding overwrite, then a leaf of the entry, then the default; a leaf of the entry above the path hides the default unless the overwrite has a dictionary in its place |
| ConfigTree.MergeHolds | worker/src/agentrl/worker/config/loader.py:141-150 | merging puts one more layer on top: at every path the highest layer that says anything about it stands |
| ConfigTree.HoldsIsExact | worker/src/agentrl/worker/config/loader.py:141-150 | what stands at every path leaves no choice: two trees that hold what the same layers say are equal |
| ConfigLoader.LoadsIffNoCycle | worker/src/agentrl/worker/config/loader.py:41-66 | a file loads if and only if everything on every import walk from it is present and well formed and no walk meets a file twice |
| ConfigLoader.LoadHolds | worker/src/agentrl/worker/config/loader.py:57-98 | a load gives exactly the tree in which, path by path and at any depth, a dictionary's own entries stand, where they are silent the last import that says anything, and lists keep their items in order; with the special entries expanded |
| ConfigLoader.LoadPrecedence | worker/src/agentrl/worker/config/loader.py:57-121 | under every key of a loaded dictionary stands what overwrite, entry and default resolve to, these three being taken from the file's own entries before its imports |
| ConfigLoader.PlainLoadHolds | worker/src/agentrl/worker/config/loader.py:68-98 | for a file with imports at its top and no special entries: at every path its entries stand as written, and where they say nothing the last import that says anything |
| ConfigLoader.TreeIsParsed | worker/src/agentrl/worker/config/loader.py:68-98 | what the parser makes of any tree is right path by path, whatever was being loaded meanwhile |
| ConfigLoader.ParsedIsExact | worker/src/agentrl/worker/config/loader.py:68-98 | and nothing else is |
| ConfigLoader.StackIrrelevant | worker/src/agentrl/worker/config/loader.py:43-46 | inside an import-closed set of files, only the part of the loading stack in that set matters to a meaning, so a memoised result is right under every stack |
| ConfigLoader.TreeSome | worker/src/agentrl/worker/config/loader.py:68-98 | a tree has a meaning exactly when its imports are strings or lists of strings and each of them loads |
| ConfigLoader.ConfigLoader.LoadFile | worker/src/agentrl/worker/config/loader.py:41-66 | the memoised result is the unmemoised recursive meaning under the current stack; `loading` is restored on success and on failure; the memo stays right |
| ConfigLoader.ConfigLoader.LoadFrom | worker/src/agentrl/worker/config/loader.py:19-21 | a load from outside succeeds exactly when no cycle, missing or malformed file is reachable, whatever was loaded or failed before; the result holds, at every path, what the file's own entries over its imports say, expanded |
| ConfigLoader.ConfigLoader.ParseImports | worker/src/agentrl/worker/config/loader.py:68-98 | replaces the imports of a tree by what they mean, in dictionaries and lists at any depth |
| ConfigLoader.ConfigLoader.ParseImport | worker/src/agentrl/worker/config/loader.py:72-87 | an `import` entry: one string, a list of strings merged in order, or an error |
| ConfigLoader.ConfigLoader.ParseEntries | worker/src/agentrl/worker/config/loader.py:88-91 | the other entries, in any order; an error exactly when one of them is one |
| RwLock.StepKeepsSafe | trainer/src/agentrl/trainer/utils/aio_rwlock.py:45-84 | every step keeps the counters exact, writers exclusive, and readers in a writer's way asked to stop |
| RwLock.RunKeepsSafe | trainer/src/agentrl/trainer/utils/aio_rwlock.py:45-84 | in every run, cancellations included, a writer shares the lock with nobody and the reader count is the number of tasks that read |
| RwLock.EntersIff | trainer/src/agentrl/trainer/utils/aio_rwlock.py:45-84 | at every point of every run a reader gets in exactly if nobody writes and no writer waits, however many read, and a writer exactly if nobody reads or writes |
| RwLock.WriterBarsReaders | trainer/src/agentrl/trainer/utils/aio_rwlock.py:49-52 | over any stretch in which a writer waits, nobody starts reading |
| RwLock.StepKeepsWakeups | trainer/src/agentrl/trainer/utils/aio_rwlock.py:45-84 | a step leaves a parked task with a true guard and no wake-up if and only if it cancels the last waiting writer, with no active writer, over a parked reader that has no wake-up |
| RwLock.RunKeepsWakeups | trainer/src/agentrl/trainer/utils/aio_rwlock.py:45-84 | in runs without such a cancellation no wake-up is ever lost |
| RwLock.CancelFreeStrandsNobody | trainer/src/agentrl/trainer/utils/aio_rwlock.py:76-78 | runs that cancel no waiting writer are such runs |
| RwLock.FreeLockIsTaken | trainer/src/agentrl/trainer/utils/aio_rwlock.py:45-84 | when the lock is free and somebody is parked, a wake-up already on its way lets a task in, a writer if one waits |
| RwLock.CancelledWriterStrandsReader | trainer/src/agentrl/trainer/utils/aio_rwlock.py:67-78 | a concrete run that ends with a free lock and a reader parked for good |
| RwLock.WriteEnforceRWLock.AcquireReader | trainer/src/agentrl/trainer/utils/aio_rwlock.py:45-52 | enters exactly when no writer is active or waiting, else parks |
| RwLock.WriteEnforceRWLock.ReleaseReader | trainer/src/agentrl/trainer/utils/aio_rwlock.py:54-61 | the last reader wakes everybody |
| RwLock.WriteEnforceRWLock.AcquireWriter | trainer/src/agentrl/trainer/utils/aio_rwlock.py:63-78 | announces itself, asks every reader to stop, and enters exactly when nobody holds the lock |
| RwLock.WriteEnforceRWLock.ReleaseWriter | trainer/src/agentrl/trainer/utils/aio_rwlock.py:80-84 | frees the lock and wakes everybody |
| RwLock.WriteEnforceRWLock.CancelWriter | trainer/src/agentrl/trainer/utils/aio_rwlock.py:76-78 | withdraws the announcement and wakes nobody |
| GroupBuffer.StepKeepsInv | trainer/src/agentrl/trainer/components/buffer.py:16-43 | every step, cancellations included, keeps whole groups in the queue, per-group order, good batches, the length bound, and no lost signal |
| GroupBuffer.RunKeepsInv | trainer/src/agentrl/trainer/components/buffer.py:16-43 | in every run batches are made of complete groups in multiples of what was asked for, the queue stays below `max_size + group_size`, and an unreleased waiter could not go on |
| GroupBuffer.RunConservesItems | trainer/src/agentrl/trainer/components/buffer.py:20-31 | every item added is returned, queued or in a partial group, exactly as often as it was added |
| GroupBuffer.StallsIff | trainer/src/agentrl/trainer/components/buffer.py:16-43 | an adder and a getter can be left waiting for each other if and only if the getter asks for more than a full queue can give |
| GroupBuffer.Buffer.Add | trainer/src/agentrl/trainer/components/buffer.py:16-31 | parks exactly while the queue is full, otherwise accepts the item |
| GroupBuffer.Buffer.ResumeAdd | trainer/src/agentrl/trainer/components/buffer.py:17-19 | clears the event and tries again |
| GroupBuffer.Buffer.Get | trainer/src/agentrl/trainer/components/buffer.py:33-43 | parks exactly while too little is queued, otherwise returns the longest prefix of the queue that is a multiple |
| GroupBuffer.Buffer.ResumeGet | trainer/src/agentrl/trainer/components/buffer.py:42-43 | clears the event and tries again |
| Base64.DecodeEncode | eval/src/agentrl/eval/utils/data_url.py:82-82 | whatever is encoded decodes to the same bytes, with the lenient decoder |
| Base64.CharsAreAlphabet | eval/src/agentrl/eval/utils/data_url.py:82-82 | the characters are those of the standard alphabet, in its order |
| Base64.TestVectors | eval/src/agentrl/eval/utils/data_url.py:82-82 | the test vectors of RFC 4648, section 10 |
| Base64.LenientVectors | eval/src/agentrl/eval/utils/data_url.py:61-61 | the decoder stops at enough padding, skips what it does not know, and refuses an incomplete group and any text that is not ASCII |
| DataUrl.BuildKeepsPayload | eval/src/agentrl/eval/utils/data_url.py:68-83 | the payload survives building and parsing for every media type and every parameters without a comma |
| Base64.PrefixedDecode | eval/src/agentrl/eval/utils/data_url.py:61-61 | an encoding with six or more characters of the alphabet in front of it still decodes to its payload if and only if what stands in front stops the lenient decoder with that very payload |
| DataUrl.BuildKeepsPayloadIff | eval/src/agentrl/eval/utils/data_url.py:38-83 | for every media type and all parameters: what was built reads as base64 exactly if a parameter before the first comma of the header says so, and keeps the payload exactly if there is no comma, or the text behind the comma is read as base64 and already ends the data with that payload; a percent-decoded remainder is always too long |
| DataUrl.CommaLosesBase64 | eval/src/agentrl/eval/utils/data_url.py:43-59 | a comma after any ordinary media type, whatever follows it and whatever the parameters, and what was built is not read as base64 and comes back with another payload |
| DataUrl.ReadsParts | eval/src/agentrl/eval/utils/data_url.py:38-65 | what is read from any parts of a header: a first part with a slash is the media type, in lower case, all others are parameters in their order; the data is base64 exactly if one of them is that word in letters of either case, and only base64 can be refused |
| DataUrl.BuildKeepsType | eval/src/agentrl/eval/utils/data_url.py:46-79 | a media type in lower case is read back as it was |
| DataUrl.ExtrasKeepOrder | eval/src/agentrl/eval/utils/data_url.py:70-71 | building keeps exactly the parameters that do not say base64, in their order |
| DataUrl.NoTypeIsPlainText | eval/src/agentrl/eval/utils/data_url.py:46-61 | data without a media type is plain text, percent-decoded |
| DataUrl.EscapedByteReturns | eval/src/agentrl/eval/utils/data_url.py:61-61 | every byte, escaped with digits of either kind, comes back |
| DataUrl.HexDigitsOnly | eval/src/agentrl/eval/utils/data_url.py:61-61 | and nothing else is a digit of an escape |
| DataUrl.Utf8TellsChar | eval/src/agentrl/eval/utils/data_url.py:61-61 | the bytes of a character lead back to it and are no more than needed |
| DataUrl.Reparse | eval/src/agentrl/eval/utils/data_url.py:38-65 | everything the parser accepts can be built and parsed again: same media type, same payload, same parameters with `base64` last |
| DataUrl.RebuildIsStable | eval/src/agentrl/eval/utils/data_url.py:68-83 | building what was built and parsed gives the same string |
| DataTree.ExtractSpec | eval/src/agentrl/eval/utils/data_url.py:100-145 | extraction replaces exactly the data URLs by names, names every payload once and writes every new payload to one new file |
| DataTree.NamesDistinct | eval/src/agentrl/eval/utils/data_url.py:118-128 | different payloads have different names |
| DataTree.RoundTrip | eval/src/agentrl/eval/utils/data_url.py:99-188 | rebuilding an extracted tree gives the same shape, plain leaves and payloads (media types: `DataTree.TypesRoundTripIff`) if and only if no plain text is shaped like a numbered file that exists (strict: like any numbered file) |
| DataTree.TypesRoundTripIff | eval/src/agentrl/eval/utils/data_url.py:100-188 | extracting and rebuilding keeps the media type of every data URL exactly if each is what comes back for the type that its payload has first in the tree |
| DataTree.TableTypesReturn | eval/src/agentrl/eval/utils/data_url.py:19-32 | every type of the table comes back, but `image/jpg` as `image/jpeg` |
| DataTree.OtherTypesReturnIff | eval/src/agentrl/eval/utils/data_url.py:113-115 | any other type comes back exactly if the extension guessed for it is none of the table's, and it is what is guessed for that extension, or the default if nothing is |
| DataTree.TableExtensions | eval/src/agentrl/eval/utils/data_url.py:19-32 | every type of the table gets its own extension |
| DataTree.FileShapedIff | eval/src/agentrl/eval/utils/data_url.py:18-18 | a text is taken for a file name exactly if it is three digits or more and an extension, with at most a line break behind |
| DataTree.NameInjective | eval/src/agentrl/eval/utils/data_url.py:123-123 | the number of a file can be read off its name, whatever the extension |
| DataTree.Extractor.EnsureFile | eval/src/agentrl/eval/utils/data_url.py:118-128 | one name per payload; a new one takes the next number and is written once |
| DataTree.Extractor.Walk | eval/src/agentrl/eval/utils/data_url.py:130-145 | the walk over the tree, left to right, is the extraction |
| TrimImages.TrimText | eval/src/agentrl/eval/utils/messages.py:23-64 | trimming removes exactly the images with `max_images` or more images after them and leaves everything else in place, tool results included |
| TrimImages.TrimKeepsLastPictures | eval/src/agentrl/eval/utils/messages.py:23-64 | the images that remain are the last `max_images` in reading order |
| TrimImages.TrimTwice | eval/src/agentrl/eval/utils/messages.py:23-64 | trimming to j and then to k is trimming to the smaller, for any messages |
| TrimImages.Trim | eval/src/agentrl/eval/utils/messages.py:27-64 | the loop over messages from the end; an error exactly when a tool result holds something that is not a dictionary |
| TrimImages.TrimBlocks | eval/src/agentrl/eval/utils/messages.py:36-61 | the loop over the blocks of one list from the end |
| TrimImages.TrimSubs | eval/src/agentrl/eval/utils/messages.py:40-49 | the loop over the blocks of a tool result from the end |
| Advantage.ComputeGae | trainer/src/agentrl/trainer/algorithms/core_algos.py:94-105 | the backward loop computes, for every token, the sum of all later errors discounted by gamma lambda |
| Advantage.ReturnsMix | trainer/src/agentrl/trainer/algorithms/core_algos.py:98-105 | the returns satisfy the lambda-return equation |
| Advantage.ReturnsAreRewardsToGo | trainer/src/agentrl/trainer/algorithms/core_algos.py:98-105 | with lambda 1 the returns are the discounted rewards to go, whatever the value estimates |
| Advantage.AdvantageIsDelta | trainer/src/agentrl/trainer/algorithms/core_algos.py:98-103 | with lambda 0 an advantage is its own error |
| Advantage.RlooIsLeaveOneOut | trainer/src/agentrl/trainer/algorithms/core_algos.py:216-224 | in a group of several, an advantage is the score minus the mean of the others |
| Advantage.RlooOfOne | trainer/src/agentrl/trainer/algorithms/core_algos.py:216-224 | a group of one keeps its score |
| Advantage.RlooSumsToZero | trainer/src/agentrl/trainer/algorithms/core_algos.py:216-224 | in a group of several, the advantages sum to zero |

## Left out

- HTTP, gRPC, Docker, Kubernetes, Redis, Consul and Postgres clients, JSON coding, logging, dashboards and command lines: plumbing without state of their own.
- Torch, NCCL, tokenizers and bin packing: foreign code.
- Whitening and normalisation by the standard deviation: they need square roots, and masking is a product afterwards.
- The Kubernetes allocator and the Consul counter: they repeat the Docker and etcd protocols.
- Session leases and keep-alive in etcd, and the lock leases: expiry is a step or assumed away.
- Health checks and the homepage container of `start_session`: they create exclusive containers only.
- The index tables of tasks (`CreateOrValidateTask`, index mapping in `DispatchTask`): lookups without interference.
- `MarkWorkerStale`: it sets the flag that `SelectWorker` reads.
- Sets in trees of results, and `scrub`: a set has no order to compare leaf by leaf.
- `resize_images` and the other message helpers: image libraries.
- Lists of tasks for cancelling everything (`CallCancelAll`, `_cancel_all`): loops over the single operations.
- Allocator.Controller.StartSession: has no homepage container, which is one more exclusive container; and it is one call that nothing interrupts, the interleavings being those of `Allocation`.
- Allocator.Controller.EndSession: deletes the exclusive containers from the records; what else their deletion takes along is `DependentDeletion`.
- Lone surrogates in strings: characters are Unicode scalar values; the code's parser refuses percent-encoded data with a lone surrogate in it.
- SessionManager.SessionManager.DispatchTask: models a pass in which nothing interferes, because under interference the loop may retry for ever; the interleaved increments are steps of `SessionProtocol`.
- DependentDeletion.DockerController.DeleteContainer: reads every label when it needs it, because a container object handed in with labels read earlier differs only when they have changed in between; Docker's own errors are swallowed by the code and have no effect here.
- StateStore.EtcdStateProvider.IncrementUses: models the counter that nobody else writes; the loop with others at work, and what giving up loses, is `UseCounter`.
- SessionSync.SyncReconciles: models a sync that nothing interrupts; the interleaved sync is `SyncRuns`.
- SessionSync.SyncLeavesLaterSessions: models a sync that nothing interrupts; of interleaved syncs it is false, with the exact condition in `SyncRuns.FinishesTouchedIffOvertaken`.
- SessionSync.SyncIdempotent: models two syncs that nothing interrupts; for interleaved ones see `SyncRuns.SecondSyncIsStill`.
- SessionSync.SyncOrderIrrelevant: models two syncs that nothing interrupts; for interleaved ones see `SyncRuns.OutcomeFixed`.
- SessionManager.SessionManager.Sync: runs its loops without interruption; `SyncCalls.SyncCall` has them critical section by critical section.
- DataUrl.Reparse: lower-cases ASCII letters only, because Unicode case mapping is a table of the Python runtime.
- ConfigLoader.ConfigLoader.LoadFile: the order in which a dictionary's entries are loaded is arbitrary, because only the choice among several errors depends on it.
- TrimImages.TrimKeepsLastPictures: for a message with several lists reading order means output, input, content, because the code visits them in the opposite order.
