# Verified models of Tinkerbell components

Dafny models of four stateful parts of Tinkerbell, with proofs about every run, every interleaving or every input.

- **Shared serial console** (`secondstar/internal`). The sessions of a user share one BMC console. `SessionWorld` gives the handler as a transition system: one program counter per session, the published `State` objects, the store, and histories of the output, the input and the close channel. `Next` is one atomic step, `After` a whole run, so a statement about all runs is a statement about all interleavings. `SessionHistory` shows that the histories are exactly what the actions of the run say; `SessionCounts`, `SessionSignals`, `SessionOutput` and `SessionInput` prove invariants of all runs; `SessionProgress` shows when a session can go on; `SessionDispatch` and `SessionRaces` settle when they are enough and exhibit the interleavings in which the comments in the code are too optimistic. `Escape` and `MultiWriters` model the escape watcher and the multi-writer as imperative code; `RwMutex` proves that the locks of the store and the multi-writer make their operations the single steps that `SessionWorld` takes them for.
- **Workflow agent** (`tink/agent/agent.go`). `AgentLoop` is the loop, run against a script of answers of its environment. `Agent` defines the life cycle of an action as an automaton over the agent's calls; `AgentLoop.Run` is proved to keep to it for every script, and `AgentTraces` proves what it means for whole traces. `HumanDuration` is the duration printer with its parser.
- **BMC API objects** (`api/v1alpha1/bmc`). `GoHeap` models pointers, slices and maps as heap objects; `BmcObjects` and `BmcApi` are the structs, their deep copies and the in-place `SetCondition`; `BmcMeaning` spells out, field by field, what equal values have in common; `Conditions` says what a run of `SetCondition` calls amounts to. `TaskName` covers task names and `Decimal` the numbers in them.
- **X-Forwarded-For** (`pkg/xff`). `Xff` models the backward scan, the subnets and the rewriting of the remote address.

How the deep copies are stated: `R` is a set of objects that holds everything reachable from the source; `X.Value(R)` is its meaning without identities, with nil kept apart from empty; the copy lives in a set `S` of new objects and has the same meaning. The methods modify nothing but `out`, so the source is unchanged.

Where the code and its comments disagree, the model follows the code:

- `secondstar/internal/handler.go:22` says that the channel signals all connected sessions. The code sends once on an unbuffered channel, so one session is taken out of its select (`SessionRaces.SignalIsNotABroadcast`, reached from the start by `SessionRaces.SignalLeavesOneBehind`). It empties the select if and only if the receiver was alone in it (`SessionSignals.SignalReachesAllIff`); the exact count over all runs is `SessionSignals.SignalsAreRendezvous`.
- The lookup at line 39 and the publication at line 103 are separate steps. Two sessions of a user can both become initial sessions, and one of them can then call `Wait` on a missing State (`SessionRaces.DoubleDispatchWaitsOnNil`), skip its signal or send it to another State (`SessionRaces.SignalIsSkipped`, `SessionRaces.SignalGoesElsewhere`). When lookups do not overlap this cannot happen (`SessionDispatch.ExclusiveDispatch`), and the condition is exact: a step leaves all initial sessions reading their own State in every further course without overlap if and only if it is no overlapping lookup itself (`SessionDispatch.ExclusiveIff`).
- A session that has looked a State up may register with it after the State was deleted (`SessionRaces.LateAttach`); `SessionDispatch.SilentAfterDeleteIff` gives the exact condition under which a deleted State stays without writers.
- A negative `Retries` makes the agent report success without executing anything (`AgentTraces.NegativeRetriesReportSuccess`); at least one execution happens if and only if `Retries >= 0` (`AgentTraces.ResultIsTheLastExecution`).

## Model

| member | source | states |
|---|---|---|
| `SessionCounts.RegistersAreExact` | secondstar/internal/handler.go:169-203 | In every interleaving and for every State: the wait group counts the sessions between `wg.Add` and `wg.Done`, the counter those between +1 and -1, and the multi-writer lists each session between `Add` and `Remove` exactly once |
| `SessionCounts.WaitReturnsDrained` | secondstar/internal/handler.go:177-178 | Whenever a `Wait` can return, its State has no writer, and any session still counted has not yet reached `wg.Add` |
| `SessionCounts.CountsRun` | secondstar/internal/handler.go:37-256 | The three registers stay exact along every run, from any world in which they are exact |
| `SessionCounts.ShapeStep` | secondstar/internal/handler.go:37-256 | Every step keeps all references of store and sessions pointing to published States, and an additional session never holds its own |
| `SessionCounts.ExtraRegisters` | secondstar/internal/handler.go:192-203 | Each step of an additional session changes the wait group, the counter and the writers as its position between the paired calls changes |
| `SessionSignals.SignalsAreRendezvous` | secondstar/internal/handler.go:169-177 | Over every run: as many signals were sent on a State as sessions left because of one, and as initial sessions sent one there |
| `SessionSignals.SignalReachesAllIff` | secondstar/internal/handler.go:171-177 | After a send no additional session is left in the select of that State if and only if the receiver was the only one in it; the sender goes on to wait for the State it fetched first |
| `SessionSignals.LeavesSelectOnce` | secondstar/internal/handler.go:236-255 | Over every run: the select cases that the run takes for an additional session are exactly one once it is past its select and none before, and the escape case only after its own watcher saw an escape |
| `SessionDispatch.ExclusiveDispatch` | secondstar/internal/handler.go:37-44 | If lookups miss only while no initial session of the user is in flight: each initial session fetches, signals, waits for and deletes its own State, no `Wait` is called on a missing one, and each State is signalled at most once, reaching at most one session |
| `SessionDispatch.ExclusiveIff` | secondstar/internal/handler.go:37-170 | After every run without overlapping lookups and for every enabled step: the step is no overlapping lookup if and only if in every continuation without overlapping lookups every initial session reads its own State only |
| `SessionDispatch.OthersLeaveByThemselves` | secondstar/internal/handler.go:236-255 | Without overlapping lookups: once one session was reached by the signal, the run takes every other session past its select out of it through its own context or its own escape |
| `SessionDispatch.OverlapLosesTheState` | secondstar/internal/handler.go:103-170 | From any world with two initial sessions of a user before their Get, some continuation without any lookup makes one of them fetch something else than its own State |
| `SessionDispatch.SilentAfterDeleteIff` | secondstar/internal/handler.go:177-199 | A drained and deleted State stays without writers in every continuation if and only if no session is between its lookup and `wg.Add` |
| `SessionRaces.DoubleDispatchWaitsOnNil` | secondstar/internal/handler.go:170-178 | From any world with two serving initial sessions of a user, one can wait for and delete the other's State, which then waits on nil |
| `SessionRaces.WaitsOnNil` | secondstar/internal/handler.go:170-177 | A serving session whose entry is gone when its command ends calls `Wait` on a missing State |
| `SessionRaces.TwoInitialSessions` | secondstar/internal/handler.go:37-109 | That world is reachable from the start, for every user |
| `SessionRaces.LateAttach` | secondstar/internal/handler.go:192-199 | A session that looked the State up while the initial session was alone can register with it after the Delete |
| `SessionRaces.InitialAndHolder` | secondstar/internal/handler.go:37-44 | That world is reachable from the start, for every user |
| `SessionRaces.SignalIsNotABroadcast` | secondstar/internal/handler.go:171-177 | With two attached sessions, the signal takes one out of its select and leaves the other as it was |
| `SessionRaces.InitialAndTwoAttached` | secondstar/internal/handler.go:37-203 | Such a world is reachable from the start, for every user |
| `SessionRaces.SignalLeavesOneBehind` | secondstar/internal/handler.go:171-177 | From the start, for every user: the initial session has signalled, one session is still in its select, and Wait cannot return |
| `SessionRaces.SignalIsSkipped` | secondstar/internal/handler.go:171-177 | If a rival deletes the entry between the two Gets, the initial session waits without having signalled, and its attached session stays in its select |
| `SessionRaces.SignalGoesElsewhere` | secondstar/internal/handler.go:171-177 | If the entry names a rival's State at the second Get, the signal takes a session of the rival out of its select, and the sender waits for the State it had fetched |
| `SessionRaces.CommandEndsAlone` | secondstar/internal/handler.go:151-177 | An initial session whose entry nobody has attached to goes from its command's end to `Wait` on what `Get` returned, without a send |
| `SessionRaces.DrainsAndDeletes` | secondstar/internal/handler.go:151-178 | With an empty wait group it then deletes the user's entry and touches nothing else |
| `SessionRaces.ReachesSend` | secondstar/internal/handler.go:151-174 | With additional sessions counted it reaches the send on the State it fetched |
| `SessionProgress.BlockedIff` | secondstar/internal/handler.go:37-256 | In every reachable world a session's handler cannot go on if and only if it is over, is at its send with nobody in the select of that State, or is at its Wait with a non-empty wait group |
| `SessionProgress.EmitsUntilFailure` | secondstar/internal/handler.go:145-149 | The output copy takes any chunk with any answers of the writers exactly until a write of the run has failed |
| `SessionProgress.CopiesTakeTurns` | secondstar/internal/handler.go:204-235 | The input copy takes a chunk exactly when the watcher has read all that was sent and no write failed; the watcher takes a byte exactly when one is left and no escape was seen |
| `SessionHistory.RecordsAreTheRun` | secondstar/internal/handler.go:98-255 | For every run: the emitted chunks, the failing write, the typed chunks, the bytes watched and the select cases on record are those of the actions of the run |
| `SessionHistory.PlacesAreTheRun` | secondstar/internal/handler.go:199-203 | For every run: a session is added and removed at most once, and counts exactly the chunks emitted before these two steps |
| `SessionOutput.ContiguousOutput` | secondstar/internal/multi.go:31-67 | For every interleaving and every failure of any writer: an additional session has received, in order and in full, exactly the chunks that the run emits between the step of its `Add` and the step of its `Remove` (or the end of the run); only the write that ended the copy gives the failing writer a prefix and the writers behind it nothing |
| `SessionOutput.LosersAttachedLater` | secondstar/internal/multi.go:31-54 | The writers that lose output to a failing one registered no earlier than it |
| `SessionOutput.OutputStep` | secondstar/internal/handler.go:145-203 | Every step keeps what each session has received equal to its segment of the output |
| `SessionInput.StdinIsAnInterleaving` | secondstar/internal/handler.go:204-235 | For every interleaving: a session's share of the shared stdin is exactly what its terminal sends in the run, chunk by chunk and in order, followed by what a failing write took of one more; sessions on other States have no share |
| `SessionInput.WatchersReadTheirOwn` | secondstar/internal/handler.go:98-143 | For every interleaving and every session, initial or additional: its watcher has read the beginning of what its terminal sends in the run, one byte per read, has seen an escape exactly when the last byte read completes one there, and passed none before |
| `SessionInput.EscapesAreOwn` | secondstar/internal/handler.go:204-255 | Hence a session that left by escape had forwarded a complete escape itself, and its watcher stopped at the first one |
| `Escape.Watch` | secondstar/internal/handler.go:114-137 | For every byte stream and every chunking: the watcher fires if and only if the stream holds a '.' directly after an odd run of '~', having read exactly up to the first such '.' |
| `Escape.Pipe.ReadByte` | secondstar/internal/handler.go:116-123 | One-byte reads see the written chunks as one stream, and fail only at its end |
| `Escape.EscapeMeaning` | secondstar/internal/handler.go:122-128 | In characters: an escape is a '.' directly after a maximal run of '~' of odd length |
| `Escape.TildesBeforeIsMaximalRun` | secondstar/internal/handler.go:122-128 | The counted '~' bytes are the maximal run that ends before the position |
| `Escape.EscapedExtend` | secondstar/internal/handler.go:114-137 | A further byte completes an escape only by itself; earlier verdicts stand |
| `MultiWriters.MultiWriter.Write` | secondstar/internal/multi.go:31-47 | Writers are served in order up to the first that errs or takes too little; success exactly when every writer takes all without an error; on failure the count is that writer's |
| `MultiWriters.MultiWriter.Remove` | secondstar/internal/multi.go:57-67 | All occurrences of the writer go, the others keep their order |
| `MultiWriters.DeliveredAt` | secondstar/internal/multi.go:35-44 | What one write hands to the writer at a position: all before the stop, a prefix at it, nothing behind it |
| `MultiWriters.StopAtIsFirst` | secondstar/internal/multi.go:37-43 | The stop is the first writer that errs or takes too little |
| `MultiWriters.WithoutOrder` | secondstar/internal/multi.go:60-65 | Removal keeps the list free of duplicates and keeps any order on it |
| `RwMutex.UpdatesAreSerial` | secondstar/internal/multi.go:50-67 | In every interleaving of threads that load, change and store under the lock, the data is what all the changes stored in the run make of the initial value one after the other: none is lost or applied to a stale value |
| `RwMutex.UpdateGoesThrough` | secondstar/internal/multi.go:50-54 | With nobody inside, a whole update is possible and takes effect |
| `RwMutex.ReadGoesThrough` | secondstar/internal/store.go:22-27 | A reader can enter and read the data among readers |
| `RwMutex.ReadersSeeOneValue` | secondstar/internal/store.go:22-27 | In every interleaving all that a read-locked section has observed is the present value |
| `RwMutex.ReadLockFreezes` | secondstar/internal/multi.go:31-47 | Between a thread's RLock and RUnlock nothing is updated, whatever the other threads do: a Write works on one list of writers |
| `RwMutex.ListIsASnapshot` | secondstar/internal/store.go:44-53 | In every interleaving the entry-by-entry copy that List makes equals the store |
| `AgentLoop.Run` | tink/agent/agent.go:71-178 | For every script of environment answers the trace follows the life cycle, takes its answers from the script, and goes on until the run or the script ends; no send on the one-slot channel can block |
| `AgentLoop.TakeTurn` | tink/agent/agent.go:72-86 | The select: end on a done context, back off when a token is there, else poll; the channel is empty afterwards |
| `AgentLoop.Poll` | tink/agent/agent.go:88-112 | Read and Running report: an accepted report starts the action, a failure asks for a back-off that is silent only when there was no action, a cancellation ends the run |
| `AgentLoop.Perform` | tink/agent/agent.go:114-176 | From the accepted Running report to the accepted result, or to the end of the run |
| `AgentLoop.ExecuteWithRetries` | tink/agent/agent.go:114-141 | The retry loop stops exactly when the life cycle allows no further execution, with the state of its last execution |
| `AgentLoop.ReportUntilAccepted` | tink/agent/agent.go:158-176 | The same result is written until it is accepted or the retry gives up |
| `AgentLoop.TraceIsDetermined` | tink/agent/agent.go:71-178 | Two life cycles that follow one script agree as far as both go |
| `AgentLoop.AnswersAreTheScripts` | tink/agent/agent.go:71-178 | Each answer in a trace is the one that the environment gives at that point |
| `AgentTraces.ExecuteAfterRunning` | tink/agent/agent.go:104-122 | Every execution belongs to the action last read, whose Running report was accepted, with only the clock and failed executions of it in between |
| `AgentTraces.ResultMatchesExecutions` | tink/agent/agent.go:114-161 | Every reported result is the action that was read with the clock readings before and after its executions, their difference printed with precision 2, and the state of exactly the executions since the Running report; these stopped at the first success, the first deadline or when all tries were used up, and not before |
| `AgentTraces.ResultIsTheLastExecution` | tink/agent/agent.go:114-161 | For every reported result: something was executed since the Running report iff Retries >= 0, between 1 and max(1, Retries) times; the state is Success, Timeout or Failure exactly as the last execution in the trace ended, and Failure only after the last try |
| `AgentTraces.NegativeRetriesReportSuccess` | tink/agent/agent.go:114-121 | With negative Retries the result is Success although nothing was executed |
| `AgentTraces.SettledBeforeNextRead` | tink/agent/agent.go:88-177 | Between an action read and the next Read lies the refusal of its Running report or the acceptance of its result: at most one action is outstanding |
| `AgentTraces.LoopOrder` | tink/agent/agent.go:71-119 | What follows each event before the executions: a poll after a free select or a back-off, the Running report of the action just read, a back-off after a failed iteration, logged unless there was just no action, and nothing after a cancellation |
| `AgentTraces.ReportOrder` | tink/agent/agent.go:158-176 | What follows each event after them: a rejected result is written again unchanged while the retry goes on, an accepted one resets the back-off before the next turn |
| `AgentTraces.EndsIff` | tink/agent/agent.go:71-178 | A run has ended exactly when its last event is a done context, a cancellation or a retry that gives up |
| `AgentTraces.BackOffConservation` | tink/agent/agent.go:68-110 | In every reachable state failed iterations equal back-offs plus tokens in the channel; a run that has ended leaves at most one token |
| `HumanDuration.HumanDuration` | tink/agent/agent.go:442-483 | The straight-line code prints the first `precision` non-zero digits of the h/m/s/ms/us/ns expansion |
| `HumanDuration.PrintedText` | tink/agent/agent.go:442-483 | In numbers and characters: for hours, minutes, seconds, milli-, micro- and nanoseconds in range, the text is the first `precision` of them that are not zero, each in canonical decimal notation followed by its unit |
| `HumanDuration.HumanDurationLaws` | tink/agent/agent.go:442-483 | For positive inputs: the text parses back to its parts; their value is at most d, off by less than the last printed unit, exact when fewer than `precision` parts print, and prints as the same text |
| `HumanDuration.HumanDurationMonotone` | tink/agent/agent.go:442-483 | A longer duration never keeps less |
| `HumanDuration.EmptyText` | tink/agent/agent.go:460-482 | The text is empty exactly when the duration or the precision is not positive |
| `HumanDuration.ParseText` | tink/agent/agent.go:460-482 | Any list of parts is recovered from its text; "m" and "ms" are never confused |
| `HumanDuration.PartsArePrefix` | tink/agent/agent.go:460-482 | The printed parts are a prefix of the full expansion, and all of it when fewer than `precision` print |
| `HumanDuration.KeptPrintsTheSame` | tink/agent/agent.go:442-483 | Expanding the kept value gives the same parts, for any units |
| `BmcApi.Job.DeepCopyInto` | api/v1alpha1/bmc/zz_generated.deepcopy.go:223-229 | `out` gets the value of the source, nil and empty kept apart, built of new objects only; nothing but `out` changes |
| `BmcApi.Task.DeepCopyInto` | api/v1alpha1/bmc/zz_generated.deepcopy.go:642-648 | The same for Task |
| `BmcApi.Machine.DeepCopyInto` | api/v1alpha1/bmc/zz_generated.deepcopy.go:348-354 | The same for Machine |
| `BmcApi.DeepCopyJob` | api/v1alpha1/bmc/zz_generated.deepcopy.go:232-239 | Nil for nil, otherwise a new Job of equal value; nothing changes |
| `BmcApi.DeepCopyTask` | api/v1alpha1/bmc/zz_generated.deepcopy.go:651-658 | The same for Task |
| `BmcApi.DeepCopyMachine` | api/v1alpha1/bmc/zz_generated.deepcopy.go:357-364 | The same for Machine |
| `BmcApi.CopyTaskSpec` | api/v1alpha1/bmc/zz_generated.deepcopy.go:716-720 | Equal value in new objects |
| `BmcMeaning.JobsAgree` | api/v1alpha1/bmc/zz_generated.deepcopy.go:223-229 | Jobs of equal value agree in metadata, specification and status |
| `BmcMeaning.TasksAgree` | api/v1alpha1/bmc/zz_generated.deepcopy.go:642-648 | Tasks of equal value agree in metadata, action, connection and status |
| `BmcMeaning.MachinesAgree` | api/v1alpha1/bmc/zz_generated.deepcopy.go:348-354 | Machines of equal value agree in metadata, connection, power state and every condition |
| `BmcMeaning.JobSpecsAgree` | api/v1alpha1/bmc/zz_generated.deepcopy.go:297-307 | Specifications of equal value name the same machine and have the same number of tasks of pairwise equal value |
| `BmcMeaning.StatusesAgree` | api/v1alpha1/bmc/zz_generated.deepcopy.go:320-335 | Statuses of equal value agree in every condition and both times, nil or not |
| `BmcMeaning.ActionsAgree` | api/v1alpha1/bmc/zz_generated.deepcopy.go:31-53 | Actions of equal value agree in all four pointers and everything behind them |
| `BmcMeaning.ConnectionsAgree` | api/v1alpha1/bmc/zz_generated.deepcopy.go:81-89 | Connections of equal value agree in every field |
| `BmcMeaning.ProvidersAgree` | api/v1alpha1/bmc/zz_generated.deepcopy.go:496-528 | Provider options of equal value agree in all six fields |
| `BmcMeaning.RpcsAgree` | api/v1alpha1/bmc/zz_generated.deepcopy.go:541-563 | RPC options of equal value agree in every field |
| `BmcMeaning.RequestsAgree` | api/v1alpha1/bmc/zz_generated.deepcopy.go:591-609 | Request options of equal value agree in every field, key and header value |
| `BmcMeaning.SignaturesAgree` | api/v1alpha1/bmc/zz_generated.deepcopy.go:622-629 | Signature options of equal value agree in every field and header name |
| `BmcMeaning.HmacsAgree` | api/v1alpha1/bmc/zz_generated.deepcopy.go:117-135 | HMAC options of equal value agree in every key and secret |
| `BmcObjects.CopyJobSpec` | api/v1alpha1/bmc/zz_generated.deepcopy.go:297-307 | Equal value in new objects, task by task |
| `BmcObjects.CopyStatus` | api/v1alpha1/bmc/zz_generated.deepcopy.go:320-335 | Conditions and both times are copied into new objects |
| `BmcObjects.CopyAction` | api/v1alpha1/bmc/zz_generated.deepcopy.go:31-53 | Every pointer of the action is copied or stays nil |
| `BmcObjects.CopyOneTime` | api/v1alpha1/bmc/zz_generated.deepcopy.go:476-483 | The device list is copied into a new array |
| `BmcObjects.CopyConnection` | api/v1alpha1/bmc/zz_generated.deepcopy.go:81-89 | Equal value in new objects |
| `BmcObjects.CopyProvider` | api/v1alpha1/bmc/zz_generated.deepcopy.go:496-528 | All provider options are copied or stay nil |
| `BmcObjects.CopyRpc` | api/v1alpha1/bmc/zz_generated.deepcopy.go:541-563 | Equal value in new objects, through request, signature and HMAC options |
| `BmcObjects.CopyHmac` | api/v1alpha1/bmc/zz_generated.deepcopy.go:117-135 | The map of slices is copied entry by entry; nil maps and nil slices stay nil |
| `BmcObjects.CopyRequest` | api/v1alpha1/bmc/zz_generated.deepcopy.go:591-609 | The same for the header map |
| `BmcObjects.CopySignature` | api/v1alpha1/bmc/zz_generated.deepcopy.go:622-629 | The header list is copied into a new array |
| `BmcApi.CopyIsIndependent` | api/v1alpha1/bmc/job.go:95-118 | After a deep copy, under every interleaving of SetCondition calls, source and copy each hold what their own calls alone make of the common start, and share no array |
| `BmcApi.Interleave` | api/v1alpha1/bmc/job.go:95-118 | Two jobs that share no conditions array never affect each other under any interleaving of calls |
| `BmcApi.Job.SetCondition` | api/v1alpha1/bmc/job.go:95-118 | The slice, updated through a pointer into it or grown, holds the list that `Conditions.Set` describes; only the conditions change |
| `BmcApi.Task.SetCondition` | api/v1alpha1/bmc/task.go:98-121 | The same for Task |
| `BmcApi.Machine.SetCondition` | api/v1alpha1/bmc/machine.go:150-177 | The same for Machine, with the time written only when the status changes |
| `BmcApi.Job.HasCondition` | api/v1alpha1/bmc/job.go:128-136 | True exactly when the first condition of that type has that status |
| `BmcApi.Task.HasCondition` | api/v1alpha1/bmc/task.go:131-139 | The same for Task |
| `BmcApi.Append` | api/v1alpha1/bmc/job.go:107-112 | Go's append: the elements and the new one, in the old array if it has room, else in a new one |
| `BmcApi.WriteThrough` | api/v1alpha1/bmc/job.go:114-117 | The writes through the pointer change that one element, the options applied in order |
| `Conditions.RunOfCalls` | api/v1alpha1/bmc/machine.go:150-177 | Any run of calls from an empty list with message-only options: types are distinct and in order of first naming, each with its last status and the time of the last call that changed it |
| `Conditions.MessagesAreLast` | api/v1alpha1/bmc/job.go:95-125 | Any run of calls from an empty list with message-setting options: each condition carries the message of the last option written for its type, of two options in one call the second |
| `Conditions.OptsInOrder` | api/v1alpha1/bmc/job.go:115-117 | Options of any kind are applied in order, each to what the ones before it left |
| `Conditions.MessagesAreSettable` | api/v1alpha1/bmc/job.go:120-125 | The options of the source are message-setting options with the given messages |
| `Conditions.HasIsLastStatus` | api/v1alpha1/bmc/job.go:95-136 | HasCondition after a run of calls agrees with the map from type to last status |
| `Conditions.UnchangedSinceStamp` | api/v1alpha1/bmc/machine.go:169-172 | With a clock that never goes back, every call on a type after its time stamp asked for the status it has |
| `TaskName.TaskNameRoundTrip` | api/v1alpha1/bmc/job.go:138-141 | Splitting at the last "-task-" recovers job name and index, for every name |
| `TaskName.TaskNameInjective` | api/v1alpha1/bmc/job.go:138-141 | Different jobs or indices have different task names |
| `TaskName.TaskNameIs` | api/v1alpha1/bmc/job.go:138-141 | In characters: the job name, "-task-", and the index in canonical decimal notation |
| `Decimal.DecIsCanonical` | api/v1alpha1/bmc/job.go:140-140 | The printed digits are the only digit string without a leading zero that stands for the number |
| `Xff.Parse` | pkg/xff/xff.go:88-118 | The loop with its one-entry shortcut computes `Resolve` of the split header |
| `Xff.TrimIff` | pkg/xff/xff.go:96-108 | Trimming removes exactly the white space around an entry: a text is the trimmed entry if and only if white space on both sides of it makes up the entry and it neither begins nor ends with any |
| `Xff.ResolveIsChosen` | pkg/xff/xff.go:88-118 | Nothing is found exactly when the rightmost entry does not parse; otherwise the entry at an index that parses, has only trusted entries right of it, and is leftmost, untrusted, or right of an unparsable one |
| `Xff.ChosenIsUnique` | pkg/xff/xff.go:104-117 | There is only one such index |
| `Xff.EmptyResult` | pkg/xff/xff.go:88-118 | The result is "" exactly when the rightmost entry does not parse |
| `Xff.HeaderConcat` | pkg/xff/xff.go:88-118 | The result for two comma-joined headers, in terms of the results for each |
| `Xff.PrependKeepsUntrusted` | pkg/xff/xff.go:104-117 | Text in front of a header whose scan stopped at an untrusted entry changes nothing |
| `Xff.AppendTrustedKeeps` | pkg/xff/xff.go:104-117 | A trusted hop behind a header keeps any result |
| `Xff.AllowAllTakesTheTail` | pkg/xff/xff.go:104-117 | With every address trusted the result starts the longest parsable tail |
| `Xff.SplitJoin` | pkg/xff/xff.go:89-89 | Splitting undoes joining with commas |
| `Xff.JoinSplit` | pkg/xff/xff.go:89-89 | Joining undoes splitting |
| `Xff.ToMasks` | pkg/xff/xff.go:121-131 | Succeeds exactly when all subnets parse; the masks are those of the subnets up to the first malformed one |
| `Xff.IpInMasks` | pkg/xff/xff.go:144-151 | True exactly when some mask contains the address |
| `Xff.Middleware.Allowed` | pkg/xff/xff.go:134-141 | Trust in terms of the configured subnets: all addresses if there are none, else those inside one |
| `Xff.NewXff` | pkg/xff/xff.go:51-62 | Fails exactly when a subnet is malformed |
| `Xff.RemoteAddrIfAllowed` | pkg/xff/xff.go:74-85 | The address is unchanged if there is no header, the peer has no host or is untrusted, or the rightmost entry does not parse; otherwise it is the entry at the chosen index with the peer's port |
| `Xff.ResolvedIsUnique` | pkg/xff/xff.go:74-118 | That fixes the address: there is exactly one |
| `Xff.Handle` | pkg/xff/xff.go:65-70 | The request's remote address becomes that one, for the trust that the configured subnets stand for |
| `Xff.ClientTextIsIgnored` | pkg/xff/xff.go:74-118 | With client text in front of a header whose scan stops at an untrusted entry, a request gets exactly the address it gets without |

## Left out

- The ipmitool process, ptys, the ssh transport, exit codes and key parsing: foreign calls. The BMC is a source and a sink of bytes; set-up failures before publication are one step.
- Liveness of the shutdown: the counter check and the send are separate steps and the send may wait for a receiver that has left. Safety only.
- The write of one chunk to the shared stdin is one step: writes of two sessions to the terminal do not mix within a chunk.
- The waiting of readers behind a waiting writer in Go's lock: `RwMutex` permits more interleavings, not fewer.
- What a panic does beyond its own session, and the 32-bit width of the session counter.
- Empty writes to the escape pipe: the copy never makes them. `Escape.Pipe` therefore holds non-empty chunks.
- Back-off intervals and the inside of `backoff.Retry`: a rejected result is written again until it is accepted or the retry gives up. Only whether the back-off is logged, taken and reset is kept.
- `ConfigureAndRun`, transports and runtimes of the agent; the fields of an action that the loop only passes on are one field.
- Saturation of `time.Time.Sub`: durations are unbounded integers.
- `net.ParseIP`, `net.ParseCIDR`, `IPNet.Contains`, `SplitHostPort` and `JoinHostPort` are parameters; headers are strings of characters, so invalid UTF-8 is not modelled.
- BmcApi.Job.DeepCopyInto: type and object metadata, with its maps and slices, are one plain value, because the Kubernetes library copies them and is not part of this repository.
- BmcApi.Task.DeepCopyInto: the same simplification of the metadata.
- BmcApi.Machine.DeepCopyInto: the same simplification of the metadata.
- BmcApi.DeepCopyJob: the same simplification of the metadata.
- BmcApi.DeepCopyTask: the same simplification of the metadata.
- BmcApi.DeepCopyMachine: the same simplification of the metadata.
- The deep copies of the list types, of flat structs on their own and of `HMACSecrets` on its own, and `DeepCopyObject`: they repeat the copying shown here.
- BmcObjects.CopyJobSpec: the copied tasks are collected as a list and then stored in one new array, rather than stored one by one.
- BmcApi.CopyIsIndependent: stated for Job; Task and Machine use the same slice operations and the same copying.
- Job and Task conditions share a record with Machine conditions; its time field is never written for them.
- Conditions.RunOfCalls: assumes options that change only the message, which is all that the source's options do; HasIsLastStatus likewise.
- Conditions.MessagesAreLast: assumes options that set a given message, which is what the source's options do.
- Conditions.UnchangedSinceStamp: assumes positive clock readings, so that an unset time is earlier than any reading.
- The tink server and controller, rufio, smee, the CRD installer, the commands, the UI, tootles, telemetry and the generated protobuf code.
