# TelephonistAgent: verified models of its core

TelephonistAgent runs tasks on a machine when their triggers fire: a cron schedule, a change in the file system, or an
event that the Telephonist server sends over a websocket. Its core is a stack of indexes that have to agree with each
other on every run, and three smaller pieces with exact specifications. This project models that core in Dafny and
proves, over all runs, exactly when the parts agree.

| file | what it models |
|---|---|
| `Triggers.dfy` | triggers and their 64-bit FNV-1a ids |
| `TaskScheduler.dfy` | tasks, their triggers, the index from triggers back to tasks |
| `TaskIndex.dfy` | the effect of each operation; when the index is the exact inverse of what the tasks list |
| `TaskRuns.dfy` | runs in which definitions change: when the index follows them, dispatch, history, replay |
| `InverseIndex.dfy` | the inverse index that the event and the file-system schedulers each keep |
| `Registry.dfy` | the websocket client's registry of event channels, event queues, and what the server has been told |
| `EventScheduler.dfy` | event triggers with their subscription counters |
| `FsScheduler.dfy` | file-system triggers: paths, path index, watched paths, dispatch |
| `Composite.dfy` | routing to child schedulers, starting them together, packing ids |
| `Layers.dfy` | what requests do to the layers under the task scheduler, down to what the server has been told |
| `EndToEnd.dfy` | tasks and layers as one system: what the server is subscribed to, which tasks an event or a file change calls |
| `Lifecycle.dfy` | the websocket client's life as a transition system: run loop, write pump, read pumps, Stop |
| `OutputBuffer.dfy` | process output cut into log records |
| `Lines.dfy` | splitting output into non-blank lines |
| `ConfigSync.dfy` | keeping the configured and the scheduled tasks in step with the server's messages |

`dafny verify dfyconfig.toml` checks all of it.

## How to read it

Each object whose methods change its fields is a class; each method's contract equates the object's new value with a
function of its old value (`After...`), and the lemmas prove properties of those functions, of their compositions and of
whole runs. Where the code does what it is evidently meant to do only under some condition, the lemma says exactly when,
with an if-and-only-if whose right-hand side can be checked before the call, and a further lemma shows what goes wrong
otherwise, from the start of the system where that is not plain. Nothing is modelled in a repaired form. The websocket
client appears twice: its registry of channels in `Registry`, its states and connections in `Lifecycle`; `EndToEnd` joins
the first with the connection's events.

What a task "lists" is its `ScheduledTriggers`, which keep leftovers of earlier definitions. What it "has" is what it
lists and its current definition names. The index can be the inverse of either; the code keeps the second. What is "held"
of a trigger's requests is what has been accepted and not been asked to be given up since; in `FileTriggers` it differs
from the scheduler's own `triggers`, which forget nothing.

The headline results:

- `EndToEnd.ServerFollowsTasks`: in every run of guarded calls and link events, drops and replacements of triggers
  included, past the greetings of a connection the server's subscription set, the registry's keys, the counted keys and
  the keys of the event triggers that scheduled tasks have are one set, for as long as the calls return.
  `EndToEnd.ConnectingInforms`, `EndToEnd.ConnectedCallsFollow`: whatever happened before, connecting up to the greetings
  brings the server there, and every guarded call keeps it there.
  `EndToEnd.RunReturns`: they return exactly if no call changes those keys while no pump receives. `EndToEnd.RunInv`: the
  invariant behind it holds throughout a run that returns if and only if every call meets its guard.
  `EndToEnd.DistinctRunsAreGuarded`: unless two different triggers share an id, the guards are the task scheduler's own.
- `FileTriggers.RunFollows`, `EndToEnd.FilesFollowTasks`, `EndToEnd.FileEventCallsOwners`: over any requests, those for stale
  ids included, the path index and the watched paths follow the held triggers after every request if and only if every
  request meets its guard; the requests are those that a run of the whole system makes, and then a file change calls
  exactly the tasks that have a trigger whose path is a prefix of the changed one.
- `TaskRuns.RunCurrent`, `TaskRuns.HistoryIndependence`, `TaskRuns.ReplayRebuilds`, `TaskRuns.DispatchAfterRun`: the index
  follows the current definitions over whole runs, without a panic, exactly if every call is safe; the past then does not
  matter; replaying the latest definitions rebuilds everything exactly if they share no accepted trigger; dispatch is the
  simple scan over the latest definitions. `TaskIndex.RunExact`: when the index is also the inverse of what tasks list.
- `ConfigSync.RunInStep`, `ConfigSync.ConfiguredTasksAreCalled`, `ConfigSync.FirstListIsSafe`: from the server's messages to
  the tasks that a trigger calls: when the scheduled tasks are the configured ones after every message, and that dispatch
  then calls exactly the configured tasks that have the trigger.
- `Lifecycle.CheckFails`, `Lifecycle.ClosedWhenExited`, `Lifecycle.StoppedIsFinal`, `Lifecycle.PanicsExactly`,
  `Lifecycle.PumpsAreConserved`, `Lifecycle.BecomesConnected`: in every interleaving, exactly which runs end in a failed
  state check, which leave a connection open, which steps panic, what becomes of the read pumps, and which steps lead to
  which state.
- `Output.Conservation`, `Output.RecordsAlternate`, `Output.RecordsAreMaximalRuns`: no output byte is lost, duplicated or
  reordered across the two streams; when the records are the maximal one-stream runs of what was written.
- `Lines.GetLines`, `Lines.TailResumes`, `Lines.StreamingLaw`: the scanner meets its declarative definition; scanning in two
  steps equals scanning at once exactly under the stated condition.
- `Triggers.OneByteChangesId`, `Triggers.CollisionsAreLocal`: the FNV-1a step is injective, so bodies that differ in one byte
  never share an id, and every collision is local to the part where two inputs differ.

## Where the code departs from its evident intent

| where | what happens | exactly when it does not, and what follows when it does |
|---|---|---|
| taskscheduler/task_scheduler.go:191 | a second owner of a trigger replaces the first in the index | `TaskRuns.ScheduleCurrent`, `TaskRuns.SharedTriggerIsTaken`, `TaskRuns.SecondOwnerTakesTrigger` |
| taskscheduler/task_scheduler.go:128-137, 193 | a reschedule drops triggers from the index only; taking one back panics | `TaskIndex.ScheduleExact`, `TaskIndex.SchedulePanics`, `TaskRuns.DroppedTriggerIsStale`, `TaskRuns.TakingBackPanics` |
| taskscheduler/task_scheduler.go:199-209 | Unschedule leaves the task in the index | `TaskRuns.UnscheduleCurrent`, `TaskRuns.UnscheduleThenSchedule`, `TaskRuns.UnscheduledTaskIsCalled`, `TaskRuns.UnscheduledStaysIndexed` |
| taskscheduler/trigger_scheduler.go:339-344 | an id scheduled again is counted again | `EventScheduling.ScheduleByIDExact`, `EventScheduling.RepeatLeaksSubscription`, `EventScheduling.RepeatLeaksFromStart` |
| taskscheduler/trigger_scheduler.go:191-214 | Unschedule takes the path as the trigger has it, and keeps the trigger | `FileTriggers.UnscheduleFollows`, `FileTriggers.RunFollows`, `FileTriggers.UnscheduleForgetsNoTrigger`, `FileTriggers.StaleTakesAnother`, `FileTriggers.SecondUnscheduleTakesAnother`, `FileTriggers.TrailingSlashIsNeverUnscheduled` |
| taskscheduler/trigger_scheduler.go:534-536 | the rollback stops one child, the one after the failed one, or indexes past the end | `Composite.StartAllOrNothing`, `Composite.RollbackLeavesChildRunning` |
| taskscheduler/trigger_scheduler.go:498-511 | packed ids are recorded nowhere, and trigger ids use all 64 bits | `Composite.ScheduleUntracked`, `Composite.PackInjective`, `Composite.PackCollides` |
| telephonist/events.go:31-35, taskscheduler/trigger_scheduler.go:398-403 | UnsubscribeAll leaves `subscribed` filled; the counters survive Stop | `Registry.DropAllRegistered`, `EventScheduling.RestartExact`, `EventScheduling.RestartSubscribesNothing`, `EventScheduling.RestartFromStart` |
| telephonist/wsclient.go:317-321 | a read error that is not a close handles the previous message again | `Lifecycle.CheckFails`, `Lifecycle.StaleReaderIsFatal` |
| telephonist/wsclient.go:191-195, 335 | the comment says that Stop makes the write pump close the connection; Stop sets the state first, so onDisconnect does nothing | `Lifecycle.ClosedWhenExited`, `Lifecycle.StopLeaksConnection`, `Lifecycle.StopWhilePumpingLeaks` |
| taskexecutor/output.go:160-164 | the deadline is set only when no record is open, so the window does not move on to the next record | `Output.DeadlineIsFixed`, `Output.LateWritesAreRecords`, `Output.RecordsAlternate`, `Output.CloseWritesAreSplit` |
| telephonist/wsclient.go:522, 535 | a call that has something to tell the server waits for ever while no write pump receives | `EndToEnd.StepReturns`, `EndToEnd.RunReturns`, `EndToEnd.SchedulingUnconnectedBlocks` |
| taskscheduler/trigger_scheduler.go:339-365 | on a stopped scheduler a call that would change the subscriptions panics | `EventScheduling.StoppedPanics` |
| telephonist/wsclient.go:157-163 | after a failed dial a read pump that is still there reads from no connection | `Lifecycle.FailedDialPanics`, `Lifecycle.PanicsExactly` |
| scheduler.go:125-131, telephonist/events.go:31-35 | the schedulers are stopped before the client; stopping them while no write pump receives waits for ever if the server would have to be told | `Registry.DropsReturnExactly`, `Layers.StopReturns`, `EventScheduling.StoppingUnconnectedBlocks` |
| taskexecutor/utils.go:44-60 | a blank remainder is dropped, with it the indentation of what follows | `Lines.StreamingLaw`, `Lines.CollapseLosesIndent` |
| scheduler.go:271-277 | a removed task stays scheduled | `ConfigSync.StepInStep`, `ConfigSync.RunInStep`, `ConfigSync.NothingIsUnscheduled`, `ConfigSync.RemovedTaskStaysScheduled` |
| scheduler.go:243-252 | the tasks of a list are scheduled in map order, which can decide whether one of them panics | `TaskIndex.SchedulePanics`, `ConfigSync.OrderDecidesPanic` |

## What is a parameter

- The answers of the underlying schedulers (`ok`, `oks`, `replies`), of the watcher (`watchable`, `unwatched`, `released`),
  of the children when started (`starts`) and when they are to give a trigger up (`left`, what the child holds then, and
  `childFailed`, `childFound`), of the ticket request, the dial and the websocket (`ok`, `ticket`, `dialled`).
- Clock readings (`nowUs`, `stamp`), unrelated to each other.
- What MustString reads from a trigger's body (`text`, as an event key or as a path), a total function; bodies are valid
  JSON strings.
- The order in which Go walks a map (`order`, or an arbitrary choice inside a loop).
- The identity of a queue's channel (`channel`).

Each call, handler and check of the state is one atomic step; in `Lifecycle`, each message that a handler sends is a step
of its own. A send on `sendMessages` returns only if a write pump receives (`receiving`, `place == Pumping`); one that
does not is `Blocks`, `Stuck` or `waiting`. A panic is an outcome (`Panicked`, `Panics`, `Stuck`). The methods of
`Registry.WSClient`, `Registry.EventQueue` and `EventScheduling.TelephonistScheduler` require that the call returns; when
it does is said by the functions of the same calls (`AddReturns`, `DropReturns`, `DropsReturn`, `AfterScheduleByID`,
`AfterUnscheduleID`, `AfterStop`) and proved in `Registry.DropsReturnExactly`, `Layers.ScheduleReturns`,
`Layers.UnscheduleReturns` and `Layers.StopReturns`.

## Model

| member | source | states |
|---|---|---|
| `Triggers.Fnv64a.Write` | telephonist/types.go:65-72 | writing bytes advances the one running 64-bit FNV-1a digest over them, whatever was written before |
| `Triggers.GetID` | telephonist/types.go:65-76 | the id is the FNV-1a digest of name, zero byte and body, a function of the trigger alone over any sequence of calls, because each call leaves the shared hash at its offset |
| `Triggers.KnownDigests` | telephonist/types.go:65-76 | the published FNV-1a digests of the empty string and of "a" |
| `Triggers.DigestAppend` | telephonist/types.go:70-72 | hashing in pieces is hashing the concatenation |
| `Triggers.XorBitsCancels` | telephonist/types.go:65-73 | exclusive or with a fixed byte can be undone |
| `Triggers.TimesPrimeInvertible` | telephonist/types.go:65-73 | multiplying by the odd FNV prime modulo 2^64 has an inverse |
| `Triggers.XorInjective` | telephonist/types.go:65-73 | a hash step's exclusive or is injective in the state and in the byte |
| `Triggers.DigestInjective` | telephonist/types.go:65-73 | after the same further input two digests agree if and only if they agreed before it |
| `Triggers.CollisionsAreLocal` | telephonist/types.go:69-76 | inputs with a common prefix and suffix collide if and only if the parts between collide from the prefix's digest on |
| `Triggers.OneByteChangesDigest` | telephonist/types.go:69-76 | inputs of one length that differ in exactly one byte never collide |
| `Triggers.OneByteChangesId` | telephonist/types.go:69-76 | triggers of one name whose equally long bodies differ in exactly one byte never share an id |
| `Triggers.SameBodyCollision` | telephonist/types.go:69-76 | triggers of one body share an id if and only if their names have one digest |
| `Triggers.SourceInjective` | telephonist/types.go:70-72 | the zero byte separates name and body: what is hashed determines both |
| `TaskScheduling.TaskScheduler.constructor` | taskscheduler/task_scheduler.go:75-86 | no tasks, no index, nothing scheduled underneath |
| `TaskScheduling.TaskScheduler.UpdateTrigger` | taskscheduler/task_scheduler.go:176-197 | asks for a trigger the task does not have, overwriting the index entry; else adds the task to the entry, panicking if there is none; a refused trigger changes nothing |
| `TaskScheduling.TaskScheduler.RemoveTrigger` | taskscheduler/task_scheduler.go:166-174 | takes the task out of the trigger's entry; unschedules the trigger with its last task |
| `TaskScheduling.TaskScheduler.RemoveEach` | taskscheduler/task_scheduler.go:127-137 | removing ids one by one, in any order, is removing the set |
| `TaskScheduling.TaskScheduler.Schedule` | taskscheduler/task_scheduler.go:104-164 | both branches - a new task, and an update followed by the removal of what is gone - are the one state function of the theorems, or the call panics exactly when that function says so |
| `TaskScheduling.TaskScheduler.UnscheduleTask` | taskscheduler/task_scheduler.go:95-102 | the task goes, from the index too, and triggers with no other task are unscheduled |
| `TaskScheduling.TaskScheduler.Unschedule` | taskscheduler/task_scheduler.go:199-209 | the task goes and its triggers are unscheduled; the index is left alone |
| `TaskScheduling.TaskScheduler.OnTrigger` | taskscheduler/task_scheduler.go:219-235 | the callback gets, for each task that the index has the trigger for, that task's indexed definition once, whatever the tasks themselves list, and nothing without a callback |
| `TaskScheduling.EachIndexedOnce` | taskscheduler/task_scheduler.go:219-235 | of every state: how often a definition is handed out is the number of tasks in the trigger's index entry that have it there |
| `TaskIndex.UpdateAllEffect` | taskscheduler/task_scheduler.go:114-125 | what the whole update loop does, for repeated triggers and any mix of refusals: which ids are added, which entries are touched, what is kept |
| `TaskIndex.ScheduledOwnership` | taskscheduler/task_scheduler.go:104-164 | who lists and who is indexed after Schedule, with which definition, read off the state before, for any state in which the definition names no stale trigger |
| `TaskIndex.ScheduleExact` | taskscheduler/task_scheduler.go:104-197 | on an index that is the inverse of what tasks list Schedule never panics, and keeps it so if and only if no other task has one of the accepted new triggers and none of the old ones is dropped |
| `TaskIndex.UnscheduleTaskExact` | taskscheduler/task_scheduler.go:95-102 | UnscheduleTask always keeps an exact index exact |
| `TaskIndex.UnscheduleExact` | taskscheduler/task_scheduler.go:199-209 | Unschedule keeps it exact if and only if the task is unknown or has no triggers |
| `TaskIndex.StepExact` | taskscheduler/task_scheduler.go:95-209 | any call on an exact index: no panic, and exact afterwards if and only if its guard held |
| `TaskIndex.RunExact` | taskscheduler/task_scheduler.go:95-209 | over whole runs the index is the inverse of what tasks list after every step if and only if every call meets its guard |
| `TaskIndex.ScheduleDefines` | taskscheduler/task_scheduler.go:104-164 | from any state Schedule replaces the definition of its task and no other |
| `TaskIndex.SchedulePanics` | taskscheduler/task_scheduler.go:192-194 | of every state: Schedule panics if and only if the definition names a trigger that the task lists and the index has forgotten |
| `TaskRuns.CurrentIsExact` | taskscheduler/task_scheduler.go:63-73 | where no task lists a leftover, the two readings of the index are one |
| `TaskRuns.ScheduleCurrent` | taskscheduler/task_scheduler.go:104-197 | Schedule keeps the index right for the current definitions - drops, replacements, refusals and leftovers taken back included - if and only if no other task is indexed under an accepted new trigger |
| `TaskRuns.UnscheduleTaskCurrent` | taskscheduler/task_scheduler.go:95-102 | UnscheduleTask always does |
| `TaskRuns.UnscheduleCurrent` | taskscheduler/task_scheduler.go:199-209 | Unschedule does if and only if nothing that the task lists is indexed |
| `TaskRuns.StepCurrent` | taskscheduler/task_scheduler.go:95-209 | any call: no panic and right afterwards if and only if it was safe |
| `TaskRuns.RunCurrent` | taskscheduler/task_scheduler.go:95-209 | over whole runs the index follows the definitions after every step, without a panic, if and only if every call is safe |
| `TaskRuns.DispatchIsScan` | taskscheduler/task_scheduler.go:219-235 | then dispatch calls exactly the tasks that have the trigger, once each, with their current definitions |
| `TaskRuns.RunReflects` | taskscheduler/task_scheduler.go:104-209 | if acceptance depends on the trigger alone, a safe run ends in a state described by each surviving task's latest definition |
| `TaskRuns.IndexedByDefinition` | taskscheduler/task_scheduler.go:104-209 | the definitions determine who is indexed under what |
| `TaskRuns.ReflectionIsUnique` | taskscheduler/task_scheduler.go:104-209 | there is only one such index and set of live triggers |
| `TaskRuns.HistoryIndependence` | taskscheduler/task_scheduler.go:104-209 | two safe runs with the same latest definitions end with the same index, live triggers, definitions and named triggers, whatever was dropped on the way |
| `TaskRuns.DispatchAfterRun` | taskscheduler/task_scheduler.go:104-235 | after a safe run a trigger calls exactly the tasks whose latest definition has it accepted, handing out that definition once for each |
| `TaskRuns.ReplayIsSafe` | taskscheduler/task_scheduler.go:104-164 | scheduling different tasks one after the other is safe if and only if no trigger is accepted for two of them |
| `TaskRuns.RescheduleIsFresh` | taskscheduler/task_scheduler.go:104-164 | a reschedule gives the same index and live triggers as UnscheduleTask followed by Schedule, which is safe if and only if no other task is called for an accepted trigger |
| `TaskRuns.UnscheduleThenSchedule` | taskscheduler/task_scheduler.go:104-209 | Unschedule followed by Schedule never panics, and leaves the index right for the current definitions if and only if every indexed trigger that the task listed is accepted again and no other task is called for an accepted one |
| `TaskRuns.ReplayRebuilds` | taskscheduler/task_scheduler.go:104-209 | replaying the latest definitions after a safe run is safe if and only if they share no accepted trigger, and then rebuilds the index, the live triggers and the named triggers |
| `TaskRuns.SharedTriggerIsTaken` | taskscheduler/task_scheduler.go:181-191 | an accepted new trigger hands out only the new task's definition from then on, though the others that have it still list it |
| `TaskRuns.DroppedTriggerIsStale` | taskscheduler/task_scheduler.go:127-137 | a dropped trigger that no other task is called for is listed and no longer indexed |
| `TaskRuns.UnscheduledTaskIsCalled` | taskscheduler/task_scheduler.go:199-209 | after Unschedule the task's definition is still handed out, under triggers that are no longer live |
| `TaskRuns.TakingBackPanics` | taskscheduler/task_scheduler.go:104-197 | from the start, for every trigger: scheduled, dropped and taken back, it panics |
| `TaskRuns.SecondOwnerTakesTrigger` | taskscheduler/task_scheduler.go:181-191 | from the start, for every trigger: of two tasks scheduled with it only the second is handed out |
| `TaskRuns.UnscheduledStaysIndexed` | taskscheduler/task_scheduler.go:199-209 | from the start, for every trigger: an unscheduled task is still handed out when the trigger fires |
| `Registry.WSClient.AddEventChannel` | telephonist/wsclient.go:516-528 | enters the channel under the next 32-bit id, which wraps around, and tells the server of a key's first channel |
| `Registry.WSClient.RemoveEventChannel` | telephonist/wsclient.go:530-541 | takes the channel out, and tells the server when the key's last one goes |
| `Registry.WSClient.OnGreetings` | telephonist/wsclient.go:422-436 | sends the registry's keys, each once, as the greeting step of the runs has it |
| `Registry.EventQueue.Subscribe` | telephonist/events.go:9-15 | a new key is registered under a new id; a known one changes nothing |
| `Registry.EventQueue.Unsubscribe` | telephonist/events.go:17-24 | a known key is taken out of the registry and forgotten; an unknown one changes nothing |
| `Registry.EventQueue.UnsubscribeAll` | telephonist/events.go:31-35 | when it returns it has taken each subscribed key out of the registry, in any order, and left the queue's own map as it was |
| `Registry.DropsReturnExactly` | telephonist/events.go:31-35 | UnsubscribeAll returns if and only if a pump receives or none of the channels is the last one registered for its key, whatever the order |
| `Registry.AddMirrored` | telephonist/wsclient.go:516-528 | adding a channel keeps the server's set, folded from the sent messages, equal to the registry's keys past the greetings; it sends one message, and needs a pump for it, exactly if the key is new |
| `Registry.DropMirrored` | telephonist/wsclient.go:530-541 | so does removing one, which sends one message exactly if the key goes |
| `Registry.LinkMirrored` | telephonist/wsclient.go:422-468 | so do connecting, the introduction, the greetings with their resynchronising message, and a disconnect |
| `Registry.GreetingsInform` | telephonist/wsclient.go:422-468 | from any client, in step or not: after connecting and the hello the server has no subscriptions, and after the answer to the greetings exactly the registry's keys |
| `Registry.GreetInforms` | telephonist/wsclient.go:422-436 | whenever greetings come over a connection, their answer makes the server's set the registry's keys |
| `Registry.LinkKeepsRegistry` | telephonist/wsclient.go:422-468 | no link event touches the registry; a client takes messages from a connect to the next disconnect, which drop what was sent |
| `Registry.SubscribeRegistered` | telephonist/events.go:9-15 | with several queues, the registry holds exactly their subscriptions after Subscribe if and only if the key was subscribed already or the next id is free under it |
| `Registry.UnsubscribeRegistered` | telephonist/events.go:17-24 | Unsubscribe always keeps the registry exact |
| `Registry.BelowWrapAround` | telephonist/wsclient.go:516-522 | below wrap-around every id in use is at most the last one given out, so the next is free |
| `Registry.IdsWrapAround` | telephonist/wsclient.go:516-522 | ids are given out in order, modulo 2^32 |
| `Registry.OpsRegistered` | telephonist/events.go:9-24 | over any run of any queues that stays below wrap-around, the registry holds exactly the queues' subscriptions, without empty entries, and no id exceeds the counter |
| `Registry.SubscribeThenUnsubscribe` | telephonist/events.go:9-24 | Subscribe then Unsubscribe restores the registry, with any other queues present, if and only if the id was free |
| `Registry.DropAllRegistered` | telephonist/events.go:31-35 | UnsubscribeAll leaves the registry exact for the other queues, and for this one if and only if it had no subscriptions |
| `Registry.DropAllInforms` | telephonist/events.go:31-35 | UnsubscribeAll keeps the server's set equal to the registry's keys and tells it, once each and in order, of the keys that are left without a channel |
| `EventScheduling.TelephonistScheduler.ScheduleByID` | taskscheduler/trigger_scheduler.go:326-346 | records the trigger under its id and key, counts the key up, and subscribes a key counted for the first time |
| `EventScheduling.TelephonistScheduler.Unschedule` | taskscheduler/trigger_scheduler.go:348-368 | takes a known trigger out of both maps, counts its key down, and unsubscribes it at one |
| `EventScheduling.TelephonistScheduler.Start` | taskscheduler/trigger_scheduler.go:370-376 | makes a queue with no subscriptions if there is none |
| `EventScheduling.TelephonistScheduler.Stop` | taskscheduler/trigger_scheduler.go:398-403 | a Stop that returns unsubscribes from every key, drops the queue and leaves triggers and counters as they are |
| `EventScheduling.TelephonistScheduler.OnEvent` | taskscheduler/trigger_scheduler.go:384-394 | an event calls back each trigger indexed under its key, once, and nothing without a callback |
| `EventScheduling.StopUnsubscribes` | taskscheduler/trigger_scheduler.go:398-403 | with any other queues: a Stop that returns leaves the registry exactly theirs, and tells the server of the keys that are left without a channel |
| `EventScheduling.StartStopAgain` | taskscheduler/trigger_scheduler.go:370-403 | starting a started scheduler and stopping a stopped one change nothing |
| `EventScheduling.RunCovered` | taskscheduler/trigger_scheduler.go:326-403 | over any calls, repeats with other bodies and restarts included, counters are positive and at least the number of triggers for their key, so that a trigger that is given up finds its counter |
| `InverseIndex.PutInverts` | taskscheduler/trigger_scheduler.go:330-338 | entering a trigger keeps an index the inverse of the triggers by key if and only if the id is new or keeps its key |
| `InverseIndex.TakeInverts` | taskscheduler/trigger_scheduler.go:350-358 | taking a trigger out under its key keeps it the inverse, without empty entries |
| `InverseIndex.TakeSize` | taskscheduler/trigger_scheduler.go:353-358 | an entry goes exactly with its last trigger |
| `EventScheduling.ScheduleByIDExact` | taskscheduler/trigger_scheduler.go:326-346 | index, counters and subscriptions stay exact if and only if the id is new |
| `EventScheduling.UnscheduleIDExact` | taskscheduler/trigger_scheduler.go:348-368 | unscheduling always keeps them exact |
| `EventScheduling.RepeatLeaksSubscription` | taskscheduler/trigger_scheduler.go:339-365 | scheduled once more under its id and then unscheduled, a trigger leaves its key subscribed |
| `EventScheduling.RepeatLeaksFromStart` | taskscheduler/trigger_scheduler.go:339-365 | from an empty start, for every trigger: scheduled twice and unscheduled once, its key stays subscribed for nothing |
| `EventScheduling.RestartExact` | taskscheduler/trigger_scheduler.go:370-403 | after a Stop that returns, and a Start, things are exact if and only if nothing was counted |
| `EventScheduling.RestartSubscribesNothing` | taskscheduler/trigger_scheduler.go:339-344 | after such a restart a key that is still counted is not subscribed when a trigger for it is scheduled |
| `EventScheduling.RestartFromStart` | taskscheduler/trigger_scheduler.go:339-403 | from an empty start, for every trigger: after a restart the next trigger for the key is not subscribed |
| `EventScheduling.StoppingUnconnectedBlocks` | scheduler.go:125-131 | from an empty start, for every trigger: with one event trigger scheduled, a Stop after the connection is lost waits for ever |
| `EventScheduling.StoppedPanics` | taskscheduler/trigger_scheduler.go:326-368 | after Stop, scheduling panics if and only if no trigger names the key, and unscheduling if and only if the trigger is the last for it; neither waits |
| `EventScheduling.FiresByKey` | taskscheduler/trigger_scheduler.go:384-394 | when exact, an event fires exactly the triggers whose body is its key |
| `Composite.CompositeTriggersScheduler.ScheduleByID` | taskscheduler/trigger_scheduler.go:483-496 | the first child that can schedule the type is asked; a refusal, or no such child, records nothing |
| `Composite.CompositeTriggersScheduler.Unschedule` | taskscheduler/trigger_scheduler.go:513-518 | the recorded child, and no other, is asked to give the trigger up, and both its answers are passed on; an unrecorded id is an error |
| `Composite.CompositeTriggersScheduler.Start` | taskscheduler/trigger_scheduler.go:520-541 | starts children up to the first failure, then stops again and again the one after it, or indexes past the end |
| `Composite.CompositeTriggersScheduler.Stop` | taskscheduler/trigger_scheduler.go:543-552 | stops every child of a running composite |
| `Composite.ScheduleTracked` | taskscheduler/trigger_scheduler.go:483-496 | every held trigger stays recorded under the child that holds it if and only if the call is refused or no other child holds the id |
| `Composite.ScheduleTouches` | taskscheduler/trigger_scheduler.go:483-496 | of everything the scheduler has, ScheduleByID changes only what the first matching child holds and the record of the id |
| `Composite.UnscheduleReaches` | taskscheduler/trigger_scheduler.go:513-518 | then Unschedule asks the child that accepted the id: no child holds the id any more if and only if that child gives it up, and no other child and no record changes, the id's included |
| `Composite.StartAllOrNothing` | taskscheduler/trigger_scheduler.go:520-541 | Start ends with every child running, or fails with every child stopped, if and only if none fails or the first of at least two does; it panics if and only if the first failure is the last child's |
| `Composite.StartLeaves` | taskscheduler/trigger_scheduler.go:520-541 | whether Start succeeds or fails, exactly the children before the first failure are running afterwards; a running composite is not started again |
| `Composite.StopStopsAll` | taskscheduler/trigger_scheduler.go:543-552 | Stop leaves every child stopped, holding what it held, and the records as they were; a second Stop changes nothing |
| `Composite.RollbackLeavesChildRunning` | taskscheduler/trigger_scheduler.go:529-537 | an input: of three children the second fails to start, and the first is left running |
| `Composite.IndexBits` | taskscheduler/trigger_scheduler.go:432-436 | the bits are the base-2 logarithm of the number of children, rounded up |
| `Composite.PackedIndex` | taskscheduler/trigger_scheduler.go:505 | the top bits of a packed id are the index or-ed with the top bits of the child's id |
| `Composite.PackSmall` | taskscheduler/trigger_scheduler.go:505 | for child ids below 2^(64 - bits) packing is an exact sum and the index can be read back |
| `Composite.PackInjective` | taskscheduler/trigger_scheduler.go:498-511 | packed ids fit in 64 bits and are injective in child and id for such ids, a single child with a shift of 64 included |
| `Composite.PackCollides` | taskscheduler/trigger_scheduler.go:498-511 | for ids that use all 64 bits they are not: any packed id, taken as a child id, packs to itself for child 0 and its own child alike |
| `Composite.ScheduleUntracked` | taskscheduler/trigger_scheduler.go:498-511 | Schedule asks the child that ScheduleByID asks but records nothing, so held triggers stay recorded if and only if it is refused or the id was recorded for that child before |
| `FileTriggers.NormalFixed` | taskscheduler/utils.go:9-15 | normalisation leaves a path alone if and only if it is empty, or starts with a slash and does not end with one |
| `FileTriggers.NormalizeTwice` | taskscheduler/utils.go:9-15 | normalising twice is normalising once if and only if the path does not end with two slashes |
| `FileTriggers.NormalForms` | taskscheduler/utils.go:9-15 | a path without a leading slash means the one with it, and one with a trailing slash the one without; the root is the empty path |
| `FileTriggers.FSTriggersScheduler.ScheduleByID` | taskscheduler/trigger_scheduler.go:172-189 | the trigger is entered under its normalised path, which is watched when it is new; a failed watch leaves everything unchanged |
| `FileTriggers.FSTriggersScheduler.Unschedule` | taskscheduler/trigger_scheduler.go:191-215 | the path as the trigger has it loses its entry, or the entry the id; the trigger itself stays |
| `FileTriggers.FSTriggersScheduler.DispatchEvent` | taskscheduler/trigger_scheduler.go:243-268 | the callback gets an id once for each watched root that is a prefix of the event's path and lists it |
| `FileTriggers.ScheduleFollows` | taskscheduler/trigger_scheduler.go:172-189 | from any state whose index follows the held triggers, after whatever was unscheduled before: it does so after a ScheduleByID if and only if the call fails, the id is not held, or it keeps its path |
| `FileTriggers.UnscheduleFollows` | taskscheduler/trigger_scheduler.go:191-215 | and after an Unschedule if and only if the id is unknown; or held, with a path in normal form that the watcher gives up if it was alone there; or stale, and not just one other trigger is left under its path |
| `FileTriggers.RunFollows` | taskscheduler/trigger_scheduler.go:172-215 | over whole runs of requests, repeated and stale ones included, index and watched paths follow the held triggers after every request if and only if every request meets that guard |
| `FileTriggers.StaleTakesAnother` | taskscheduler/trigger_scheduler.go:191-215 | an input: "/a" is scheduled and unscheduled, then "a" scheduled under another id; unscheduling the first id again takes the second one's entry and watch |
| `FileTriggers.UnscheduleForgetsNoTrigger` | taskscheduler/trigger_scheduler.go:191-215 | with the triggers as they are kept, Unschedule leaves the index exact if and only if it takes nothing away |
| `FileTriggers.SecondUnscheduleTakesAnother` | taskscheduler/trigger_scheduler.go:191-215 | unscheduling one of two triggers of a path twice takes the other one's entry and watch |
| `FileTriggers.TrailingSlashIsNeverUnscheduled` | taskscheduler/trigger_scheduler.go:191-215 | an input: a trigger for a path that ends in a slash is indexed and watched, and unscheduling it takes nothing away |
| `FileTriggers.DispatchFollows` | taskscheduler/trigger_scheduler.go:261-267 | while the index follows the held triggers an event fires each of them whose normalised path the event's path starts with, byte for byte, once, and no other, stale ones included |
| `FileTriggers.FiresBelow` | taskscheduler/utils.go:5-7 | an input: a trigger for "/a" fires for "/a/b" and for "/ab", and not for "/b" or "/" |
| `Layers.ScheduleReturns` | taskscheduler/trigger_scheduler.go:339-344 | scheduling an event trigger returns if and only if a pump receives or its key is counted already |
| `Layers.UnscheduleReturns` | taskscheduler/trigger_scheduler.go:359-365 | unscheduling one returns if and only if a pump receives or it is not the last for its key |
| `Layers.StopReturns` | taskscheduler/trigger_scheduler.go:398-403 | with one queue, Stop returns if and only if a pump receives or nothing is subscribed |
| `Layers.StopForgets` | taskscheduler/trigger_scheduler.go:398-403 | and then nothing is registered, the server has been told to unsubscribe from each key once, and past the greetings has no subscriptions |
| `Layers.AskUnderneath` | taskscheduler/task_scheduler.go:181-185 | asking for a trigger that is not held returns if and only if a pump receives or the held keys do not change, and then keeps routing, event index, counters, queue, registry and the server's set exact |
| `Layers.ForgetUnderneath` | taskscheduler/task_scheduler.go:169-172 | so with giving a held trigger back |
| `Layers.AsksUnderneath` | taskscheduler/task_scheduler.go:114-125 | so with the whole update loop, for triggers that are not held |
| `Layers.ForgetsUnderneath` | taskscheduler/task_scheduler.go:127-137 | so with all the removals of a call, in any order |
| `Layers.AskIsRouted` | taskscheduler/trigger_scheduler.go:483-496 | a request that returns is the composite scheduler's ScheduleByID on its table and its three children, cron, event and file |
| `Layers.ForgetIsRouted` | taskscheduler/trigger_scheduler.go:513-518 | taking back any id, held or stale, is its Unschedule: only the recorded child is asked, with whatever the file child leaves indexed |
| `Layers.AsksFiles` | taskscheduler/task_scheduler.go:114-125 | what the update loop does to the file child is its requests one after the other, and the held file triggers are what those requests leave held |
| `Layers.ForgetsFiles` | taskscheduler/task_scheduler.go:127-137 | so with any sequence of ids that are taken back, stale ones included |
| `EndToEnd.CallUnderneath` | taskscheduler/task_scheduler.go:95-209 | a whole safe call, with Unschedule's requests for every listed id, stale or not, returns if and only if a pump receives or the held keys do not change, and keeps the event layers exact: they hold what was granted, less what was taken back |
| `EndToEnd.TakesBack` | taskscheduler/task_scheduler.go:95-209 | what a call takes back: Unschedule every trigger that the task lists, indexed or not; the other calls those that some task was indexed for before and none is after |
| `EndToEnd.ScheduleLinked` | taskscheduler/task_scheduler.go:104-197 | after a safe Schedule what is held is exactly what the tasks have if and only if what is taken back is, by name and body, what is held under its id |
| `EndToEnd.LinkInv` | telephonist/wsclient.go:422-468 | connecting, introduction, greetings and disconnecting keep every layer exact |
| `EndToEnd.StepInv` | taskscheduler/task_scheduler.go:95-209 | a step that returns keeps tasks, routing and event layers exact together if and only if it meets its guard; the file index has its own guard, in FilesFollowTasks |
| `EndToEnd.StepReturns` | telephonist/wsclient.go:516-541 | a guarded call waits for ever if and only if it changes the keys of the tasks' event triggers while no pump receives; no guarded step panics |
| `EndToEnd.RunInv` | taskscheduler/task_scheduler.go:95-209 | over runs that return, they are exact after every step if and only if every step meets its guard |
| `EndToEnd.RunReturns` | telephonist/wsclient.go:516-541 | a guarded run returns if and only if none of its calls changes those keys while no pump receives |
| `EndToEnd.DistinctRunsAreGuarded` | taskscheduler/task_scheduler.go:176-197 | if no two different triggers of a run share an id, a call meets its guard if and only if it is safe for the task scheduler |
| `EndToEnd.CountedKeysAreOwned` | taskscheduler/trigger_scheduler.go:326-368 | the counted keys are the keys of the event triggers that scheduled tasks have |
| `EndToEnd.ServerFollowsTasks` | telephonist/wsclient.go:422-541 | in every guarded run, drops included: it returns unless a call changes the keys while no pump receives, and then the registry's keys, the counted keys and the keys of the event triggers that tasks have by their current definitions are the same set; so is the server's subscription set if the run's link events end past a connection's greetings |
| `EndToEnd.LinkHistory` | telephonist/wsclient.go:422-468 | the run's link events alone decide whether a pump receives and whether the greetings have been answered |
| `EndToEnd.ConnectingInforms` | telephonist/wsclient.go:422-468 | from any state that a guarded run can reach: connect, introduction and greetings return, and the server then has exactly the keys that the tasks own |
| `EndToEnd.ConnectedCallsFollow` | telephonist/wsclient.go:516-541 | from there every run of guarded calls returns, and the server keeps having exactly the owned keys |
| `EndToEnd.SchedulingUnconnectedBlocks` | telephonist/wsclient.go:516-525 | for every event trigger: the first task with it, scheduled before the first connection, waits for ever |
| `EndToEnd.EventCallsOwners` | taskscheduler/trigger_scheduler.go:378-396 | an event reaches a task if and only if the task has an event trigger for its key |
| `EndToEnd.StepFiles` | taskscheduler/task_scheduler.go:95-209 | a guarded step that returns is, for the file child, its requests one after the other |
| `EndToEnd.RunFiles` | taskscheduler/task_scheduler.go:95-209 | so is a guarded run |
| `EndToEnd.FilesFollowTasks` | taskscheduler/trigger_scheduler.go:172-215 | in every guarded run that returns, with every Unschedule call the task scheduler makes: the path index follows the file triggers held, after every request, if and only if every request meets its guard, and then it is the inverse of the file triggers that the tasks have |
| `EndToEnd.FileEventCallsOwners` | taskscheduler/trigger_scheduler.go:243-268 | after a guarded run with guarded file requests, a file event reaches a task if and only if the task has a file trigger whose normalised path the event's path starts with, byte for byte |
| `Lifecycle.WSClient.TransitionState` | telephonist/wsclient.go:214-239 | the state changes if it is the expected one; otherwise the process ends |
| `Lifecycle.WSClient.Connect` | telephonist/wsclient.go:124-166 | without interference, connecting is three run loop steps of the transition system, whatever ticket and dial answer |
| `Lifecycle.WSClient.OnDisconnect` | telephonist/wsclient.go:332-342 | closes the last connection and leaves the connected states, only from one of them |
| `Lifecycle.WSClient.OnIntroduction` | telephonist/wsclient.go:438-467 | a preparing client becomes connected and says hello, wherever the run loop stands; any other keeps its state, as the transition system has it |
| `Lifecycle.WSClient.Stop` | telephonist/wsclient.go:186-196 | a client that is not stopped becomes so and its channel is closed, which panics unless it is open, as the transition system has it |
| `Lifecycle.StepInv` | telephonist/wsclient.go:124-342 | every step the process survives keeps the invariant on state, place, channel and close counts |
| `Lifecycle.RunInv` | telephonist/wsclient.go:124-342 | in every interleaving: the states fit the run loop's place, every connection but the last is closed exactly once, the last never twice |
| `Lifecycle.BecomesConnected` | telephonist/wsclient.go:438-447 | the client becomes connected if and only if an introduction is read while it prepares |
| `Lifecycle.LeavesConnection` | telephonist/wsclient.go:186-196 | from preparing or connected it becomes stopped by Stop alone and disconnected by the end of a pump alone, and a connected one does not prepare again |
| `Lifecycle.RunLoopLeads` | telephonist/wsclient.go:124-184 | every other change of state is the run loop's, from stopped through disconnected and connecting to preparing or back, or Stop |
| `Lifecycle.PausesBetween` | telephonist/wsclient.go:168-184 | a new attempt comes only after the pause, the pause after every failed attempt and every ended pump, the end only with Stop |
| `Lifecycle.FailedDialPanics` | telephonist/wsclient.go:157-163 | after a failed dial a read pump of an earlier connection panics at its next read |
| `Lifecycle.ReachesConnected` | telephonist/wsclient.go:124-184 | from the start, undisturbed, an introduction read while the write pump runs makes the client connected |
| `Lifecycle.PumpsAreConserved` | telephonist/wsclient.go:178-330 | over whole runs the read pumps that were started are those still there, those that have left and those that wait for ever for a channel that is gone |
| `Lifecycle.LostConnectionIsClosed` | telephonist/wsclient.go:305-342 | a read pump that sees the connection close leaves every connection closed exactly once, whichever pumps leave after it |
| `Lifecycle.HandlingReturns` | telephonist/wsclient.go:305-330 | while the write pump runs, reading a message, sending and returning leaves the client as it was |
| `Lifecycle.SendWaits` | telephonist/wsclient.go:516-541 | a handler's send returns at once if and only if the write pump runs |
| `Lifecycle.WaitingHandlerIsServed` | telephonist/wsclient.go:257-303 | a handler that waits is served by the next write pump that takes messages from its channel |
| `Lifecycle.StoppedIsFinal` | telephonist/wsclient.go:186-196 | once stopped, no step changes the state, dials or closes a connection |
| `Lifecycle.ClosedWhenExited` | telephonist/wsclient.go:168-196 | when the run loop has ended every dialled connection has been closed exactly once, if and only if Stop did not come while the client was connected |
| `Lifecycle.StopLeaksConnection` | telephonist/wsclient.go:186-196 | a connection that is open when Stop comes is never closed in any continuation, and the stopped client keeps it |
| `Lifecycle.StepSteady` | telephonist/wsclient.go:124-184 | which steps leave the client in the state that the run loop's next check expects |
| `Lifecycle.CheckFails` | telephonist/wsclient.go:214-239 | after any survived run the run loop's next step fails a state check if and only if some step interfered: Stop between the loop's test and the pump, or a reader of an earlier connection |
| `Lifecycle.FirstConnectionHasNoStaleReader` | telephonist/wsclient.go:178-179 | until the second connection only Stop can interfere |
| `Lifecycle.PanicsExactly` | telephonist/wsclient.go:186-196 | a step panics if and only if it is a Stop with no channel yet or a handler waiting to send, a read without a connection, or a send after Stop by the handler of any message |
| `Lifecycle.StaleReaderIsFatal` | telephonist/wsclient.go:305-330 | a read pump that takes an error for a message outlives its connection: after a reconnect two of them read, and the old one can end the process |
| `Lifecycle.StopWhilePumpingLeaks` | telephonist/wsclient.go:186-196 | from the start: Stop while the write pump runs ends the run loop and leaves the connection open |
| `Output.OutputBuffer.Flush` | taskexecutor/output.go:68-79 | the records go to the callback, if there is one, and are removed either way |
| `Output.OutputBuffer.FlushRecord` | taskexecutor/output.go:111-141 | the open record is closed with its stream's severity and all of its bytes |
| `Output.OutputBuffer.Write` | taskexecutor/output.go:143-174 | the bytes join the open record, or open one after closing a record of the other stream or past its deadline; the length is returned |
| `Output.OutputBuffer.Stop` | taskexecutor/output.go:89-109 | when Stop returns both buffers and the records are empty and the callback has received the whole trace |
| `Output.StopDrains` | taskexecutor/output.go:89-109 | the close branch moves the whole trace to what was taken |
| `Output.WriteExtendsTrace` | taskexecutor/output.go:143-174 | a write extends the tagged trace by exactly its bytes, in its stream |
| `Output.RunTrace` | taskexecutor/output.go:68-174 | over any run of Write, FlushRecord, Flush and Stop at most one buffer holds bytes, the one the current type names, no record is empty, and the trace grows by what was written |
| `Output.Conservation` | taskexecutor/output.go:68-174 | what reached the callback, the records and the pending bytes spell out exactly what was written, both streams interleaved as written, if and only if there is a callback or no call found a record to flush |
| `Output.DeadlineIsFixed` | taskexecutor/output.go:160-164 | while only writes close records, the deadline stays the one set at the first write |
| `Output.LateWritesAreRecords` | taskexecutor/output.go:160-164 | hence after it every write becomes a record of its own |
| `Output.WindowOfRecord` | taskexecutor/output.go:160-164 | a second write to the stream joins the record up to 20 ms after the first, and later closes it with the stream's severity, the clock's reading and exactly the first write's bytes |
| `Output.CloseWritesAreSplit` | taskexecutor/output.go:160-164 | an input: three writes to one stream, the last two a microsecond apart, end up in three records |
| `Output.RecordsAlternate` | taskexecutor/output.go:143-174 | records alternate between the streams throughout a run if and only if no write splits a stream |
| `Output.AlternatingIsUnique` | taskexecutor/output.go:111-174 | a trace can be cut into alternating records in one way only |
| `Output.RecordsAreMaximalRuns` | taskexecutor/output.go:111-174 | if no write splits a stream, the records are the maximal one-stream runs of what was written |
| `Lines.GetLines` | taskexecutor/utils.go:22-63 | the lines are the newline-terminated segments that are not blank, in order; the remainder is what follows the last of them, or nothing if that is blank |
| `Lines.Remaining` | taskexecutor/utils.go:44-60 | the bytes after the last line's newline, or nothing if they are blank |
| `Lines.LinesAreNonBlank` | taskexecutor/utils.go:28-35 | no line is blank or holds a newline |
| `Lines.BlanksInLines` | taskexecutor/utils.go:28-35 | an input: blanks are spaces, tabs and carriage returns but not form feeds, and blanks in a line stay |
| `Lines.TailIsLineless` | taskexecutor/utils.go:44-48 | the tail is a suffix without a line in it, right after a newline unless there is no line at all |
| `Lines.NothingLost` | taskexecutor/utils.go:22-63 | lines and remainder together hold every byte that is neither blank nor a newline, once and in order |
| `Lines.TailResumes` | taskexecutor/utils.go:22-63 | with the uncollapsed tail, scanning in two steps is scanning at once, for all inputs |
| `Lines.IndentLines` | taskexecutor/utils.go:22-63 | a blank tail in front of further input reaches its first line only, or its tail if it has no line |
| `Lines.IndentChanges` | taskexecutor/utils.go:49-60 | dropping it is harmless if and only if no content follows or a blank segment precedes the first line |
| `Lines.StreamingLaw` | taskexecutor/utils.go:22-63 | with the remainder the code keeps, two steps equal one if and only if the tail is not blank, or empty, or dropping it is harmless |
| `Lines.CollapseLosesIndent` | taskexecutor/utils.go:49-60 | an input for which they differ |
| `ConfigSync.GetTasksMap` | scheduler.go:293-299 | tasks by id, the later of two with one id |
| `ConfigSync.ApplicationScheduler.OnTask` | scheduler.go:265-269 | the task goes through the task scheduler's Schedule, panicking exactly when that does; otherwise it is written to the configuration |
| `ConfigSync.ApplicationScheduler.OnTaskRemoved` | scheduler.go:271-277 | the task leaves the configuration; the scheduler is not told |
| `ConfigSync.ApplicationScheduler.OnTasks` | scheduler.go:239-263 | the executable tasks of the list are scheduled once each, in some order, up to a panic; without one the configuration becomes exactly the list, although the old map is changed while it is walked |
| `ConfigSync.StepInStep` | scheduler.go:239-277 | scheduler and configuration stay in step if and only if no scheduled task goes away and an update can be executed; a full list does not need them to be in step before |
| `ConfigSync.RunInStep` | scheduler.go:239-277 | over whole runs of messages, from a start in step or beginning with a full list, they are in step after every message if and only if every message meets that guard |
| `ConfigSync.FirstListInStep` | scheduler.go:239-263 | after a start with a configuration from disk and nothing scheduled, the first full list puts them in step |
| `ConfigSync.ArbitraryIsSkipped` | scheduler.go:243-252 | an input: of a list with tasks of types "exec", "script" and "arbitrary" the first two are scheduled, all three configured |
| `ConfigSync.RemovedTaskStaysScheduled` | scheduler.go:265-277 | an input: a task that arrives and is removed stays scheduled |
| `ConfigSync.NothingIsUnscheduled` | scheduler.go:239-277 | after any messages the scheduler has, task by task, the last definition that some message had scheduled, removals and shorter lists notwithstanding |
| `ConfigSync.FromListIsLast` | scheduler.go:293-299 | of several tasks with one id the last one counts |
| `ConfigSync.ConfigIsLastWord` | scheduler.go:239-277 | after any messages the configuration has, task by task, what the latest message about it says |
| `ConfigSync.SchedulerHasScheduled` | scheduler.go:239-277 | from any state, for any messages, orders and answers: unless a Schedule panics, the task scheduler's definitions are what the messages have had scheduled |
| `ConfigSync.ConfiguredTasksAreCalled` | scheduler.go:239-277 | after messages whose calls are safe no call has panicked and a trigger calls exactly the scheduled tasks that have it accepted; if a full list came first and every message met its guard, exactly the executable tasks of the configuration that do |
| `ConfigSync.FirstListIsSafe` | scheduler.go:239-252 | the calls for the first full list are all safe, in whatever order they come, if and only if no trigger is accepted for two of its executable tasks |
| `ConfigSync.OrderDecidesPanic` | scheduler.go:243-252 | an input: a list in which a task takes back a trigger that another one has too panics or not depending on the order of the walk |

## Left out

- Composite.Child: a child is its type, whether it runs, and the set of ids it has accepted and not given up; gocron jobs are such ids and nothing more.
- Composite.IndexBits: an integer logarithm for `math.Ceil(math.Log2(...))`, which agree for any number of children that fits in memory; a composite without children is not modelled.
- TaskRuns.HistoryIndependence: is about ids; which of two triggers with one id a task keeps is not determined by the latest definitions, since an id already there is not updated. What a task lists beyond its definition depends on the past.
- TaskRuns.DispatchAfterRun: event parameters and time stamps are not modelled.
- EndToEnd.ServerFollowsTasks: one started queue; a message that the write pump takes counts as reaching the server, so a write error that drops a message while the connection stays up is not modelled; what others do while a call waits for ever is not either.
- EndToEnd.FilesFollowTasks: a refused file trigger leaves the file child as it was, also where the path is watched already; the code refuses only a new path, so this allows more than the code does.
- Registry.WSClient.OnGreetings: the OnConnected callback and its synchronisation request are not modelled.
- Registry.LinkMirrored: the hello message lists no subscriptions, and is taken to leave the server with none.
- Lifecycle.RunInv: one run loop, started once; the pauses between attempts have no length; gorilla's panic after many failed reads is not modelled. That there is one write pump is part of the model, since it runs inside the run loop.
- Lifecycle.StepInv: which messages make their handler send, and how often, is left open: any handler may send any number of times. Sends by goroutines that are not read pumps (`SendWebsocketMessage`, and UnsubscribeAll when the schedulers are stopped) are not modelled.
- FileTriggers.FSTriggersScheduler.DispatchEvent: the event's path is taken as already absolute.
- ConfigSync.ApplicationScheduler.OnTasks: a Schedule that waits for ever, as `EndToEnd.RunReturns` says, is not part of this module.
- ConfigSync.RunInStep: updates that come before the first full list, after a start that is not in step.
- Triggers.GetID: invalid JSON in a trigger's body, which makes MustString panic later, is not modelled.
- The delivery of an event to a queue's channel with its 1500 ms timeout (`telephonist/wsclient.go:474-488`).
- Data races on fields that are read or written without a lock: every handler is one atomic step, except for its sends in `Lifecycle`.
- The command line, prompts, systemd unit, HTTP status server, REST client, ticket endpoint, database, locales and logging.
- JSON encoding and decoding, environment variables, `findShebang`, tag handling: thin, or easy.
