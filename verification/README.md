# Verified model of the Symphony scheduler

A Dafny 4.11 model of go-symphony, the service that polls an issue tracker, starts one coding agent per
eligible issue, retries failed runs and stops runs whose issues changed.

The core is the scheduler (`internal/orchestrator/state.go`, `service.go`). It is modelled twice:

* as a function of its state (`Scheduler`, `Service`): every operation maps a state to a state, dependency
  calls are answered by arbitrary oracles, and the state carries a history of what the scheduler did;
* as classes (`SchedulerObject.SchedulerState`, `ServiceObject.OrchestratorService`) whose methods update
  fields, maps and timers as the source does, each proved to compute exactly that function.

The theorems are about every run: any sequence of expiring timers, callbacks that reach the mutex late,
worker events, refresh requests and close, with any answers from the tracker, the host admission and the
worker manager. A timer that has expired can no longer be stopped, so its callback arrives after `Stop`; the
nonces exist for that case. The history is judged by a per-item automaton (`Lifecycle`) that knows nothing of
the maps; the invariant (`Safety.Inv`, `ServiceSafety.ServiceInv`) says that maps and automaton agree.

Whole runs are also cut into the scheduling operations they consist of (`Trails`): what each operation keeps,
or keeps exactly under a condition, becomes a statement about every run (`QueuedClaims`, `StateLimits`,
`Additions`). Runs that break a property are built from whole rounds of the service (`Rounds`, `WorkerRounds`);
in each of them the clock never goes back and no callback is delivered before its timer is due.

Every theorem above is stated through the specification, so the specification itself is held against plain
statements about fields, answers of the tracker and raw lines, which use none of its functions for what they
say: which candidate comes before which (`DispatchPass`), what may start and what a start leaves
(`Eligibility`), what becomes of a due retry (`DueRetries`), what an event leaves and which runs are stalled
(`Events`), what a refresh decides and what a snapshot shows (`Reconciliation`, `Snapshots`), the order within a
cycle (`Cycles`), what a worker says and when (`WorkerEvents`), where `..` leads (`DotDot`) and which line asks,
answers or ends a turn (`Codex`).

Joined to the core are host admission (`Hosts`, `HostCapacity`), the worker goroutines interleaved with the
service (`Workers`, `JointHosts`, `Orphans`) and the worker manager, as a function of its calls (`ManagerCalls`) and as a
class that computes it (`Manager`). Four smaller cores stand beside it: path
canonicalisation (`Paths`), shell quoting (`Quoting`), the two tracker readers (`Readers`) and the Codex
session (`Codex`, `CodexObject`).

What is assumed, and where it is stated:

* `Safety.EchoesId`: a refresh of one ID answers with an item of that ID first, or with nothing, because the
  scheduler takes the first item unchecked. `Readers.MemoryReaderEchoes` and `Readers.LinearReaderEchoes` say
  how far the two readers meet it.
* `Scheduler.WellOrdered` and `DispatchPass.SortsCandidates`: Go walks each map key once, and `sort.Slice`
  returns a sorted permutation, as some sort does (`DispatchPass.SortSoonerSorts`).
* `HostCapacity.EchoesHost`: startRun answers with the host it was asked to use, or with none.
* `Workers.FreshHandles`: no two runs share a handle, as each StartRun allocates its own.
* `Paths.Acyclic` and `Paths.Rooted`: symbolic links have an acyclic ranking and nothing exists below a
  missing entry. The source has no loop guard, so a link to itself is excluded (`Paths.SelfLinkIsCyclic`), while
  trees whose links point at link-free places are covered (`Paths.DirectLinksAreAcyclic`).

What turned out not to hold, each with the exact condition under which it does and a run or state in which it
does not:

* A queued retry need not be claimed. Every operation keeps retries claimed but a candidate that startRun
  refuses, so they are claimed throughout a run exactly when none is refused (`QueuedClaims.ClaimsHoldExactly`).
  An unclaimed item may start again, at attempt 0 and before its retry is due (`EarlyStarts.UnclaimedStartsEarly`);
  only such an item may (`EarlyStartsAreFresh`), so none does where no candidate is refused (`NoneStartsEarly`).
* The per-state limit is not an invariant, for two reasons: a candidate is checked in the state it was listed
  in and started in the state it was refreshed in, and reconciliation moves running items between states. It
  holds throughout a run exactly when each start had room in the refreshed state and each refresh left the
  limited states within their limits (`StateLimits.StateLimitsHoldExactly`). `StateOverruns.RefreshOverrun` is a
  run that breaks it without a dispatch, `StateOverruns.CandidateOverrunRun` one that breaks it by a candidate.
* The host limit is not an invariant either, although no dispatch breaks it and every worker names the host it
  was given: events are matched by item, so a late event of a stopped run moves the current run of its item.
  It holds throughout a run exactly when every event leaves its run in place or names a host with room
  (`HostCapacity.HostLimitHoldsExactly`), hence in every interleaving in which a running item hears only from
  its own worker (`JointHosts.HostLimitHoldsForOwnEvents`). `LateEvents.LateEventOverruns` is a run that breaks it.
* The manager's map need not list every live worker. A worker is listed from its start to its return exactly
  when no other worker of its item has started or returned since (`ManagerCalls.ListedExactly`), and all are
  listed throughout exactly when no start met a live worker of its item (`ListedThroughoutExactly`).
* Two workers of one item can work at the same time, neither of them stopped (`StrayEvents.StrayFailureDoubles`).
  An item's working workers are throughout the one it runs under, and so at most one, exactly when no terminal
  event of another worker is ever applied to the item while its own worker works
  (`Orphans.NeverOrphanedExactly`, for a single move `Orphans.MoveOrphansExactly`).
* The backoff overflows at attempt 31 without a cap, or with a cap above 10 s * 2^29
  (`Backoff.DelayCorrectExactly`); every cap up to 2^62 ns is safe.

## Model

| member | source | states |
|---|---|---|
| Runs.NoDoubleStart | internal/orchestrator/state.go:226-267 | in every run of the service, two successful starts of one item have it leaving `running` in between |
| Runs.MapsAgree | internal/orchestrator/state.go:381-420 | always running ⊆ claimed ⊆ running ∪ retrying, running and retrying disjoint, every key its entry's ID, and the global limit kept |
| Runs.RunningIsHistory | internal/orchestrator/state.go:113-126 | an item is running exactly when its last start has not been followed by a departure |
| Runs.RetryTimersAgree | internal/orchestrator/service.go:151-177 | while open, timers and queued retries have the same keys and nonces, nonces are distinct and bounded, and each retry has exactly one live callback, due exactly when the retry is or, where that had passed, when it was armed |
| Runs.NonceTakenOnce | internal/orchestrator/state.go:381-386 | no retry nonce is taken twice, by one item or by two, even when Stop came too late |
| Runs.AttemptsRiseOverRuns | internal/orchestrator/state.go:364-417 | while an item keeps its claim its queued attempts strictly rise until completion or release |
| Runs.OnePollPending | internal/orchestrator/service.go:93-136 | while open exactly one pending callback carries the current poll nonce: a tick due at nextPollAt, or a cycle with none |
| Runs.RefreshIsServed | internal/orchestrator/service.go:76-84 | behind every refresh, coalesced or not, is a live cycle or a tick already due, and it is coalesced exactly in those cases |
| Runs.TickAdvances | internal/orchestrator/service.go:104-114 | delivering the current tick opens a cycle due after the transition delay, so the loop does not stall |
| Runs.CycleAdvances | internal/orchestrator/service.go:116-136 | delivering the current cycle schedules the next tick one interval on under a new nonce |
| Runs.QuietAfterClose | internal/orchestrator/service.go:54-68 | after close nothing calls startRun or stopRun and no item enters `running`, whatever arrives |
| Runs.ApplyRunEventQuiet | internal/orchestrator/state.go:326-379 | a worker event never starts or stops a run and never adds one |
| Lifecycle.StartsAreSeparated | internal/orchestrator/state.go:226-267 | a history the automaton accepts has a departure between two starts |
| Lifecycle.ConsumedOnce | internal/orchestrator/state.go:381-386 | an accepted history with rising nonces takes each at most once, whichever items take it |
| Lifecycle.QueuedBehind | internal/orchestrator/state.go:381-386 | behind every consumption is the queueing of its nonce for its item, with no other consumption by the item in between |
| Lifecycle.IdleUntilStart | internal/orchestrator/state.go:248-264 | an item that is not running stays so until a start of it succeeds |
| Lifecycle.EarlyStartIsFresh | internal/orchestrator/state.go:269-286 | in an accepted history the first start after a queueing whose nonce has not been taken is of an unclaimed item, at attempt 0 |
| Lifecycle.TakenBeforeStart | internal/orchestrator/state.go:381-386 | where no first attempt at it was refused, a queued item starts only after its nonce has been taken |
| Lifecycle.AttemptsRise | internal/orchestrator/state.go:753-758 | in an accepted history the attempts of a claimed item rise from one retry to the next |
| Lifecycle.RunningUntilLeave | internal/orchestrator/state.go:226-267 | an item stays in its run until a retry is queued for it or it is dropped |
| Safety.TryCandidateSound | internal/orchestrator/state.go:183-205 | trying a candidate keeps the whole invariant |
| Safety.DispatchSound | internal/orchestrator/state.go:226-267 | a dispatch that gets a host starts the item or queues it again, and restores the invariant |
| Safety.HandleDueRetrySound | internal/orchestrator/state.go:381-420 | the retry path keeps the invariant although it never looks at `running` |
| Safety.ApplyRunEventSound | internal/orchestrator/state.go:326-379 | worker events keep the invariant, whichever item they name |
| Safety.ReconcileStalledSound | internal/orchestrator/state.go:422-441 | stopping stalled runs keeps the invariant in any walk of the map |
| Safety.ReconcileRunningSound | internal/orchestrator/state.go:443-488 | reconciliation keeps the invariant for any answer of the tracker |
| Safety.ProcessCandidatesSound | internal/orchestrator/state.go:183-205 | a dispatch pass keeps the invariant |
| ServiceSafety.StepSound | internal/orchestrator/service.go:54-177 | every step of the service, stale callbacks included, keeps maps, timers and nonces in agreement |
| ServiceSafety.RunSound | internal/orchestrator/service.go:54-177 | so does every sequence of steps |
| ServiceSafety.NewServiceSound | internal/orchestrator/service.go:33-52 | a new service starts in the invariant, with its first tick pending |
| ServiceSafety.SyncSound | internal/orchestrator/service.go:151-177 | synchronising restores the agreement of timers and retries and leaves polling alone |
| Frames.ApplyRunEventEvolves | internal/orchestrator/state.go:326-379 | an event leaves the poll loop's fields alone and only extends history and nonces |
| Frames.HandleDueRetryEvolves | internal/orchestrator/state.go:381-420 | so does a due retry, which does nothing at all under a stale nonce |
| Tokens.TokensConserved | internal/orchestrator/state.go:555-568 | in every run each aggregate field is the sum, over all runs ever started, of the positive increments of their reports |
| Tokens.TallyIsSpent | internal/orchestrator/state.go:350-352 | the running total and the sum taken run by run agree on every accepted history |
| Tokens.TotalsAreFinalReports | internal/orchestrator/state.go:555-568 | when no run's reports fall back, the aggregate is the sum of the runs' final reports |
| Tokens.TotalsNeverDecrease | internal/orchestrator/state.go:555-568 | no step lowers the aggregate |
| Tokens.MarkIsLatest | internal/orchestrator/state.go:255-263 | a run's mark starts at zero and is its own latest report, never that of an earlier run of the item |
| DispatchPass.NoPriorityInversion | internal/orchestrator/state.go:183-205 | candidates are tried in a sorted permutation, in which no later one has a smaller priority from 1 to 4, is as urgent but older, or is as urgent and as old with an earlier name; and after a refusal for the global limit or by host admission no later one is started, claimed or queued |
| DispatchPass.UrgentFirst | internal/orchestrator/state.go:674-677 | a priority from 1 to 4 comes before every larger one, before one out of range and before none |
| DispatchPass.OlderFirst | internal/orchestrator/state.go:678-694 | among equally urgent items the older comes first, and one created before the year 9999 before one without a date |
| DispatchPass.NamesDecide | internal/orchestrator/state.go:682-684 | among equally urgent items of one age the identifier decides, or the ID where it is blank |
| DispatchPass.SortedByFields | internal/orchestrator/state.go:671-701 | so any two items of a sorted list stand in the order of their own fields |
| Text.BeforeExactly | internal/orchestrator/state.go:682-684 | one text comes before another iff it is a proper beginning of it or has the smaller character where they first differ |
| Text.TrimCuts | internal/orchestrator/state.go:735-737 | trimming leaves the text between outer blanks, which begins and ends with none |
| DispatchPass.SoonerStrict | internal/orchestrator/state.go:671-701 | the candidate order is a strict weak order, so sorting by it is meaningful |
| DispatchPass.SortSoonerSorts | internal/orchestrator/state.go:671-701 | an insertion sort by the candidate order meets what is assumed of sort.Slice |
| DispatchPass.FullStartsNothing | internal/orchestrator/state.go:279-281 | once full, the rest of a pass changes nothing but call counts |
| Reconciliation.ReconcileRunningExact | internal/orchestrator/state.go:443-500 | after a successful refresh exactly the visible, active, non-terminal, not unroutable runs remain with their new items; every other lost its claim and got one stop, with cleanup iff terminal |
| Reconciliation.ShownDecides | internal/orchestrator/state.go:461-480 | a running item is dropped with cleanup if last shown terminal, without if last shown inactive or unroutable, and else runs on with nothing changed but its item |
| Reconciliation.HiddenIsDropped | internal/orchestrator/state.go:463-466 | a running item the answer does not show is dropped, with one stop under its handle and without cleanup |
| Reconciliation.ReconcileOrderIrrelevant | internal/orchestrator/state.go:461-480 | two walks of the map leave the same maps and the same stop calls per item |
| Reconciliation.ReconcileStalledExact | internal/orchestrator/state.go:422-441 | exactly the runs idle longer than the timeout are stopped once without cleanup and queued for their next attempt, due after its backoff under a fresh nonce, with their claim kept, in any walk of the map |
| Eligibility.DispatchedExactly | internal/orchestrator/state.go:269-314 | a candidate is taken up iff it is complete, active, not terminal, not unroutable, no todo with an open blocker, neither claimed nor running, and below both limits |
| Eligibility.OpenBlockerBlocks | internal/orchestrator/state.go:316-324 | a todo with a blocker that is not terminal is no candidate |
| Eligibility.OnlyDispatchableStart | internal/orchestrator/service.go:54-177 | in every run whatever enters `running` is by its own fields dispatchable at that moment, and a slot was free |
| Eligibility.DispatchExactly | internal/orchestrator/state.go:226-267 | with a host, startRun is asked once for the item, the attempt and that host; accepted, the new entry, claim and queue are given field by field, refused, the retry is |
| Eligibility.CandidateStarts | internal/orchestrator/state.go:188-224 | a dispatchable candidate that is shown, admitted and accepted starts as it is shown, at attempt 0 |
| DueRetries.TerminalIsCleanedUp | internal/orchestrator/state.go:393-396 | a due retry of an item shown terminal leaves no claim, run or retry, and one stop without a handle, with cleanup |
| DueRetries.IneligibleIsStopped | internal/orchestrator/state.go:397-400 | of an item shown neither terminal nor dispatchable: the same without cleanup |
| DueRetries.MissingIsReleased | internal/orchestrator/state.go:390-392 | of an item no longer shown: released, and nothing is stopped |
| DueRetries.UnknownIsQueuedAgain | internal/orchestrator/state.go:401-403 | where the tracker cannot be asked or fails, the item is queued for one attempt more with claim, host and path kept, and nothing is stopped |
| DueRetries.CrowdedIsQueuedAgain | internal/orchestrator/state.go:406-413 | a dispatchable item without room is queued again in the same way |
| DueRetries.HomelessIsQueuedAgain | internal/orchestrator/state.go:415-419 | and so is one without a host |
| DueRetries.ReadyIsStarted | internal/orchestrator/state.go:406-419 | with room and a host startRun is asked for the attempt that was queued, and its answer decides |
| DueRetries.ReturnsToItsHost | internal/orchestrator/state.go:415-415 | a retry goes back to its host where that is configured and has room |
| Events.CompletionContinues | internal/orchestrator/state.go:355-360 | a completed run is queued at attempt 1 one second later, claim kept, on the host and path last named |
| Events.FailureRetries | internal/orchestrator/state.go:361-372 | a failed run is queued for the next attempt after its backoff, with the worker's error as the cause |
| Events.EventUpdates | internal/orchestrator/state.go:326-353 | any other event changes its own entry alone: what it names is taken over, what it leaves blank is kept |
| Events.ReportsAreCounted | internal/orchestrator/state.go:555-568 | the aggregate grows by what each figure of the report exceeds the run's previous report by |
| Events.StalledExactly | internal/orchestrator/state.go:422-441 | a run is stopped as stalled iff its last dated event, or without one its start, is longer ago than the timeout |
| Events.HeardKeepsRunning | internal/orchestrator/state.go:326-441 | after an event dated t no check up to t plus the timeout stops the run |
| Cycles.FinishedFreesSlot | internal/orchestrator/service.go:123-133 | a run that a cycle's refresh shows terminal frees its slot for that cycle's candidate |
| Cycles.StalledFreesSlot | internal/orchestrator/service.go:123-133 | and so does a stalled one |
| Trails.StepIsTrail | internal/orchestrator/service.go:54-177 | a step of the service is the sequence of scheduling operations its trail names |
| Trails.RunIsTrail | internal/orchestrator/service.go:54-177 | so is a whole run |
| Additions.StepAdds | internal/orchestrator/service.go:104-149 | a step that delivers no event ends no run on a worker's word, and starts none where startRun refuses every call |
| QueuedClaims.UnclaimedRetryExactly | internal/orchestrator/state.go:234-247 | a fresh candidate is queued unclaimed iff startRun refuses it |
| QueuedClaims.OperationKeepsClaimsExactly | internal/orchestrator/state.go:183-488 | each operation keeps every queued retry claimed iff it is not a candidate that startRun refuses |
| QueuedClaims.ClaimsHoldExactly | internal/orchestrator/service.go:54-177 | in every run all queued retries are claimed throughout iff no candidate is refused |
| EarlyStarts.EarlyStartsAreFresh | internal/orchestrator/state.go:269-286 | in every run a queued item that starts before its retry has been taken was not claimed and starts at attempt 0 |
| EarlyStarts.NoneStartsEarly | internal/orchestrator/state.go:234-247 | in every run in which no candidate is refused, a queued item starts only after its retry has been taken |
| EarlyStarts.UnclaimedRetryHappens | internal/orchestrator/state.go:237-247 | a run the clock allows, in a sound environment, after which an item is queued and not claimed |
| EarlyStarts.UnclaimedStartsEarly | internal/orchestrator/state.go:269-286 | asked to refresh, that run goes on to start the item at attempt 0 before its retry is due |
| StateLimits.StartKeepsStateLimitsExactly | internal/orchestrator/state.go:301-314 | a start keeps every per-state limit iff the state it starts in had room |
| StateLimits.RedispatchKeepsStateLimits | internal/orchestrator/state.go:406-413 | the retry path keeps the per-state limits |
| StateLimits.CandidateKeepsStateLimitsExactly | internal/orchestrator/state.go:188-197 | the candidate path keeps them iff the refreshed state had room, no host was admitted or startRun refused |
| StateLimits.RefreshKeepsStateLimitsExactly | internal/orchestrator/state.go:443-480 | reconciliation keeps them iff, for every limited state, the kept items whose refreshed state it is number at most its limit |
| StateLimits.OperationKeepsStateLimitsExactly | internal/orchestrator/state.go:183-488 | stalls, due retries and events always keep them, candidates and refreshes exactly under these conditions |
| StateLimits.StateLimitsHoldExactly | internal/orchestrator/service.go:54-177 | in every run the limits hold throughout iff every candidate and every refresh meets its condition |
| StateLimits.CandidateOverrun | internal/orchestrator/state.go:188-197 | they break whenever an item is listed in a state with room, refreshed in a full one and started |
| StateOverruns.CandidateOverrunRun | internal/orchestrator/state.go:188-197 | a run the clock allows in which that happens |
| StateOverruns.RefreshOverrun | internal/orchestrator/state.go:461-480 | a run the clock allows whose second poll starts nothing and breaks a limit by refreshing a running item into another one's state |
| Snapshots.SnapshotDetermined | internal/orchestrator/state.go:570-637 | whatever the map walks and ties in sorting, a reachable state has one snapshot |
| Snapshots.RunningListExact | internal/orchestrator/state.go:573-607 | the running list is strictly sorted and holds each running entry exactly once |
| Snapshots.RetryListExact | internal/orchestrator/state.go:608-628 | the retry list is strictly sorted and holds each queued retry exactly once |
| Snapshots.SnapshotShowsAll | internal/orchestrator/state.go:573-628 | every running item and every queued retry has its own line with its own fields, and there is no other line |
| Snapshots.SnapshotOrder | internal/orchestrator/state.go:595-628 | runs are listed by identifier, retries by the time they are due |
| Backoff.ComputeFailureRetryDelay | internal/orchestrator/state.go:739-751 | the doubling loop computes the 64-bit specification, wrap-around included |
| Backoff.DelayIsCappedDoubling | internal/orchestrator/state.go:739-751 | for caps up to 10 s * 2^29 the delay is min(10 s * 2^(n-1), cap), positive and within the cap |
| Backoff.DelayMonotone | internal/orchestrator/state.go:739-751 | later attempts never wait less |
| Backoff.AttemptThirtyOneOverflows | internal/orchestrator/state.go:741-745 | without a cap, or with a larger one, attempt 31 has a negative delay |
| Backoff.DelayCorrectExactly | internal/orchestrator/state.go:739-751 | the delay is the documented one at every attempt iff 0 < cap <= 10 s * 2^29 |
| Hosts.Select | internal/runner/host_selection.go:15-43 | the scan returns the choice specified for the tallied loads |
| Hosts.TallyIsLoad | internal/runner/host_selection.go:63-73 | the map built from the loads gives each host its total positive load |
| Hosts.NormalizeHosts | internal/runner/host_selection.go:52-61 | configured hosts are trimmed, blanks dropped, order kept |
| Hosts.ChooseIsSelection | internal/runner/host_selection.go:22-42 | the choice is the preferred host if eligible, else the first least-loaded eligible one, else a refusal with none eligible |
| Hosts.SelectionUnique | internal/runner/host_selection.go:22-42 | that description has exactly one answer |
| Hosts.RefusedMeansFull | internal/runner/host_selection.go:38-41 | admission refuses iff hosts are configured and all are full |
| Hosts.AdmittedHasRoom | internal/runner/host_selection.go:45-50 | an admitted host is configured and has room |
| HostCapacity.HostLimitHoldsExactly | internal/orchestrator/state.go:639-669 | in every run no host ever carries more than its limit iff every event leaves its run in place, names a blank host, or names a host with room |
| HostCapacity.EventKeepsLimitExactly | internal/orchestrator/state.go:336-338 | one event keeps the limit iff it meets that condition |
| HostCapacity.StepWithin | internal/orchestrator/state.go:226-267 | every other step keeps it unconditionally |
| JointHosts.HostLimitHoldsForOwnEvents | internal/cli/runtime.go:445-508 | the limit holds in every interleaving of service and workers in which a running item hears, ends of runs excepted, only from the worker whose handle it runs under |
| JointHosts.OwnEventEchoes | internal/orchestrator/state.go:255-263 | an event of the worker an item runs under names the host the item runs on |
| LateEvents.LateEventOverruns | internal/orchestrator/state.go:326-338 | a run of service and workers that the clock allows in which each host carries one run until a stopped worker announces its own host, which then carries two, with room for one |
| HostCapacity.HostCountIsTrue | internal/orchestrator/state.go:649-669 | the counts admission works with are the true numbers of runs per host |
| SchedulerObject.SchedulerState.constructor | internal/orchestrator/state.go:128-146 | a new state is empty and satisfies the invariant |
| SchedulerObject.SchedulerState.BeginPoll | internal/orchestrator/state.go:155-162 | a poll begins only under the current nonce; the new state is the specification's |
| SchedulerObject.SchedulerState.FinishPoll | internal/orchestrator/state.go:164-169 | the new state is the specification's: not checking, next poll one interval on, new nonce |
| SchedulerObject.SchedulerState.RequestRefresh | internal/orchestrator/state.go:171-181 | state and coalescing are the specification's |
| SchedulerObject.SchedulerState.ProcessCandidates | internal/orchestrator/state.go:183-205 | the loop over sorted candidates computes the specified pass |
| SchedulerObject.SchedulerState.RevalidateCandidate | internal/orchestrator/state.go:207-224 | state and item are the specification's, with and without a refresh dependency |
| SchedulerObject.SchedulerState.DispatchItem | internal/orchestrator/state.go:226-267 | claim, run, queue and history are the specification's for success, refusal and admission failure |
| SchedulerObject.SchedulerState.ShouldDispatch | internal/orchestrator/state.go:269-286 | decides exactly the specified eligibility |
| SchedulerObject.SchedulerState.RunningCountForState | internal/orchestrator/state.go:301-310 | counts the running items whose normalized state is the given one |
| SchedulerObject.SchedulerState.ApplyRunEvent | internal/orchestrator/state.go:326-379 | metadata, totals, rate limits and the switch on the kind give the specified state |
| SchedulerObject.SchedulerState.HandleDueRetry | internal/orchestrator/state.go:381-420 | every outcome of the refresh gives the specified state |
| SchedulerObject.SchedulerState.ReconcileStalled | internal/orchestrator/state.go:422-441 | the loop over the cloned map computes the specified state |
| SchedulerObject.SchedulerState.ReconcileRunning | internal/orchestrator/state.go:443-480 | so does the loop over the refreshed items |
| SchedulerObject.SchedulerState.InvalidateRun | internal/orchestrator/state.go:482-488 | the run leaves all three maps and is stopped with its handle |
| SchedulerObject.SchedulerState.RefreshRetryItem | internal/orchestrator/state.go:502-521 | the status is the specified classification, errors included |
| SchedulerObject.SchedulerState.ScheduleFailureRetry | internal/orchestrator/state.go:536-553 | a retry under a fresh nonce, due after the backoff |
| SchedulerObject.SchedulerState.ScheduleContinuationRetry | internal/orchestrator/state.go:523-534 | attempt 1 under a fresh nonce, due after a second |
| SchedulerObject.SchedulerState.ApplyAggregateDelta | internal/orchestrator/state.go:555-568 | the aggregate grows by the positive increments and the mark moves to the report |
| SchedulerObject.SchedulerState.HostLoads | internal/orchestrator/state.go:649-669 | the reported loads give every host its true number of runs |
| SchedulerObject.SchedulerState.AdmitHost | internal/orchestrator/state.go:639-647 | admission through the reported loads decides as admission on the true counts would |
| SchedulerObject.SchedulerState.TakeSnapshot | internal/orchestrator/state.go:570-637 | the result is the snapshot of the state |
| ServiceObject.OrchestratorService.constructor | internal/orchestrator/service.go:33-52 | a new service is the specified one and satisfies the invariant |
| ServiceObject.OrchestratorService.SchedulePoll | internal/orchestrator/service.go:93-102 | stops the old tick, issues a nonce and arms a tick under it; nothing once closed |
| ServiceObject.OrchestratorService.RequestRefresh | internal/orchestrator/service.go:76-84 | the specified state and answer, keeping the invariant |
| ServiceObject.OrchestratorService.HandlePollTick | internal/orchestrator/service.go:104-114 | a stale or late tick changes nothing; the current one opens a cycle |
| ServiceObject.OrchestratorService.HandlePollCycle | internal/orchestrator/service.go:116-136 | reconcile, list, dispatch, synchronise and schedule give the specified state |
| ServiceObject.OrchestratorService.HandleRetryTick | internal/orchestrator/service.go:138-149 | the specified state, also for a stale nonce |
| ServiceObject.OrchestratorService.SyncRetryTimersLocked | internal/orchestrator/service.go:151-177 | the two loops compute the specified timers in any walk of the maps |
| ServiceObject.OrchestratorService.ApplyRunEvent | internal/orchestrator/service.go:86-91 | the specified state, also after close |
| ServiceObject.OrchestratorService.Close | internal/orchestrator/service.go:54-68 | closed, with every timer stopped that still can be |
| ServiceObject.OrchestratorService.Drive | internal/orchestrator/service.go:54-177 | any run of the object is a run of the specification and keeps its invariant |
| Workers.WorkersEndOnce | internal/cli/runtime.go:445-508 | a worker emits at most one terminal event, last, and exactly one if it ends without being cancelled |
| Workers.NoEarlyEventDropped | internal/cli/runtime.go:374-400 | an uncancelled worker finds its item running under its own handle, unless a terminal event was already applied to the item |
| Workers.FirstTerminalWins | internal/orchestrator/state.go:355-372 | the first terminal event queues a running item with its claim kept and the specified attempt; whatever the service does then, events for the item are ignored until a start of it succeeds |
| Workers.SystemSound | internal/cli/runtime.go:374-508 | every interleaving of workers and service keeps the joint invariant |
| Workers.WorkersEchoTheirHost | internal/cli/runtime.go:399-399 | an event carries the item and host its run was started with |
| WorkerEvents.WorkersSpeakInOrder | internal/cli/runtime.go:445-508 | in every interleaving every worker names host, workspace and path in this order, then works, and ends at most once; only a failed creation ends it before |
| WorkerEvents.LoopEndIsReported | internal/cli/runtime.go:486-507 | a loop that ends well is reported as completion, otherwise as failure, and not at all once cancelled |
| WorkerEvents.CreateFailureIsReported | internal/cli/runtime.go:460-464 | a workspace that cannot be made is reported as a failure, cancelled or not |
| WorkerEvents.EndReachesScheduler | internal/cli/runtime.go:486-508 | the reported end of a working worker takes its item out of `running`: at attempt 1 in a second after success, at the next attempt after its backoff after failure |
| Orphans.MoveOrphansExactly | internal/orchestrator/state.go:326-372 | from a state in which an item's working workers are the one it runs under, a move changes that iff it applies another worker's terminal event to the item while its own worker works |
| Orphans.NeverOrphanedExactly | internal/orchestrator/state.go:326-372 | in every interleaving an item's working workers are throughout the one it runs under iff no move does that |
| Orphans.OneWorks | internal/orchestrator/state.go:326-372 | an item has then at most one working worker |
| Orphans.TwoWorkersMeanEndedRun | internal/orchestrator/state.go:326-372 | two uncancelled workers of one item, both still working, mean that such a move came before |
| StrayEvents.StrayFailureDoubles | internal/cli/runtime.go:460-464 | a run the clock allows in which a stopped worker's failed workspace creation ends the newer run of its item, whose worker goes on beside the one its retry starts |
| Workers.ClosingCancelsAll | internal/cli/runtime.go:421-437 | once the root is cancelled, by the manager's close or before it, every worker is cancelled, also those started afterwards |
| Workers.QuietAfterManagerClose | internal/cli/runtime.go:374-437 | once the manager is closed, whether or not the service is, its refusals let no worker appear, and none that has gone comes back or emits |
| Workers.RunUnsettled | internal/orchestrator/state.go:226-267 | until it is stopped or a terminal event is applied, an item runs under the handle it was started with |
| Manager.WorkerManager.StartRun | internal/cli/runtime.go:374-400 | refused without effect iff closed; otherwise one fresh live worker, registered over any older handle, as the specification of the call says |
| Manager.WorkerManager.StopRun | internal/cli/runtime.go:402-419 | stops the handle and asks for the cleanup its workspace path determines |
| Manager.WorkerManager.Finish | internal/cli/runtime.go:393-397 | the worker is no longer live and its item's entry is removed, whosever it is |
| Manager.WorkerManager.MarkClosed | internal/cli/runtime.go:423-429 | the locked part of close: no new runs, and the listed handles copied |
| Manager.WorkerManager.CancelRoot | internal/cli/runtime.go:430-430 | every live worker is cancelled, nothing else changes |
| Manager.WorkerManager.StopListed | internal/cli/runtime.go:431-433 | every copied handle is stopped, and the books stay as they are |
| Manager.WorkerManager.BeginClose | internal/cli/runtime.go:421-434 | uninterrupted, these leave no new runs, every live worker cancelled and every listed handle stopped |
| Manager.WorkerManager.WaitReturns | internal/cli/runtime.go:434-434 | the wait returns iff no worker is live |
| Manager.NewerHandleUnlisted | internal/cli/runtime.go:439-443 | a live worker that the map no longer lists, yet is cancelled and waited for at close |
| ManagerCalls.CallKeepsListedExactly | internal/cli/runtime.go:374-443 | any call leaves a live worker listed iff it was and the call neither starts another worker of its item nor returns one |
| ManagerCalls.ListedExactly | internal/cli/runtime.go:374-443 | over any calls from its start to its return, a worker is listed iff no call has displaced its item |
| ManagerCalls.AllListedExactly | internal/cli/runtime.go:374-443 | where all live workers are listed, a call keeps that iff it is no start of an item with a live worker |
| ManagerCalls.ListedThroughoutExactly | internal/cli/runtime.go:374-443 | over any sequence of calls all live workers are listed throughout iff no start meets a live worker of its item |
| ManagerCalls.OverlapUnlistsBoth | internal/cli/runtime.go:388-397 | in any manager an overlapping start unlists the older worker, and the older one's return the newer |
| ManagerCalls.ListedAreLive | internal/cli/runtime.go:439-443 | however it is called, the map lists only live workers, each under its item |
| ManagerCalls.ClosedOnlyShrinks | internal/cli/runtime.go:374-434 | once closed, whatever is called, the live workers only become fewer, and none stays none |
| ManagerCalls.CloseDrains | internal/cli/runtime.go:421-434 | with any calls between the lock and the cancellation and after, the root ends cancelled, no worker is newer than the lock, and none is left once each of those has returned |
| Manager.RunHandle.Stop | internal/cli/runtime.go:711-723 | cancels and closes the present session on the first call, nothing later |
| Manager.RunHandle.ClearSession | internal/cli/runtime.go:703-709 | only the session that is set is cleared |
| Paths.CanonicalizePath | internal/workspace/manager.go:378-417 | it terminates and computes the component-by-component meaning of the path, errors included |
| Paths.RestartAtLink | internal/workspace/manager.go:390-403 | restarting on target plus remainder keeps the meaning and follows one link less |
| Paths.ResolveAppend | internal/workspace/manager.go:398-403 | resolving a path is resolving a prefix and then the rest from its result |
| Paths.ResolvedIsSettled | internal/workspace/manager.go:378-417 | no prefix of a result is a symbolic link |
| Paths.CanonicalIsIdempotent | internal/workspace/manager.go:378-417 | a result is its own canonical path, in clean segments |
| Paths.NeverLoops | internal/workspace/manager.go:378-417 | under an acyclic ranking every path resolves or fails |
| Paths.DirectLinksAreAcyclic | internal/workspace/manager.go:390-403 | trees whose links point at link-free places satisfy the assumption |
| Paths.SelfLinkIsCyclic | internal/workspace/manager.go:390-403 | a link to itself does not |
| Paths.WithinIsPrefix | internal/workspace/manager.go:433-442 | the test on the relative path is the segment-wise prefix test |
| Paths.ValidateLocalPath | internal/workspace/manager.go:279-307 | accepts exactly the paths strictly below the canonical root; names the escape, equality and outside errors exactly |
| DotDot.DownAndUp | internal/workspace/manager.go:395-403 | a name followed by `..` leads nowhere |
| DotDot.UpAndDown | internal/workspace/manager.go:395-403 | n times `..` and then names lead to the place without its last n segments, followed by the names |
| DotDot.UpFromTop | internal/workspace/manager.go:395-403 | at the top `..` stays |
| DotDot.LeavingTheRoot | internal/workspace/manager.go:279-307 | without links, the root followed by `..` and names is judged by the place reached: accepted iff the root is a proper beginning of it |
| DotDot.SiblingIsOutside | internal/workspace/manager.go:279-307 | root/../name is outside the root |
| DotDot.LinkOutsideEscapes | internal/workspace/manager.go:296-305 | a link below the root to a link-free place outside it is reported as a symlink escape |
| DotDot.ClimbingLinkEscapes | internal/workspace/manager.go:395-403 | also where it climbs out of the root by `..` |
| DotDot.LinkInsideIsAccepted | internal/workspace/manager.go:279-307 | a link to a place strictly below the root is followed and its target accepted |
| DotDot.FromWorkingDirectory | internal/workspace/manager.go:378-383 | a relative path starts at the working directory, an absolute one at the top |
| DotDot.UnreadableFails | internal/workspace/manager.go:378-417 | an entry that cannot be looked at or a link that cannot be read fails the whole path |
| DotDot.UnreadableIsNamed | internal/workspace/manager.go:279-287 | the workspace is reported as unreadable before the root |
| Paths.SafeCharacters | internal/workspace/manager.go:258-270 | safe are the ASCII letters and digits, full stop, hyphen and underscore, by code point |
| Paths.SafeIdentifier | internal/workspace/manager.go:252-277 | one non-empty segment of safe characters: safe ones kept, others underscores |
| Paths.PathForIdentifier | internal/workspace/manager.go:129-136 | the verdict is that on root/safe name; an accepted workspace is strictly below the root, and an ordinary unlinked name gives exactly root/name |
| Paths.ChildOfRoot | internal/workspace/manager.go:129-136 | the canonical path of root/name is the canonical root followed by the name, unless that is a link |
| Quoting.QuotedIsRead | internal/runner/execution_host.go:202-210 | wherever it stands, a quoted NUL-free value adds exactly itself to the word a POSIX shell is reading |
| Quoting.QuotedIsOneWord | internal/runner/execution_host.go:202-210 | the shell reads a quoted value as the single word it is |
| Quoting.NestedIsRead | internal/runner/execution_host.go:149-154 | the ssh command line is read as bash, -lc and the exact remote command |
| Quoting.RemoteChangesDirectory | internal/runner/execution_host.go:149-152 | the remote command begins with cd and exactly the directory, then && and the command |
| Quoting.RemovalIsRead | internal/workspace/manager.go:503-509 | the removal command is read as rm -rf -- and exactly the path |
| Quoting.AssignmentIsRead | internal/workspace/manager.go:538-543 | the assignment line of the ensure script holds exactly the path |
| Quoting.SplitHostPort | internal/runner/execution_host.go:157-188 | target and port are the one split of the host, or the host itself when it has none |
| Quoting.BuildSSHArgs | internal/runner/execution_host.go:138-155 | flags, target and a last argument that a shell reads back to the exact remote command |
| Readers.LinearReader.RefreshByIDs | internal/trackers/linear/reader.go:113-155 | for any order of the server's answers the result is the in-order lookup of the trimmed, distinct IDs, requested in pages that partition them; the first failure is reported, after the first pages alone |
| Readers.LinearReader.FetchPages | internal/trackers/linear/reader.go:128-149 | the pages are full but for the last, and their answers together answer the whole list |
| Readers.SortedAnswerIsInOrder | internal/trackers/linear/reader.go:151-154 | any sorted permutation of the answers is the in-order lookup |
| Readers.MemoryReader.RefreshByIDs | internal/trackers/memory/reader.go:56-75 | the result is the in-order lookup in the seeded items |
| Readers.SeedIndexHoldsLast | internal/trackers/memory/reader.go:61-64 | exactly the seeded IDs are found, each as its last item |
| Readers.ReadersAgree | internal/trackers/linear/reader.go:113-155 | a Linear server showing the seeded items makes both readers return the same sequence |
| Readers.NormalizeIDs | internal/trackers/linear/reader.go:376-391 | the loop computes the trimmed, distinct IDs in order of first occurrence |
| Readers.NormalizedContent | internal/trackers/linear/reader.go:376-391 | the result is free of repetitions and holds exactly the non-blank trimmed IDs |
| Readers.NormalizedInOrder | internal/trackers/linear/reader.go:376-391 | of two IDs of the result the one that occurs first comes first |
| Readers.NormalizedIdempotent | internal/trackers/linear/reader.go:376-391 | normalizing twice is normalizing once |
| Readers.MemoryReaderEchoes | internal/trackers/memory/reader.go:56-75 | the memory reader meets the scheduler's assumption on refreshes |
| Readers.LinearReaderEchoes | internal/orchestrator/state.go:215-219 | the Linear reader echoes an ID it finds iff the ID has no outer blanks |
| Codex.CompleteTurnAnswers | internal/codex/session.go:377-417 | in a turn that returns a status the reply IDs are, in order and one for one, the request IDs read in the loop |
| Codex.CompleteTurnEndsOnce | internal/codex/session.go:391-402 | exactly one terminal event, as the last act, so nothing is written after it |
| Codex.CompleteTurnWrites | internal/codex/session.go:329-417 | such a turn writes turn/start and then only its loop's replies |
| Codex.BrokenTurnAnswers | internal/codex/session.go:403-414 | a turn with an error answered every request it read in the loop except possibly the last |
| Codex.BrokenTurnWrites | internal/codex/session.go:329-417 | it wrote at most a start and then only its loop's replies |
| Codex.BrokenTurnNeverEnds | internal/codex/session.go:391-414 | it emitted no terminal event |
| Codex.SessionWrites | internal/codex/session.go:420-464 | a session writes initialize, initialized, thread/start and then turn after turn |
| Codex.OwnNumber | internal/codex/session.go:940-959 | an ID is the session's own number iff it is that number, apart from a fraction, or its decimal |
| Codex.EndingByVerb | internal/codex/session.go:390-402 | a line ends the turn with a status iff its method is that status's |
| Codex.RequestByVerb | internal/codex/session.go:403-414 | a line is a request iff its method is one of the four approvals, item/tool/requestUserInput or item/tool/call |
| Codex.LoopByVerbs | internal/codex/session.go:377-417 | of the raw lines of a loop exactly those with such a method have been answered, in order, under their IDs and with the decision their method calls for, and none has a method that ends a turn |
| Codex.ToolOutcome | internal/codex/session.go:559-589 | reply and event of a tool call both tell success, failure and an unsupported tool apart |
| Codex.ExactLabelWins | internal/codex/session.go:856-874 | the first label that is "Approve this Session" or "Approve Once" is chosen wherever it stands |
| Codex.ApprovingLabelElse | internal/codex/session.go:856-874 | without one, the first that begins with approve or allow apart from blanks and case, and else none |
| Codex.OfferedExactly | internal/codex/session.go:808-826 | an approval is found iff some label is one of the two or sounds approving |
| Codex.RefusedInWords | internal/codex/session.go:828-842 | questions that are not approved are refused in the fixed words |
| Codex.ApprovalOptionLabel | internal/codex/session.go:856-874 | the first exact label, or else the first that begins with approve or allow |
| Codex.ApprovalAnswers | internal/codex/session.go:808-826 | answers exactly when every question has an ID and offers an approval |
| Codex.UnavailableAnswers | internal/codex/session.go:828-842 | answers exactly when there are questions and all have IDs |
| Codex.AnswersEveryQuestion | internal/codex/session.go:808-842 | exactly the questions' IDs are answered |
| Codex.OwnReply | internal/codex/session.go:808-842 | a question not overridden by a later one with its ID gets its own reply |
| CodexObject.Session.RunTurn | internal/codex/session.go:329-418 | every turn is recorded with its result; a status is that of the method of the last raw line read, no line of the loop before it ends a turn, and exactly those that ask were answered; an error has its cause in the stream: a failed read or write, a response in error or without an ID, or a request the policy refuses; a closed session is untouched |
| CodexObject.Session.TurnLoop | internal/codex/session.go:377-417 | the loop is a sequence of complete exchanges and one ending |
| CodexObject.Session.AwaitResponse | internal/codex/session.go:466-510 | reads up to the first line with the ID, reporting and never answering what comes before; the outcome is what that line says, or a failed read where none came |
| CodexObject.Session.Bootstrap | internal/codex/session.go:420-464 | the thread is the one the response to thread/start names; every failure has its cause in the stream or a failed write, and then only a prefix of the handshake was written |
| CodexObject.Session.Start | internal/codex/session.go:282-296 | it succeeds iff the handshake is answered with a thread; a failed bootstrap closes the transport |
| CodexObject.Session.Close | internal/codex/session.go:307-327 | the transport is closed once however often it is called |
| CodexObject.Session.HandleApproval | internal/codex/session.go:525-539 | one decision under the request's ID, or a refusal iff the policy is not never |
| CodexObject.Session.HandleUserInput | internal/codex/session.go:541-557 | approvals where every question offers one, else the refusal for all, under the request's ID; an error iff the session is interactive, a question has no ID or the write fails |
| CodexObject.Session.HandleToolCall | internal/codex/session.go:559-589 | every call is answered under its ID unless the write fails, also an unsupported or failing one, and an unnamed tool is never called |

## Left out

- Real time: each locked operation reads the clock once; durations are integers, and the millisecond rounding of a stall is not modelled.
- 64-bit wrap-around of attempts, nonces and token counts: only the backoff is modelled in 64-bit arithmetic.
- `strings.ToLower` is a parameter; item fields the scheduler only carries (URL, labels, branch, description) are dropped.
- Texts of logs and of LastError: a retry keeps its cause instead.
- A nil stopRun: the call is recorded in the history all the same, since its answer is ignored.
- The public wrapper of the service, HTTP, web and terminal rendering, configuration, command line, prompts.
- Mutexes: each service method is one atomic step under its lock, each worker emission a separate step.
- Events name an item, not a run: no claim is made that an event affects only the run that emitted it.
- A worker's hooks, turn limit and continuation prompts: its turn loop is any number of non-terminal events.
- Manager.WorkerManager.BeginClose: the object runs its three parts without a break; what other calls do in between is proved of the call specification (`ManagerCalls.CloseDrains`).
- Manager.WorkerManager.Finish: the removal from the map and the count-down after it are one step.
- Manager.RunHandle.Stop: a session set after the stop is not closed by it; it relies on the cancelled context, as in the source.
- Paths.CanonicalizePath: paths are taken already split at the separator, and `..` is cleaned lexically as in the source, so no equality with the kernel's resolution is claimed.
- Paths.PathForIdentifier: the identifier `..` is left to the general check, which may accept it where the root is a link to an ancestor of its own directory.
- Quoting.QuotedIsRead: unquoted expansions, patterns, comments and reserved words are refused by the modelled shell; quoted text never meets them.
- The output of the remote ensure script and its parsing.
- Readers.LinearReader.RefreshByIDs: query text, decoding and the assignee filter are part of the server's answer; listing by state is not modelled.
- Codex.CompleteTurnAnswers: requests that arrive while a response is awaited are reported and never answered, so nothing is claimed for them.
- CodexObject.Session.RunTurn: read and turn timeouts appear as failed reads without their error text; prompts, titles and event payloads are dropped; fractional IDs are truncated as in the source.
- CodexObject.Session.Close: a close concurrent with a running turn is not modelled.
- The process transport, validation of the session's workspace path, and token usage in results.
