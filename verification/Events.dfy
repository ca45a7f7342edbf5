/**
 What worker events leave of a run, and which runs count as stalled, field by field: the end of a run queues
 its item for the next attempt, other events only update the entry, and hearing from a worker keeps its run.
 */
module Events {
  import opened Domain
  import opened Scheduler
  import opened Safety
  import opened Reconciliation

  /** The attempt after a failed one: the first is 1, whatever the failed one's number below 1. */
  predicate IsNextAttempt(attempt: int, after: int) {
    after == if attempt > 0 then attempt + 1 else 1
  }

  // ----- the end of a run -----

  /** Where the last word of the worker, or else the entry, says the run was. */
  predicate NamesPlace(run: Run, event: RunEvent, host: string, path: string) {
    && host == (if event.workerHost != "" then event.workerHost else run.workerHost)
    && path == (if event.workspacePath != "" then event.workspacePath else run.workspacePath)
  }

  /** The item has left `running` with its claim kept, and is queued; all other items are as they were. */
  ghost predicate QueuedAfterRun(s: State, t: State, id: string, entry: Retry) {
    && t.running == s.running - {id} && t.claimed == s.claimed && t.retrying == s.retrying[id := entry]
    && t.retryNonce == s.retryNonce + 1 && entry.nonce == s.retryNonce + 1
  }

  /** A completed run is continued at attempt 1, one second later. */
  lemma CompletionContinues(cfg: Config, s: State, now: int, event: RunEvent, host: string, path: string)
    requires event.kind == RunCompleted && event.itemId in s.running && s.running[event.itemId].item.id == event.itemId
    requires NamesPlace(s.running[event.itemId], event, host, path)
    ensures var run := s.running[event.itemId];
            QueuedAfterRun(s, ApplyRunEvent(cfg, s, now, event), event.itemId,
                           Retry(event.itemId, run.item.identifier, 1, now + 1_000_000_000, Completed, host, path,
                                 s.retryNonce + 1))
  {
  }

  lemma FailureConcluded(
    cfg: Config, s: State, now: int, event: RunEvent, run: Run, attempt: int, message: string)
    requires event.kind == RunFailed && event.itemId in s.running && run.item.id == event.itemId
    requires IsNextAttempt(run.attempt, attempt)
    requires message == if event.error.Some? then event.error.value else event.message
    ensures QueuedAfterRun(s, Conclude(cfg, s, now, event, run), event.itemId,
                           Retry(event.itemId, run.item.identifier, attempt,
                                 now + Scheduler.Backoff.FailureRetryDelay(attempt, cfg.maxRetryBackoff),
                                 WorkerFailed(message), run.workerHost, run.workspacePath, s.retryNonce + 1))
  {
  }

  /** A failed run is repeated at the next attempt, after its backoff, with the worker's error as the cause. */
  lemma FailureRetries(
    cfg: Config, s: State, now: int, event: RunEvent, host: string, path: string, attempt: int, message: string)
    requires event.kind == RunFailed && event.itemId in s.running && s.running[event.itemId].item.id == event.itemId
    requires NamesPlace(s.running[event.itemId], event, host, path)
    requires IsNextAttempt(s.running[event.itemId].attempt, attempt)
    requires message == if event.error.Some? then event.error.value else event.message
    ensures var run := s.running[event.itemId];
            QueuedAfterRun(s, ApplyRunEvent(cfg, s, now, event), event.itemId,
                           Retry(event.itemId, run.item.identifier, attempt,
                                 now + Scheduler.Backoff.FailureRetryDelay(attempt, cfg.maxRetryBackoff),
                                 WorkerFailed(message), host, path, s.retryNonce + 1))
  {
    var stamped := Stamp(s.running[event.itemId], event);
    assert stamped.workerHost == host && stamped.workspacePath == path;
    FailureConcluded(cfg, Account(s, event), now, event, stamped, attempt, message);
  }

  // ----- other events -----

  /** The entry afterwards: what the event names is taken over, what it leaves blank is kept. */
  ghost predicate Updated(run: Run, after: Run, event: RunEvent) {
    && after.item == run.item && after.attempt == run.attempt && after.startedAt == run.startedAt
    && after.handle == run.handle
    && after.lastEventAt == (if event.at.Some? then event.at else run.lastEventAt)
    && after.lastEventKind == Some(event.kind) && after.lastEventMessage == event.message
    && NamesPlace(run, event, after.workerHost, after.workspacePath)
    && after.sessionId == (if event.sessionId != "" then event.sessionId else run.sessionId)
    && after.turnCount == run.turnCount + (if event.kind == TurnCompleted then 1 else 0)
    && (event.totals == Totals(0, 0, 0, 0) ==> after.totals == run.totals && after.lastReported == run.lastReported)
    && (event.totals != Totals(0, 0, 0, 0) ==> after.totals == event.totals && after.lastReported == event.totals)
  }

  /** An event that does not end the run changes its entry and nothing else but the aggregates. */
  lemma EventUpdates(cfg: Config, s: State, now: int, event: RunEvent)
    requires event.kind != RunCompleted && event.kind != RunFailed && event.itemId in s.running
    ensures var t := ApplyRunEvent(cfg, s, now, event);
            && event.itemId in t.running && Updated(s.running[event.itemId], t.running[event.itemId], event)
            && t.running == s.running[event.itemId := t.running[event.itemId]]
            && t.claimed == s.claimed && t.retrying == s.retrying && t.retryNonce == s.retryNonce
  {
  }

  lemma ConcludingKeepsBooks(cfg: Config, s: State, now: int, event: RunEvent, run: Run)
    ensures var t := Conclude(cfg, s, now, event, run); t.totals == s.totals && t.rateLimits == s.rateLimits
  {
  }

  /** The aggregate grows by what the report exceeds the run's previous one by, field by field. */
  lemma ReportsAreCounted(cfg: Config, s: State, now: int, event: RunEvent)
    requires event.itemId in s.running
    ensures var before, mark := s.totals, s.running[event.itemId].lastReported;
            var after := ApplyRunEvent(cfg, s, now, event).totals;
            if event.totals == Totals(0, 0, 0, 0) then after == before
            else
              && after.input == before.input + (if event.totals.input > mark.input then event.totals.input - mark.input else 0)
              && after.output
                 == before.output + (if event.totals.output > mark.output then event.totals.output - mark.output else 0)
              && after.total == before.total + (if event.totals.total > mark.total then event.totals.total - mark.total else 0)
              && after.seconds
                 == before.seconds + (if event.totals.seconds > mark.seconds then event.totals.seconds - mark.seconds else 0)
  {
    ConcludingKeepsBooks(cfg, Account(s, event), now, event, Stamp(s.running[event.itemId], event));
  }

  lemma RateLimitsAreTaken(cfg: Config, s: State, now: int, event: RunEvent)
    requires event.itemId in s.running
    ensures ApplyRunEvent(cfg, s, now, event).rateLimits
            == if event.rateLimits.Some? then event.rateLimits else s.rateLimits
  {
    ConcludingKeepsBooks(cfg, Account(s, event), now, event, Stamp(s.running[event.itemId], event));
  }

  // ----- stalls -----

  /** The run was last heard of then: at its last dated event, or when it started. */
  predicate HeardOf(run: Run, at: int) {
    (run.lastEventAt == Some(at)) || (run.lastEventAt.None? && run.startedAt == at)
  }

  /** Queued after a stall, and stopped once, with the run's handle and without cleanup. */
  ghost predicate StoppedAsStalled(cfg: Config, s: State, t: State, now: int, id: string, heard: int, attempt: int) {
    && id in s.running && id in t.retrying
    && var run, entry := s.running[id], t.retrying[id];
       && entry.itemId == id && entry.attempt == attempt && entry.cause == Stalled(now - heard)
       && entry.dueAt == now + Scheduler.Backoff.FailureRetryDelay(attempt, cfg.maxRetryBackoff)
       && entry.workerHost == run.workerHost && entry.workspacePath == run.workspacePath
       && StopsFor(t.log, id) == StopsFor(s.log, id) + [StopCalled(id, run.item.identifier, run.handle, false)]
  }

  /** A running item is stopped as stalled exactly when it was last heard of longer ago than the timeout. */
  lemma StalledExactly(cfg: Config, deps: Deps, s: State, now: int, id: string, heard: int, attempt: int)
    requires WellOrdered(deps) && cfg.stallTimeout > 0 && id in s.running
    requires HeardOf(s.running[id], heard) && IsNextAttempt(s.running[id].attempt, attempt)
    ensures var t := Scheduler.ReconcileStalled(cfg, deps, s, now);
            if now - heard > cfg.stallTimeout
            then id !in t.running && StoppedAsStalled(cfg, s, t, now, id, heard, attempt)
            else id in t.running && t.running[id] == s.running[id] && StopsFor(t.log, id) == StopsFor(s.log, id)
  {
    ReconcileStalledExact(cfg, deps, s, now, id);
  }

  /** Without a timeout nothing is ever stalled. */
  lemma NoTimeoutNoStall(cfg: Config, deps: Deps, s: State, now: int)
    requires WellOrdered(deps) && cfg.stallTimeout <= 0
    ensures Scheduler.ReconcileStalled(cfg, deps, s, now) == s
  {
  }

  /** A dated event keeps its run from being stopped as stalled until the timeout has passed since its date. */
  lemma HeardKeepsRunning(cfg: Config, deps: Deps, s: State, now: int, event: RunEvent, at: int, later: int)
    requires WellOrdered(deps) && event.itemId in s.running && event.at == Some(at)
    requires event.kind != RunCompleted && event.kind != RunFailed && later <= at + cfg.stallTimeout
    ensures var heard := ApplyRunEvent(cfg, s, now, event);
            var t := Scheduler.ReconcileStalled(cfg, deps, heard, later);
            && event.itemId in t.running && t.running[event.itemId] == heard.running[event.itemId]
            && StopsFor(t.log, event.itemId) == StopsFor(s.log, event.itemId)
  {
    var id, heard := event.itemId, ApplyRunEvent(cfg, s, now, event);
    EventUpdates(cfg, s, now, event);
    EventStopsNothing(cfg, s, now, event);
    if cfg.stallTimeout > 0 {
      StalledExactly(cfg, deps, heard, later, id, at,
                     if heard.running[id].attempt > 0 then heard.running[id].attempt + 1 else 1);
    }
  }

  lemma EventStopsNothing(cfg: Config, s: State, now: int, event: RunEvent)
    requires event.itemId in s.running && event.kind != RunCompleted && event.kind != RunFailed
    ensures StopsFor(ApplyRunEvent(cfg, s, now, event).log, event.itemId) == StopsFor(s.log, event.itemId)
  {
    StopsForSnoc(s.log, Reported(event.itemId, event.totals));
    assert StopsFor(s.log, event.itemId) + [] == StopsFor(s.log, event.itemId);
  }
}
