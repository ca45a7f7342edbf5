/** The invariant of the scheduler and the proof that every operation of state.go keeps it. */
module Safety {
  import opened Text
  import opened Domain
  import opened Scheduler
  import opened Lifecycle
  import Hosts

  /** Where the scheduler's maps say an item stands. */
  function PhaseIn(s: State, id: string): Phase {
    if id in s.running then Running(s.running[id].attempt, s.running[id].lastReported, s.running[id].handle)
    else if id in s.retrying then Waiting(s.retrying[id].attempt, id in s.claimed, s.retrying[id].nonce)
    else Idle
  }

  /**
   What holds of one item between operations: its entries carry its ID, a running item is claimed and
   not queued, a claim belongs to a running or a queued item, and the maps agree with the history.
   */
  ghost predicate Sound(s: State, id: string) {
    && (id in s.claimed ==> s.claimed[id].itemId == id && (id in s.running || id in s.retrying))
    && (id in s.running ==>
          id in s.claimed && id !in s.retrying && s.running[id].item.id == id && s.running[id].attempt >= 0)
    && (id in s.retrying ==>
          s.retrying[id].itemId == id && s.retrying[id].attempt >= 1 && 1 <= s.retrying[id].nonce <= s.retryNonce)
    && PhaseOf(s.log, id) == PhaseIn(s, id)
  }

  /**
   The aggregate is what the history accounts for; queued nonces only rise, the counter bounds them,
   and no two queued items share one.
   */
  ghost predicate LedgerSound(s: State) {
    && s.totals == Tally(s.log)
    && NoncesRise(s.log)
    && (forall k :: 0 <= k < |s.log| && s.log[k].Queued? ==> s.log[k].nonce <= s.retryNonce)
    && (forall a, b :: a in s.retrying && b in s.retrying && a != b ==> s.retrying[a].nonce != s.retrying[b].nonce)
  }

  ghost predicate WithinLimit(cfg: Config, s: State) {
    cfg.maxConcurrent > 0 ==> |s.running| <= cfg.maxConcurrent
  }

  ghost predicate Inv(cfg: Config, s: State) {
    && (forall id :: Sound(s, id))
    && LedgerSound(s)
    && WithinLimit(cfg, s)
  }

  /** What holds of the item an operation is working on: not running, its history in `phase`. */
  ghost predicate Open(s: State, id: string, phase: Phase) {
    && id !in s.running
    && PhaseOf(s.log, id) == phase
    && (id in s.claimed <==> HasClaim(phase))
    && (id in s.claimed ==> s.claimed[id].itemId == id)
    && (id in s.retrying ==> s.retrying[id].nonce <= s.retryNonce)
  }

  ghost predicate InvBut(cfg: Config, s: State, id: string, phase: Phase) {
    && (forall other :: other != id ==> Sound(s, other))
    && Open(s, id, phase)
    && LedgerSound(s)
    && WithinLimit(cfg, s)
  }

  lemma EmptySound(cfg: Config)
    ensures Inv(cfg, EMPTY)
  {
  }

  /** Nothing that matters differs: counting a dependency call, or anything else outside the maps and the history. */
  predicate Unmoved(s: State, t: State) {
    && t.claimed == s.claimed && t.running == s.running && t.retrying == s.retrying
    && t.log == s.log && t.retryNonce == s.retryNonce && t.totals == s.totals
  }

  lemma SameCore(cfg: Config, s: State, t: State)
    requires Unmoved(s, t)
    ensures Inv(cfg, s) ==> Inv(cfg, t)
  {
    if Inv(cfg, s) {
      forall id ensures Sound(t, id) { assert Sound(s, id); }
    }
  }

  lemma SameCoreBut(cfg: Config, s: State, t: State, id: string, phase: Phase)
    requires Unmoved(s, t) && InvBut(cfg, s, id, phase)
    ensures InvBut(cfg, t, id, phase)
  {
    forall other | other != id ensures Sound(t, other) { assert Sound(s, other); }
  }

  /** An action that queues and reports nothing keeps the ledger sound, whatever else it removes. */
  lemma LedgerAfter(s: State, t: State, action: Action)
    requires LedgerSound(s) && !action.Queued? && !action.Reported?
    requires t.log == s.log + [action] && t.retryNonce == s.retryNonce && t.totals == s.totals
    requires forall id :: id in t.retrying ==> id in s.retrying && t.retrying[id] == s.retrying[id]
    ensures LedgerSound(t)
  {
    TallySnoc(s.log, action);
  }

  // ----- queueing -----

  lemma QueueSound(
    cfg: Config, s: State, id: string, phase: Phase, identifier: string, attempt: int, dueAt: int, cause: Cause,
    host: string, path: string)
    requires InvBut(cfg, s, id, phase) && attempt >= 1 && MayQueue(phase, attempt, cause)
    ensures Inv(cfg, QueueRetry(s, id, identifier, attempt, dueAt, cause, host, path))
  {
    var t := QueueRetry(s, id, identifier, attempt, dueAt, cause, host, path);
    PhaseSnoc(s.log, Queued(id, attempt, s.retryNonce + 1, cause));
    TallySnoc(s.log, Queued(id, attempt, s.retryNonce + 1, cause));
    forall other ensures Sound(t, other) {
      if other != id { assert Sound(s, other); }
    }
    forall a | a in s.retrying && a != id ensures s.retrying[a].nonce <= s.retryNonce { assert Sound(s, a); }
  }

  lemma FailureQueueSound(
    cfg: Config, s: State, now: int, id: string, phase: Phase, identifier: string, attempt: int, cause: Cause,
    host: string, path: string)
    requires InvBut(cfg, s, id, phase) && attempt >= 1 && MayQueue(phase, attempt, cause)
    ensures Inv(cfg, ScheduleFailureRetry(cfg, s, now, id, identifier, attempt, cause, host, path))
    ensures id in ScheduleFailureRetry(cfg, s, now, id, identifier, attempt, cause, host, path).retrying
  {
    QueueSound(cfg, s, id, phase, identifier, attempt,
               now + Scheduler.Backoff.FailureRetryDelay(attempt, cfg.maxRetryBackoff), cause, host, path);
  }

  // ----- dispatch -----

  lemma BeginRunSoundAt(
    cfg: Config, s: State, now: int, item: WorkItem, phase: Phase, attempt: int, host: string, result: StartResult,
    id: string)
    requires InvBut(cfg, s, item.id, phase) && attempt >= 0 && MayStart(phase, attempt)
    ensures Sound(BeginRun(s, now, item, attempt, host, result), id)
  {
    PhaseSnoc(s.log, Started(item.id, attempt, host, true, result.handle));
    if id != item.id { assert Sound(s, id); }
  }

  lemma BeginRunSound(
    cfg: Config, s: State, now: int, item: WorkItem, phase: Phase, attempt: int, host: string, result: StartResult)
    requires InvBut(cfg, s, item.id, phase) && attempt >= 0 && MayStart(phase, attempt)
    requires !AtGlobalLimit(cfg, s)
    ensures Inv(cfg, BeginRun(s, now, item, attempt, host, result))
  {
    var t := BeginRun(s, now, item, attempt, host, result);
    LedgerAfter(s, t, Started(item.id, attempt, host, true, result.handle));
    forall id ensures Sound(t, id) {
      BeginRunSoundAt(cfg, s, now, item, phase, attempt, host, result, id);
    }
  }

  lemma RefuseStartSound(
    cfg: Config, s: State, now: int, item: WorkItem, phase: Phase, attempt: int, host: string, message: string)
    requires InvBut(cfg, s, item.id, phase) && attempt >= 0 && MayStart(phase, attempt)
    ensures Inv(cfg, RefuseStart(cfg, s, now, item, attempt, host, message))
    ensures item.id in RefuseStart(cfg, s, now, item, attempt, host, message).retrying
  {
    var action := Started(item.id, attempt, host, false, None);
    var failed := s.(log := s.log + [action]);
    PhaseSnoc(s.log, action);
    LedgerAfter(s, failed, action);
    forall other | other != item.id ensures Sound(failed, other) { assert Sound(s, other); }
    assert InvBut(cfg, failed, item.id, Failing(attempt, HasClaim(phase)));
    FailureQueueSound(cfg, failed, now, item.id, Failing(attempt, HasClaim(phase)), item.identifier,
                      NextFailureAttempt(attempt), StartFailed(message), host, "");
  }

  /** startRun either starts the run or queues the item again. */
  lemma StartOnSound(
    cfg: Config, deps: Deps, s: State, now: int, item: WorkItem, phase: Phase, attempt: int, host: string)
    requires InvBut(cfg, s, item.id, phase) && attempt >= 0 && MayStart(phase, attempt)
    requires !AtGlobalLimit(cfg, s)
    ensures Inv(cfg, StartOn(cfg, deps, s, now, item, attempt, host).0)
    ensures var (t, ok) := StartOn(cfg, deps, s, now, item, attempt, host);
            if ok then item.id in t.running else item.id in t.retrying
  {
    var (called, answer) := CallStart(deps, s, StartRequest(item, attempt, host));
    SameCoreBut(cfg, s, called, item.id, phase);
    match answer
    case Ok(result) => BeginRunSound(cfg, called, now, item, phase, attempt, host, result);
    case Err(message) => RefuseStartSound(cfg, called, now, item, phase, attempt, host, message);
  }

  /** A dispatch that is given a host starts the run or queues it again; one that is not leaves the item open. */
  lemma DispatchSound(
    cfg: Config, deps: Deps, s: State, now: int, item: WorkItem, phase: Phase, attempt: int, preferred: string)
    requires InvBut(cfg, s, item.id, phase) && attempt >= 0 && MayStart(phase, attempt)
    requires !AtGlobalLimit(cfg, s)
    ensures AdmitHost(deps, s, preferred).1.Some? ==>
              var (t, ok) := DispatchItem(cfg, deps, s, now, item, attempt, preferred);
              Inv(cfg, t) && if ok then item.id in t.running else item.id in t.retrying
    ensures InvBut(cfg, AdmitHost(deps, s, preferred).0, item.id, phase)
  {
    var (admitted, host) := AdmitHost(deps, s, preferred);
    SameCoreBut(cfg, s, admitted, item.id, phase);
    if host.Some? {
      StartOnSound(cfg, deps, admitted, now, item, phase, attempt, host.value);
    }
  }

  /** The one assumption about the tracker: asked for one ID, it answers with that ID first or with nothing. */
  ghost predicate EchoesId(deps: Deps) {
    deps.refresh.Some? ==>
      forall n, id :: var answer := deps.refresh.value(n, [id]);
                      answer.Ok? && answer.value != [] ==> answer.value[0].id == id
  }

  lemma OpenIfUnclaimed(cfg: Config, s: State, id: string)
    requires Inv(cfg, s) && id !in s.claimed && id !in s.running
    ensures InvBut(cfg, s, id, PhaseIn(s, id))
    ensures MayStart(PhaseIn(s, id), 0)
  {
    assert Sound(s, id);
  }

  lemma DispatchUnclaimedSound(cfg: Config, deps: Deps, s: State, now: int, item: WorkItem)
    requires Inv(cfg, s) && item.id !in s.claimed && item.id !in s.running && !AtGlobalLimit(cfg, s)
    ensures Inv(cfg, DispatchItem(cfg, deps, s, now, item, 0, "").0)
  {
    if AdmitHost(deps, s, "").1.Some? {
      OpenIfUnclaimed(cfg, s, item.id);
      DispatchSound(cfg, deps, s, now, item, PhaseIn(s, item.id), 0, "");
    } else {
      SameCore(cfg, s, AdmitHost(deps, s, "").0);
    }
  }

  lemma RevalidateEchoes(cfg: Config, deps: Deps, s: State, id: string)
    requires EchoesId(deps) && id !in s.running
    ensures var (called, refreshed) := RevalidateCandidate(cfg, deps, s, id);
            (called == s || called == s.(calls := s.calls + 1)) && (refreshed.Some? ==> refreshed.value.id == id)
  {
  }

  lemma TryCandidateSound(cfg: Config, deps: Deps, s: State, now: int, item: WorkItem)
    requires Inv(cfg, s) && EchoesId(deps)
    ensures Inv(cfg, TryCandidate(cfg, deps, s, now, item))
  {
    if ShouldDispatch(cfg, s, item) {
      RevalidateEchoes(cfg, deps, s, item.id);
      var (called, refreshed) := RevalidateCandidate(cfg, deps, s, item.id);
      SameCore(cfg, s, called);
      if refreshed.Some? {
        DispatchUnclaimedSound(cfg, deps, called, now, refreshed.value);
      }
    }
  }

  lemma {:induction false} TryCandidatesSound(cfg: Config, deps: Deps, s: State, now: int, items: seq<WorkItem>)
    requires Inv(cfg, s) && EchoesId(deps)
    ensures Inv(cfg, TryCandidates(cfg, deps, s, now, items))
    decreases |items|
  {
    if items != [] {
      TryCandidateSound(cfg, deps, s, now, items[0]);
      TryCandidatesSound(cfg, deps, TryCandidate(cfg, deps, s, now, items[0]), now, items[1..]);
    }
  }

  lemma ProcessCandidatesSound(cfg: Config, deps: Deps, s: State, now: int, candidates: seq<WorkItem>)
    requires Inv(cfg, s) && EchoesId(deps)
    ensures Inv(cfg, ProcessCandidates(cfg, deps, s, now, candidates))
  {
    SameCore(cfg, s, s.(calls := s.calls + 1));
    TryCandidatesSound(cfg, deps, s.(calls := s.calls + 1), now, deps.sort(s.calls, candidates));
  }

  // ----- worker events -----

  /** Taking a run out of `running` leaves its item open, in the phase its run had. */
  lemma TakeOut(cfg: Config, s: State, id: string)
    requires Inv(cfg, s) && id in s.running
    ensures InvBut(cfg, s.(running := s.running - {id}), id, PhaseIn(s, id))
    ensures id !in s.retrying && s.running[id].attempt >= 0 && s.running[id].item.id == id
  {
    var t := s.(running := s.running - {id});
    assert Sound(s, id);
    forall other | other != id ensures Sound(t, other) { assert Sound(s, other); }
  }

  /** Rewriting a running entry without touching its ID, attempt or reports changes nothing the invariant sees. */
  lemma RewriteSound(cfg: Config, s: State, id: string, run: Run)
    requires Inv(cfg, s) && id in s.running
    requires run.item.id == id && run.attempt == s.running[id].attempt && run.handle == s.running[id].handle
    requires run.lastReported == s.running[id].lastReported
    ensures Inv(cfg, s.(running := s.running[id := run]))
  {
    var t := s.(running := s.running[id := run]);
    forall other ensures Sound(t, other) { assert Sound(s, other); }
  }

  /** A report moves the aggregate and the run's own mark together. */
  lemma ReportSound(cfg: Config, s: State, event: RunEvent)
    requires Inv(cfg, s) && event.itemId in s.running && event.totals != NO_TOTALS
    ensures var counted := Account(s, event);
            Inv(cfg, counted.(running := counted.running[event.itemId := Stamp(s.running[event.itemId], event)]))
  {
    var id, action := event.itemId, Reported(event.itemId, event.totals);
    var t := Account(s, event).(running := s.running[id := Stamp(s.running[id], event)]);
    assert Sound(s, id);
    PhaseSnoc(s.log, action);
    TallySnoc(s.log, action);
    forall other ensures Sound(t, other) { assert Sound(s, other); }
  }

  lemma StampSound(cfg: Config, s: State, event: RunEvent)
    requires Inv(cfg, s) && event.itemId in s.running
    ensures var counted := Account(s, event);
            Inv(cfg, counted.(running := counted.running[event.itemId := Stamp(s.running[event.itemId], event)]))
  {
    if event.totals != NO_TOTALS {
      ReportSound(cfg, s, event);
    } else {
      assert Sound(s, event.itemId);
      SameCore(cfg, s, Account(s, event));
      RewriteSound(cfg, Account(s, event), event.itemId, Stamp(s.running[event.itemId], event));
    }
  }

  lemma ApplyRunEventSound(cfg: Config, s: State, now: int, event: RunEvent)
    requires Inv(cfg, s)
    ensures Inv(cfg, ApplyRunEvent(cfg, s, now, event))
  {
    var id := event.itemId;
    if id in s.running {
      var run := Stamp(s.running[id], event);
      var counted := Account(s, event);
      var stamped := counted.(running := counted.running[id := run]);
      StampSound(cfg, s, event);
      TakeOut(cfg, stamped, id);
      var gone := counted.(running := counted.running - {id});
      assert stamped.running - {id} == counted.running - {id};
      if event.kind.RunCompleted? {
        QueueSound(cfg, gone, id, PhaseIn(stamped, id), run.item.identifier, 1, now + 1_000_000_000, Completed,
                   run.workerHost, run.workspacePath);
      } else if event.kind.RunFailed? {
        FailureQueueSound(cfg, gone, now, id, PhaseIn(stamped, id), run.item.identifier,
                          NextFailureAttempt(run.attempt), WorkerFailed(event.error.GetOr(event.message)),
                          run.workerHost, run.workspacePath);
      }
    }
  }

  // ----- due retries -----

  lemma ConsumeSound(cfg: Config, s: State, id: string)
    requires Inv(cfg, s) && id in s.retrying
    ensures InvBut(cfg, Consume(s, id, s.retrying[id].nonce), id, Due(s.retrying[id].attempt, id in s.claimed))
    ensures s.retrying[id].attempt >= 1
  {
    var action := Consumed(id, s.retrying[id].nonce);
    var t := Consume(s, id, s.retrying[id].nonce);
    assert Sound(s, id);
    PhaseSnoc(s.log, action);
    LedgerAfter(s, t, action);
    forall other | other != id ensures Sound(t, other) { assert Sound(s, other); }
  }

  /** A stop for an item that is idle: the retry path's, without a handle. */
  lemma StopIdleSound(cfg: Config, s: State, id: string, identifier: string, cleanup: bool)
    requires Inv(cfg, s) && PhaseIn(s, id).Idle?
    ensures Inv(cfg, StopWithIntent(s, id, identifier, None, cleanup))
  {
    var action := StopCalled(id, identifier, None, cleanup);
    var t := s.(calls := s.calls + 1, log := s.log + [action]);
    PhaseSnoc(s.log, action);
    LedgerAfter(s, t, action);
    assert Sound(s, id);
    forall other ensures Sound(t, other) { assert Sound(s, other); }
  }

  /** A stop with the handle of the run that was just taken out. */
  lemma StopOpenSound(
    cfg: Config, s: State, open: string, phase: Phase, identifier: string, handle: Option<nat>, cleanup: bool)
    requires InvBut(cfg, s, open, phase) && phase.Running? && phase.handle == handle
    ensures InvBut(cfg, StopWithIntent(s, open, identifier, handle, cleanup), open, Stopped(phase.attempt))
  {
    var action := StopCalled(open, identifier, handle, cleanup);
    var t := s.(calls := s.calls + 1, log := s.log + [action]);
    PhaseSnoc(s.log, action);
    LedgerAfter(s, t, action);
    forall other | other != open ensures Sound(t, other) { assert Sound(s, other); }
  }

  lemma ReleaseSound(cfg: Config, s: State, id: string, phase: Phase)
    requires InvBut(cfg, s, id, phase) && phase.Due? && id !in s.retrying
    ensures Inv(cfg, Release(s, id)) && PhaseIn(Release(s, id), id).Idle?
  {
    var t := s.(claimed := s.claimed - {id}, log := s.log + [Dropped(id)]);
    PhaseSnoc(s.log, Dropped(id));
    LedgerAfter(s, t, Dropped(id));
    assert Sound(t, id);
    forall other | other != id ensures Sound(t, other) { assert Sound(s, other); }
  }

  lemma BlockedSound(
    cfg: Config, s: State, now: int, id: string, entry: Retry, identifier: string, cause: Cause, claimed: bool)
    requires InvBut(cfg, s, id, Due(entry.attempt, claimed)) && entry.attempt >= 1
    requires cause.NoSlots? || cause.RefreshFailed?
    ensures Inv(cfg, Requeue(cfg, s, now, id, entry, identifier, cause))
  {
    FailureQueueSound(cfg, s, now, id, Due(entry.attempt, claimed), identifier, entry.attempt + 1, cause,
                      entry.workerHost, entry.workspacePath);
  }

  lemma RedispatchSound(
    cfg: Config, deps: Deps, s: State, now: int, id: string, entry: Retry, item: WorkItem, claimed: bool)
    requires InvBut(cfg, s, id, Due(entry.attempt, claimed)) && id !in s.retrying
    requires item.id == id && entry.attempt >= 1
    ensures Inv(cfg, Redispatch(cfg, deps, s, now, id, entry, item))
  {
    var phase := Due(entry.attempt, claimed);
    if AtGlobalLimit(cfg, s) || AtStateLimit(cfg, s, item.state) {
      BlockedSound(cfg, s, now, id, entry, item.identifier, NoSlots, claimed);
    } else {
      var admitted := AdmitHost(deps, s, entry.workerHost).0;
      DispatchSound(cfg, deps, s, now, item, phase, entry.attempt, entry.workerHost);
      if AdmitHost(deps, s, entry.workerHost).1.None? {
        BlockedSound(cfg, admitted, now, id, entry, item.identifier, NoSlots, claimed);
      }
    }
  }

  lemma SettleSound(
    cfg: Config, deps: Deps, s: State, now: int, id: string, entry: Retry, status: RetryStatus, claimed: bool)
    requires InvBut(cfg, s, id, Due(entry.attempt, claimed)) && id !in s.retrying && entry.attempt >= 1
    requires status.Ready? ==> status.item.id == id
    ensures Inv(cfg, Settle(cfg, deps, s, now, id, entry, status))
  {
    match status
    case Missing => ReleaseSound(cfg, s, id, Due(entry.attempt, claimed));
    case TerminalItem =>
      ReleaseSound(cfg, s, id, Due(entry.attempt, claimed));
      StopIdleSound(cfg, Release(s, id), id, entry.identifier, true);
    case Ineligible =>
      ReleaseSound(cfg, s, id, Due(entry.attempt, claimed));
      StopIdleSound(cfg, Release(s, id), id, entry.identifier, false);
    case RetryRefreshFailed => BlockedSound(cfg, s, now, id, entry, entry.identifier, RefreshFailed, claimed);
    case Ready(item) => RedispatchSound(cfg, deps, s, now, id, entry, item, claimed);
  }

  lemma DueSound(cfg: Config, deps: Deps, s: State, now: int, id: string, entry: Retry, claimed: bool)
    requires InvBut(cfg, s, id, Due(entry.attempt, claimed)) && id !in s.retrying && entry.attempt >= 1
    requires EchoesId(deps)
    ensures var (due, status) := RefreshRetryItem(cfg, deps, s, id);
            Inv(cfg, Settle(cfg, deps, due, now, id, entry, status))
  {
    var (due, status) := RefreshRetryItem(cfg, deps, s, id);
    SameCoreBut(cfg, s, due, id, Due(entry.attempt, claimed));
    SettleSound(cfg, deps, due, now, id, entry, status, claimed);
  }

  lemma HandleDueRetrySound(cfg: Config, deps: Deps, s: State, now: int, id: string, nonce: nat)
    requires Inv(cfg, s) && EchoesId(deps)
    ensures Inv(cfg, HandleDueRetry(cfg, deps, s, now, id, nonce))
  {
    if id in s.retrying && s.retrying[id].nonce == nonce {
      ConsumeSound(cfg, s, id);
      DueSound(cfg, deps, Consume(s, id, nonce), now, id, s.retrying[id], id in s.claimed);
    }
  }

  // ----- reconciliation -----

  lemma StallRunSound(cfg: Config, s: State, now: int, id: string)
    requires Inv(cfg, s) && id in s.running
    ensures Inv(cfg, StallRun(cfg, s, now, id, s.running[id]))
    ensures StallRun(cfg, s, now, id, s.running[id]).running == s.running - {id}
  {
    var run := s.running[id];
    TakeOut(cfg, s, id);
    var gone := s.(running := s.running - {id});
    StopOpenSound(cfg, gone, id, PhaseIn(s, id), run.item.identifier, run.handle, false);
    FailureQueueSound(cfg, StopWithIntent(gone, id, run.item.identifier, run.handle, false), now, id,
                      Stopped(run.attempt), run.item.identifier, NextFailureAttempt(run.attempt),
                      Stalled(now - LastActivity(run)), run.workerHost, run.workspacePath);
  }

  lemma {:induction false} StallEachSound(
    cfg: Config, s: State, now: int, runs: map<string, Run>, ids: seq<string>)
    requires Inv(cfg, s)
    requires forall i, j :: 0 <= i < j < |ids| ==> ids[i] != ids[j]
    requires forall id :: id in ids ==> id in runs && id in s.running && s.running[id] == runs[id]
    ensures Inv(cfg, StallEach(cfg, s, now, runs, ids))
    decreases |ids|
  {
    if ids != [] {
      var run := runs[ids[0]];
      assert ids[0] in ids;
      forall id | id in ids[1..] ensures id != ids[0] {}
      if IsStalled(cfg, run, now) {
        StallRunSound(cfg, s, now, ids[0]);
        StallEachSound(cfg, StallRun(cfg, s, now, ids[0], run), now, runs, ids[1..]);
      } else {
        StallEachSound(cfg, s, now, runs, ids[1..]);
      }
    }
  }

  lemma ReconcileStalledSound(cfg: Config, deps: Deps, s: State, now: int)
    requires Inv(cfg, s) && WellOrdered(deps)
    ensures Inv(cfg, ReconcileStalled(cfg, deps, s, now))
  {
    var ids := deps.order(s.calls, s.running.Keys);
    assert Lists(ids, s.running.Keys);
    var called := s.(calls := s.calls + 1);
    SameCore(cfg, s, called);
    StallEachSound(cfg, called, now, s.running, ids);
  }

  lemma DropRunSound(cfg: Config, s: State, id: string)
    requires Inv(cfg, s) && id in s.running
    ensures InvBut(cfg, DropRun(s, id), id, Dropping(s.running[id].handle)) && id !in DropRun(s, id).retrying
  {
    assert Sound(s, id);
    var t := DropRun(s, id);
    PhaseSnoc(s.log, Dropped(id));
    LedgerAfter(s, t, Dropped(id));
    forall other | other != id ensures Sound(t, other) { assert Sound(s, other); }
  }

  lemma InvalidateSound(cfg: Config, s: State, id: string, cleanup: bool)
    requires Inv(cfg, s) && id in s.running
    ensures Inv(cfg, InvalidateRun(s, s.running[id], cleanup))
  {
    var run := s.running[id];
    assert Sound(s, id);
    var gone := DropRun(s, id);
    DropRunSound(cfg, s, id);
    var action := StopCalled(id, run.item.identifier, run.handle, cleanup);
    var t := StopWithIntent(gone, id, run.item.identifier, run.handle, cleanup);
    PhaseSnoc(gone.log, action);
    LedgerAfter(gone, t, action);
    forall other ensures Sound(t, other) { if other != id { assert Sound(gone, other); } }
  }

  lemma {:induction false} ByIdKeyed(items: seq<WorkItem>)
    ensures forall id :: id in ById(items) ==> ById(items)[id].id == id && ById(items)[id] in items
    ensures forall item :: item in items ==> item.id in ById(items)
  {
    if items != [] {
      ByIdKeyed(items[..|items| - 1]);
    }
  }

  lemma ReconcileOneSound(cfg: Config, s: State, items: seq<WorkItem>, id: string)
    requires Inv(cfg, s) && id in s.running
    ensures Inv(cfg, ReconcileOne(cfg, s, ById(items), id, s.running[id]))
    ensures forall other :: other != id ==>
              var t := ReconcileOne(cfg, s, ById(items), id, s.running[id]);
              (other in t.running <==> other in s.running) && (other in s.running ==> t.running[other] == s.running[other])
  {
    ByIdKeyed(items);
    assert Sound(s, id);
    if Keeps(cfg, ById(items), id) {
      RewriteSound(cfg, s, id, s.running[id].(item := ById(items)[id]));
    } else {
      InvalidateSound(cfg, s, id, Cleans(cfg, ById(items), id));
    }
  }

  lemma {:induction false} ReconcileEachSound(
    cfg: Config, s: State, items: seq<WorkItem>, runs: map<string, Run>, ids: seq<string>)
    requires Inv(cfg, s)
    requires forall i, j :: 0 <= i < j < |ids| ==> ids[i] != ids[j]
    requires forall id :: id in ids ==> id in runs && id in s.running && s.running[id] == runs[id]
    ensures Inv(cfg, ReconcileEach(cfg, s, ById(items), runs, ids))
    decreases |ids|
  {
    if ids != [] {
      assert ids[0] in ids;
      forall id | id in ids[1..] ensures id != ids[0] {}
      ReconcileOneSound(cfg, s, items, ids[0]);
      ReconcileEachSound(cfg, ReconcileOne(cfg, s, ById(items), ids[0], runs[ids[0]]), items, runs, ids[1..]);
    }
  }

  lemma ReconcileAllSound(cfg: Config, s: State, n: nat, items: seq<WorkItem>, ids: seq<string>)
    requires Inv(cfg, s) && Lists(ids, s.running.Keys)
    ensures Inv(cfg, ReconcileEach(cfg, s.(calls := n), ById(items), s.running, ids))
  {
    var called := s.(calls := n);
    SameCore(cfg, s, called);
    ReconcileEachSound(cfg, called, items, s.running, ids);
  }

  lemma ReconcileAnswerSound(cfg: Config, deps: Deps, s: State, answer: Answer<seq<WorkItem>>)
    requires Inv(cfg, s) && WellOrdered(deps)
    ensures Inv(cfg, ReconcileAnswer(cfg, deps, s, answer))
  {
    if answer.Ok? {
      var ids := deps.order(s.calls + 2, s.running.Keys);
      assert Lists(ids, s.running.Keys);
      ReconcileAllSound(cfg, s, s.calls + 3, answer.value, ids);
    } else {
      SameCore(cfg, s, s.(calls := s.calls + 2));
    }
  }

  lemma ReconcileRunningSound(cfg: Config, deps: Deps, s: State)
    requires Inv(cfg, s) && WellOrdered(deps)
    ensures Inv(cfg, ReconcileRunning(cfg, deps, s))
  {
    var t := ReconcileRunning(cfg, deps, s);
    if s.running != map[] && deps.refresh.Some? {
      var answer := deps.refresh.value(s.calls + 1, deps.order(s.calls, s.running.Keys));
      ReconcileAnswerSound(cfg, deps, s, answer);
      assert t == ReconcileAnswer(cfg, deps, s, answer);
    } else {
      assert t == s;
    }
  }
}
